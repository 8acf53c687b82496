/** Dockerfile variable expansion. A string here is its UTF-8 bytes, one character
    below 256 for each byte. */
module Variables {
  import opened Common
  import opened Text

  type Variables = map<string, string>

  predicate Bytes(s: string) {
    forall i :: 0 <= i < |s| ==> s[i] as int < 256
  }

  predicate Ascii(s: string) {
    forall i :: 0 <= i < |s| ==> s[i] as int < 128
  }

  /** `output.push(char::from(byte))`: the character with that number, as UTF-8. */
  function PushedByte(c: char): string
    requires c as int < 256
  {
    var b := c as int;
    if b < 128 then [c] else [(192 + b / 64) as char, (128 + b % 64) as char]
  }

  function PushedBytes(s: string): string
    requires Bytes(s)
  {
    if s == "" then "" else PushedByte(s[0]) + PushedBytes(s[1..])
  }

  /** ARG over ENV over empty. */
  function ValueOf(name: string, environment: Variables, arguments: Variables): string {
    if name in arguments then arguments[name]
    else if name in environment then environment[name]
    else ""
  }

  // ------------------------------------------------------------------
  // The reading of a text
  // ------------------------------------------------------------------

  /** A character of the text, a bare dollar sign, `$NAME` or `${NAME}`. */
  datatype Piece = Plain(c: char) | Dollar | Named(name: string) | Braced(name: string)

  function Shown(p: Piece): string {
    match p
    case Plain(c) => [c]
    case Dollar => "$"
    case Named(name) => "$" + name
    case Braced(name) => "${" + name + "}"
  }

  function Show(ps: seq<Piece>): string {
    if ps == [] then "" else Shown(ps[0]) + Show(ps[1..])
  }

  /** A value is put in as it is: nothing in it is expanded again. */
  function Meaning(p: Piece, environment: Variables, arguments: Variables): string {
    match p
    case Plain(c) => if c as int < 256 then PushedByte(c) else [c]
    case Dollar => "$"
    case Named(name) => ValueOf(name, environment, arguments)
    case Braced(name) => ValueOf(name, environment, arguments)
  }

  function Meanings(ps: seq<Piece>, environment: Variables, arguments: Variables): string {
    if ps == [] then "" else Meaning(ps[0], environment, arguments) + Meanings(ps[1..], environment, arguments)
  }

  predicate NameStarts(s: string) {
    s != "" && NameChar(s[0])
  }

  predicate BraceCloses(s: string) {
    s != "" && s[0] == '{' && '}' in s[1..]
  }

  /** Whether `p` is how a text that goes on with `rest` begins: names are as long as
      they can be, braces end at the first closing one, and a dollar sign is bare
      only when neither kind of variable follows. */
  predicate Fits(p: Piece, rest: string) {
    match p
    case Plain(c) => c != '$'
    case Dollar => !NameStarts(rest) && !BraceCloses(rest)
    case Named(name) => name != "" && (forall i :: 0 <= i < |name| ==> NameChar(name[i])) && !NameStarts(rest)
    case Braced(name) => '}' !in name
  }

  predicate Canonical(ps: seq<Piece>) {
    ps != [] ==> Fits(ps[0], Show(ps[1..])) && Canonical(ps[1..])
  }

  function NameLength(s: string): (n: nat)
    ensures n <= |s| && (forall i :: 0 <= i < n ==> NameChar(s[i])) && (n < |s| ==> !NameChar(s[n]))
  {
    if s == "" || !NameChar(s[0]) then 0 else NameLength(s[1..]) + 1
  }

  function Closing(s: string): (n: nat)
    ensures n <= |s| && (forall i :: 0 <= i < n ==> s[i] != '}') && (n < |s| ==> s[n] == '}')
  {
    if s == "" || s[0] == '}' then 0 else Closing(s[1..]) + 1
  }

  /** The first piece of a text and how much of the text it is. */
  function First(s: string): (r: (Piece, nat))
    requires s != ""
    ensures 0 < r.1 <= |s|
  {
    if s[0] != '$' then (Plain(s[0]), 1)
    else if |s| > 1 && s[1] == '{' then
      var n := Closing(s[2..]);
      if n == |s| - 2 then (Dollar, 1) else (Braced(s[2..n + 2]), n + 3)
    else
      var n := NameLength(s[1..]);
      if n == 0 then (Dollar, 1) else (Named(s[1..n + 1]), n + 1)
  }

  function Pieces(s: string): seq<Piece>
    decreases |s|
  {
    if s == "" then [] else [First(s).0] + Pieces(s[First(s).1..])
  }

  lemma FirstShown(s: string)
    requires s != ""
    ensures Shown(First(s).0) + s[First(s).1..] == s && Fits(First(s).0, s[First(s).1..])
  {
    var (p, n) := First(s);
    match p
    case Plain(_) =>
    case Dollar =>
      assert s[1..] != "" ==> s[1..][1..] == s[2..];
    case Named(name) =>
      assert s == "$" + name + s[n..];
      assert forall i :: 0 <= i < |name| ==> name[i] == s[1..][i];
    case Braced(name) =>
      assert s == "${" + name + "}" + s[n..];
  }

  /** Every text reads as canonical pieces. */
  lemma {:induction false} PiecesShow(s: string)
    ensures Show(Pieces(s)) == s && Canonical(Pieces(s))
    decreases |s|
  {
    if s != "" {
      var rest := s[First(s).1..];
      FirstShown(s);
      PiecesShow(rest);
      assert Pieces(s)[1..] == Pieces(rest);
    }
  }

  lemma NameLengthExact(name: string, rest: string)
    requires (forall i :: 0 <= i < |name| ==> NameChar(name[i])) && !NameStarts(rest)
    ensures NameLength(name + rest) == |name|
  {
    var s := name + rest;
    assert forall i :: 0 <= i < |name| ==> s[i] == name[i];
    assert rest != "" ==> s[|name|] == rest[0];
    NameLengthUnique(s, |name|);
  }

  lemma NameLengthUnique(s: string, n: nat)
    requires n <= |s| && (forall i :: 0 <= i < n ==> NameChar(s[i])) && (n < |s| ==> !NameChar(s[n]))
    ensures NameLength(s) == n
  {
  }

  lemma ClosingExact(name: string, rest: string)
    requires '}' !in name
    ensures Closing(name + "}" + rest) == |name|
  {
    var s := name + "}" + rest;
    assert forall i :: 0 <= i < |name| ==> s[i] == name[i] && name[i] in name;
    assert s[|name|] == '}';
  }

  lemma BareFirst(rest: string)
    requires Fits(Dollar, rest)
    ensures First("$" + rest) == (Dollar, 1)
  {
  }

  lemma NamedFirst(name: string, rest: string)
    requires Fits(Named(name), rest)
    ensures First("$" + name + rest) == (Named(name), |name| + 1)
  {
    var s := "$" + name + rest;
    NameLengthExact(name, rest);
    assert s[1..] == name + rest && s[1] == name[0];
    assert s[1..|name| + 1] == name;
  }

  lemma BracedFirst(name: string, rest: string)
    requires '}' !in name
    ensures First("${" + name + "}" + rest) == (Braced(name), |name| + 3)
  {
    var s := "${" + name + "}" + rest;
    ClosingExact(name, rest);
    assert s[2..] == name + "}" + rest;
    assert s[2..|name| + 2] == name;
  }

  lemma FirstExact(p: Piece, rest: string)
    requires Fits(p, rest)
    ensures First(Shown(p) + rest) == (p, |Shown(p)|)
  {
    match p
    case Plain(_) =>
    case Dollar => BareFirst(rest);
    case Named(name) => NamedFirst(name, rest);
    case Braced(name) => BracedFirst(name, rest);
  }

  /** And in no other way. */
  lemma {:induction false} PiecesUnique(ps: seq<Piece>)
    requires Canonical(ps)
    ensures Pieces(Show(ps)) == ps
  {
    if ps != [] {
      var rest := Show(ps[1..]);
      FirstExact(ps[0], rest);
      PiecesUnique(ps[1..]);
      assert Show(ps)[|Shown(ps[0])|..] == rest;
    }
  }

  // ------------------------------------------------------------------
  // The loop
  // ------------------------------------------------------------------

  function Expanded(s: string, environment: Variables, arguments: Variables): string {
    Meanings(Pieces(s), environment, arguments)
  }

  lemma ExpandedFirst(s: string, environment: Variables, arguments: Variables)
    requires s != ""
    ensures Expanded(s, environment, arguments)
         == Meaning(First(s).0, environment, arguments) + Expanded(s[First(s).1..], environment, arguments)
  {
    assert Pieces(s)[1..] == Pieces(s[First(s).1..]);
  }

  method NameEnd(bytes: string, start: nat) returns (end: nat)
    requires start <= |bytes|
    ensures start <= end <= |bytes| && end - start == NameLength(bytes[start..])
  {
    end := start;
    while end < |bytes| && NameChar(bytes[end])
      invariant start <= end <= |bytes| && forall i :: start <= i < end ==> NameChar(bytes[i])
    {
      end := end + 1;
    }
    NameLengthUnique(bytes[start..], end - start);
  }

  lemma PlainAt(input: string, index: nat, environment: Variables, arguments: Variables)
    requires Bytes(input) && index < |input| && input[index] != '$'
    ensures Expanded(input[index..], environment, arguments)
         == PushedByte(input[index]) + Expanded(input[index + 1..], environment, arguments)
  {
    hide Expanded, PushedByte;
    ExpandedFirst(input[index..], environment, arguments);
  }

  lemma BareAt(input: string, index: nat, environment: Variables, arguments: Variables)
    requires index < |input| && input[index] == '$'
    requires if index + 1 < |input| && input[index + 1] == '{'
             then Closing(input[index + 2..]) == |input| - (index + 2) else NameLength(input[index + 1..]) == 0
    ensures Expanded(input[index..], environment, arguments)
         == "$" + Expanded(input[index + 1..], environment, arguments)
  {
    hide Expanded;
    var rest := input[index..];
    assert rest[1..] == input[index + 1..];
    assert |rest| > 1 ==> rest[2..] == input[index + 2..];
    ExpandedFirst(rest, environment, arguments);
  }

  lemma BracedAt(input: string, index: nat, end: nat, environment: Variables, arguments: Variables)
    requires index + 2 <= end < |input| && input[index] == '$' && input[index + 1] == '{'
    requires Closing(input[index + 2..]) == end - (index + 2)
    ensures Expanded(input[index..], environment, arguments)
         == ValueOf(input[index + 2..end], environment, arguments) + Expanded(input[end + 1..], environment, arguments)
  {
    hide Expanded, ValueOf;
    var rest := input[index..];
    assert rest[2..] == input[index + 2..] && rest[2..end - index] == input[index + 2..end];
    ExpandedFirst(rest, environment, arguments);
    assert rest[end - index + 1..] == input[end + 1..];
  }

  lemma NamedAt(input: string, index: nat, end: nat, environment: Variables, arguments: Variables)
    requires index + 1 < end <= |input| && input[index] == '$' && input[index + 1] != '{'
    requires NameLength(input[index + 1..]) == end - (index + 1)
    ensures Expanded(input[index..], environment, arguments)
         == ValueOf(input[index + 1..end], environment, arguments) + Expanded(input[end..], environment, arguments)
  {
    hide Expanded, ValueOf;
    var rest := input[index..];
    assert rest[1..] == input[index + 1..] && rest[1..end - index] == input[index + 1..end];
    ExpandedFirst(rest, environment, arguments);
    assert rest[end - index..] == input[end..];
  }

  /** `expand_variables`: the loop puts together the meanings of the text's pieces. */
  method ExpandVariables(input: string, environment: Variables, arguments: Variables) returns (output: string)
    requires Bytes(input)
    ensures output == Expanded(input, environment, arguments)
  {
    hide Expanded, ValueOf, PushedByte, Closing, NameLength;
    output := "";
    var index := 0;
    while index < |input|
      invariant index <= |input|
      invariant output + Expanded(input[index..], environment, arguments) == Expanded(input, environment, arguments)
    {
      if input[index] != '$' {
        PlainAt(input, index, environment, arguments);
        output := output + PushedByte(input[index]);
        index := index + 1;
        continue;
      }
      if index + 1 < |input| && input[index + 1] == '{' {
        var offset := Closing(input[index + 2..]);
        if offset == |input| - (index + 2) {
          BareAt(input, index, environment, arguments);
          output := output + "$";
          index := index + 1;
          continue;
        }
        var end := index + 2 + offset;
        BracedAt(input, index, end, environment, arguments);
        output := output + ValueOf(input[index + 2..end], environment, arguments);
        index := end + 1;
        continue;
      }
      var start := index + 1;
      var end := NameEnd(input, start);
      if end == start {
        BareAt(input, index, environment, arguments);
        output := output + "$";
        index := index + 1;
        continue;
      }
      NameAfterDollar(input, index);
      NamedAt(input, index, end, environment, arguments);
      output := output + ValueOf(input[start..end], environment, arguments);
      index := end;
    }
    NothingExpands(environment, arguments);
    assert input[index..] == "";
  }

  lemma NameAfterDollar(input: string, index: nat)
    requires index + 1 <= |input| && NameLength(input[index + 1..]) > 0
    ensures index + 1 < |input| && input[index + 1] != '{'
  {
  }

  lemma NothingExpands(environment: Variables, arguments: Variables)
    ensures Expanded("", environment, arguments) == ""
  {
  }

  // ------------------------------------------------------------------
  // What expansion does
  // ------------------------------------------------------------------

  lemma {:induction false} NoVariables(s: string, environment: Variables, arguments: Variables)
    requires Bytes(s) && '$' !in s
    ensures Expanded(s, environment, arguments) == PushedBytes(s)
  {
    if s != "" {
      ExpandedFirst(s, environment, arguments);
      NoVariables(s[1..], environment, arguments);
    }
  }

  lemma {:induction false} PushedLength(s: string)
    requires Bytes(s)
    ensures |PushedBytes(s)| >= |s|
    ensures |PushedBytes(s)| == |s| <==> Ascii(s)
    ensures Ascii(s) ==> PushedBytes(s) == s
  {
    if s != "" {
      PushedLength(s[1..]);
      assert s == [s[0]] + s[1..];
    }
  }

  /** Text without a dollar sign is left as it is exactly when it is ASCII: each
      byte of any other character comes out as a character of its own. */
  lemma UnchangedExactly(s: string, environment: Variables, arguments: Variables)
    requires Bytes(s) && '$' !in s
    ensures Expanded(s, environment, arguments) == s <==> Ascii(s)
  {
    NoVariables(s, environment, arguments);
    PushedLength(s);
  }

  /** Such a text: the two bytes of one accented letter come out as four. */
  lemma AccentChanges(environment: Variables, arguments: Variables)
    ensures var s := "\U{c3}\U{a9}"; Bytes(s) && '$' !in s && Expanded(s, environment, arguments) != s
  {
    UnchangedExactly("\U{c3}\U{a9}", environment, arguments);
  }

  /** Main result: a text put together from pieces that fit expands to their
      meanings, each variable once and no value again. */
  lemma ExpansionIsMeaning(ps: seq<Piece>, environment: Variables, arguments: Variables)
    requires Canonical(ps)
    ensures Expanded(Show(ps), environment, arguments) == Meanings(ps, environment, arguments)
  {
    PiecesUnique(ps);
  }

  lemma PieceFirst(p: Piece, rest: string, environment: Variables, arguments: Variables)
    requires Fits(p, rest)
    ensures Expanded(Shown(p) + rest, environment, arguments)
         == Meaning(p, environment, arguments) + Expanded(rest, environment, arguments)
  {
    hide Fits, Shown, Meaning, Expanded;
    var ps := [p] + Pieces(rest);
    PiecesShow(rest);
    assert ps[1..] == Pieces(rest);
    assert Show(ps) == Shown(p) + rest && Canonical(ps);
    ExpansionIsMeaning(ps, environment, arguments);
    ExpansionIsMeaning(Pieces(rest), environment, arguments);
  }

  /** Either way of writing a variable gives the argument of that name, or else the
      environment's value, or else nothing; the rest is expanded on its own. */
  lemma VariableGives(name: string, rest: string, environment: Variables, arguments: Variables)
    ensures var value := if name in arguments then arguments[name]
                         else if name in environment then environment[name] else "";
      && ('}' !in name ==>
            Expanded("${" + name + "}" + rest, environment, arguments)
            == value + Expanded(rest, environment, arguments))
      && (name != "" && (forall i :: 0 <= i < |name| ==> NameChar(name[i])) && !NameStarts(rest) ==>
            Expanded("$" + name + rest, environment, arguments)
            == value + Expanded(rest, environment, arguments))
  {
    hide Expanded;
    if '}' !in name {
      PieceFirst(Braced(name), rest, environment, arguments);
    }
    if name != "" && (forall i :: 0 <= i < |name| ==> NameChar(name[i])) && !NameStarts(rest) {
      PieceFirst(Named(name), rest, environment, arguments);
    }
  }

  /** Any other byte comes out as the character of its number, in UTF-8 (section 3 of
      RFC 3629): itself below 128, and from there on two bytes that encode it. */
  lemma ByteGives(c: char, rest: string, environment: Variables, arguments: Variables)
    requires c as int < 256 && c != '$'
    ensures Expanded([c] + rest, environment, arguments) == PushedByte(c) + Expanded(rest, environment, arguments)
    ensures var bytes := PushedByte(c);
      if c as int < 128 then bytes == [c]
      else |bytes| == 2 && 0xC0 <= bytes[0] as int < 0xE0 && 0x80 <= bytes[1] as int < 0xC0
           && (bytes[0] as int - 0xC0) * 64 + (bytes[1] as int - 0x80) == c as int
  {
    PieceFirst(Plain(c), rest, environment, arguments);
  }
}
