/** The parts of Rust's `str` that line-oriented parsing uses, on sequences of characters. */
module Text {
  import opened Common

  /** `char::is_whitespace`: the Unicode property White_Space. */
  predicate Whitespace(c: char) {
    || '\U{9}' <= c <= '\U{d}' || c == ' ' || c == '\U{85}' || c == '\U{a0}' || c == '\U{1680}'
    || '\U{2000}' <= c <= '\U{200a}' || c == '\U{2028}' || c == '\U{2029}' || c == '\U{202f}'
    || c == '\U{205f}' || c == '\U{3000}'
  }

  predicate Unspaced(s: string) {
    forall i :: 0 <= i < |s| ==> !Whitespace(s[i])
  }

  predicate OneLine(s: string) {
    forall i :: 0 <= i < |s| ==> s[i] != '\n'
  }

  predicate Token(s: string) {
    s != "" && Unspaced(s)
  }

  /** Neither end is whitespace, and there is something between them. */
  predicate Clean(s: string) {
    s != "" && !Whitespace(s[0]) && !Whitespace(s[|s| - 1])
  }

  function TrimStart(s: string): string {
    if s != "" && Whitespace(s[0]) then TrimStart(s[1..]) else s
  }

  function TrimEnd(s: string): string {
    if s != "" && Whitespace(s[|s| - 1]) then TrimEnd(s[..|s| - 1]) else s
  }

  function Trim(s: string): string {
    TrimEnd(TrimStart(s))
  }

  ghost predicate Blank(s: string) {
    forall i :: 0 <= i < |s| ==> Whitespace(s[i])
  }

  lemma {:induction false} TrimStartExact(s: string)
    ensures var n := |s| - |TrimStart(s)|;
      n >= 0 && Blank(s[..n]) && TrimStart(s) == s[n..] && (n < |s| ==> !Whitespace(s[n]))
  {
    if s != "" && Whitespace(s[0]) {
      TrimStartExact(s[1..]);
    }
  }

  lemma {:induction false} TrimEndExact(s: string)
    ensures var n := |TrimEnd(s)|;
      n <= |s| && Blank(s[n..]) && TrimEnd(s) == s[..n] && (n > 0 ==> !Whitespace(s[n - 1]))
  {
    if s != "" && Whitespace(s[|s| - 1]) {
      TrimEndExact(s[..|s| - 1]);
    }
  }

  /** Trimming removes what is blank at both ends and nothing else. */
  lemma TrimExact(s: string)
    ensures Trim(s) == "" || Clean(Trim(s))
    ensures exists n, m :: 0 <= n <= m <= |s| && Blank(s[..n]) && Blank(s[m..]) && Trim(s) == s[n..m]
  {
    TrimStartExact(s);
    var n := |s| - |TrimStart(s)|;
    TrimEndExact(s[n..]);
    var m := n + |Trim(s)|;
    assert s[m..] == s[n..][m - n..] && s[n..m] == s[n..][..m - n];
  }

  /** `strip_suffix(c).unwrap_or(s)` */
  function WithoutEnd(s: string, c: char): string {
    if s != "" && s[|s| - 1] == c then s[..|s| - 1] else s
  }

  /** Where the first character that is `c` stands, or the length. */
  function Find(s: string, c: char): (n: nat)
    ensures n <= |s| && (forall i :: 0 <= i < n ==> s[i] != c) && (n < |s| ==> s[n] == c)
  {
    if s == "" || s[0] == c then 0 else Find(s[1..], c) + 1
  }

  function FindWhitespace(s: string): (n: nat)
    ensures n <= |s| && Unspaced(s[..n]) && (n < |s| ==> Whitespace(s[n]))
  {
    if s == "" || Whitespace(s[0]) then 0
    else
      var n := FindWhitespace(s[1..]);
      assert s[..n + 1] == [s[0]] + s[1..][..n];
      n + 1
  }

  lemma FindExact(s: string, c: char, n: nat)
    requires n <= |s| && (forall i :: 0 <= i < n ==> s[i] != c) && (n < |s| ==> s[n] == c)
    ensures Find(s, c) == n
  {
  }

  lemma FindWhitespaceExact(s: string, n: nat)
    requires n <= |s| && Unspaced(s[..n]) && (n < |s| ==> Whitespace(s[n]))
    ensures FindWhitespace(s) == n
  {
    var m := FindWhitespace(s);
    assert forall i :: 0 <= i < n ==> s[..n][i] == s[i];
    assert forall i :: 0 <= i < m ==> s[..m][i] == s[i];
  }

  /** `split_once(c)` */
  function SplitOnce(s: string, c: char): Option<(string, string)> {
    var n := Find(s, c);
    if n == |s| then None else Some((s[..n], s[n + 1..]))
  }

  /** `split_once(char::is_whitespace)` */
  function SplitAtWhitespace(s: string): Option<(string, string)> {
    var n := FindWhitespace(s);
    if n == |s| then None else Some((s[..n], s[n + 1..]))
  }

  lemma SplitOnceExact(a: string, c: char, b: string)
    requires forall i :: 0 <= i < |a| ==> a[i] != c
    ensures SplitOnce(a + [c] + b, c) == Some((a, b))
  {
    var s := a + [c] + b;
    FindExact(s, c, |a|);
    assert s[..|a|] == a && s[|a| + 1..] == b;
  }

  lemma SplitAtWhitespaceExact(a: string, b: string)
    requires Unspaced(a)
    ensures SplitAtWhitespace(a + " " + b) == Some((a, b))
  {
    var s := a + " " + b;
    assert s[..|a|] == a;
    FindWhitespaceExact(s, |a|);
    assert s[|a| + 1..] == b;
  }

  /** `split_whitespace` */
  function SplitWhitespace(s: string): seq<string> {
    if s == "" then []
    else if Whitespace(s[0]) then SplitWhitespace(s[1..])
    else
      var n := FindWhitespace(s);
      [s[..n]] + SplitWhitespace(s[n..])
  }

  lemma SplitFirstToken(token: string, rest: string)
    requires Token(token)
    ensures SplitWhitespace(token + " " + rest) == [token] + SplitWhitespace(rest)
  {
    var s := token + " " + rest;
    assert s[..|token|] == token;
    FindWhitespaceExact(s, |token|);
    assert s[|token|..] == " " + rest;
    assert (" " + rest)[1..] == rest;
  }

  lemma SplitOneToken(token: string)
    requires Token(token)
    ensures SplitWhitespace(token) == [token]
  {
    assert token[..|token|] == token;
    FindWhitespaceExact(token, |token|);
  }

  /** Fields separated by single spaces. */
  function Join(fields: seq<string>): string
    requires fields != []
  {
    if |fields| == 1 then fields[0] else fields[0] + " " + Join(fields[1..])
  }

  lemma {:induction false} JoinSplits(fields: seq<string>)
    requires fields != [] && forall i :: 0 <= i < |fields| ==> Token(fields[i])
    ensures SplitWhitespace(Join(fields)) == fields
  {
    if |fields| == 1 {
      SplitOneToken(fields[0]);
    } else {
      JoinSplits(fields[1..]);
      SplitFirstToken(fields[0], Join(fields[1..]));
    }
  }

  lemma TrimClean(s: string)
    requires Clean(s)
    ensures Trim(s) == s && TrimEnd(s) == s
  {
  }

  /** `lines`: split at line feeds, each line without a final carriage return. */
  function Lines(s: string): seq<string> {
    if s == "" then []
    else
      var n := Find(s, '\n');
      if n == |s| then [s] else [WithoutEnd(s[..n], '\r')] + Lines(s[n + 1..])
  }

  lemma FirstLine(line: string, rest: string)
    requires OneLine(line) && (line == "" || line[|line| - 1] != '\r')
    ensures Lines(line + "\n" + rest) == [line] + Lines(rest)
  {
    var s := line + "\n" + rest;
    FindExact(s, '\n', |line|);
    assert s[..|line|] == line && s[|line| + 1..] == rest;
  }

  function Written(lines: seq<string>): string {
    if lines == [] then "" else lines[0] + "\n" + Written(lines[1..])
  }

  /** A line of the text may end with a carriage return, which is no part of it. */
  lemma ReturnDropped(line: string, rest: string)
    requires OneLine(line)
    ensures Lines(line + "\r" + "\n" + rest) == [line] + Lines(rest)
  {
    var s := line + "\r" + "\n" + rest;
    FindExact(s, '\n', |line| + 1);
    assert s[..|line| + 1] == line + "\r" && s[|line| + 2..] == rest;
  }

  lemma {:induction false} WrittenLines(lines: seq<string>)
    requires forall i :: 0 <= i < |lines| ==> OneLine(lines[i]) && (lines[i] == "" || lines[i][|lines[i]| - 1] != '\r')
    ensures Lines(Written(lines)) == lines
  {
    if lines != [] {
      WrittenLines(lines[1..]);
      FirstLine(lines[0], Written(lines[1..]));
    }
  }

  function UpperChar(c: char): char {
    if 'a' <= c <= 'z' then (c as int - 'a' as int + 'A' as int) as char else c
  }

  /** `to_ascii_uppercase` */
  function Upper(s: string): string {
    seq(|s|, i requires 0 <= i < |s| => UpperChar(s[i]))
  }

  lemma UpperFixed(s: string)
    requires forall i :: 0 <= i < |s| ==> !('a' <= s[i] <= 'z')
    ensures Upper(s) == s
  {
  }

  predicate NameStart(c: char) {
    c == '_' || 'a' <= c <= 'z' || 'A' <= c <= 'Z'
  }

  predicate NameChar(c: char) {
    NameStart(c) || '0' <= c <= '9'
  }

  /** `valid_environment_name`: a shell identifier. */
  predicate ValidName(name: string) {
    name != "" && NameStart(name[0]) && forall i :: 0 <= i < |name| ==> NameChar(name[i])
  }

  // ------------------------------------------------------------------
  // Decimal numbers
  // ------------------------------------------------------------------

  function Digit(d: nat): char
    requires d < 10
  {
    ('0' as int + d) as char
  }

  function Decimal(n: nat): string {
    if n < 10 then [Digit(n)] else Decimal(n / 10) + [Digit(n % 10)]
  }

  function DigitValue(c: char): nat {
    if '0' <= c <= '9' then c as nat - '0' as nat else 0
  }

  function Value(s: string): nat {
    if s == "" then 0 else Value(s[..|s| - 1]) * 10 + DigitValue(s[|s| - 1])
  }

  predicate AllDigits(s: string) {
    forall i :: 0 <= i < |s| ==> '0' <= s[i] <= '9'
  }

  lemma {:induction false} DecimalDigits(n: nat)
    ensures Decimal(n) != "" && AllDigits(Decimal(n)) && (n > 0 ==> Decimal(n)[0] != '0')
  {
    if n >= 10 {
      DecimalDigits(n / 10);
    }
  }

  lemma ValueSnoc(s: string, c: char)
    ensures Value(s + [c]) == Value(s) * 10 + DigitValue(c)
  {
    assert (s + [c])[..|s + [c]| - 1] == s;
  }

  lemma {:induction false} DecimalValue(n: nat)
    ensures Value(Decimal(n)) == n
  {
    if n < 10 {
      assert Decimal(n) == "" + [Digit(n)];
      ValueSnoc("", Digit(n));
    } else {
      DecimalValue(n / 10);
      ValueSnoc(Decimal(n / 10), Digit(n % 10));
    }
  }

  lemma {:induction false} LeadingZero(s: string)
    ensures Value("0" + s) == Value(s)
  {
    if s == "" {
      assert "0" + s == "" + ['0'];
      ValueSnoc("", '0');
    } else {
      var init, c := s[..|s| - 1], s[|s| - 1];
      LeadingZero(init);
      ValueSnoc("0" + init, c);
      assert "0" + s == ("0" + init) + [c];
    }
  }

  predicate Zeros(s: string) {
    forall i :: 0 <= i < |s| ==> s[i] == '0'
  }

  lemma DecimalSnoc(v: nat, c: char)
    requires '0' <= c <= '9'
    ensures v > 0 ==> Decimal(v * 10 + DigitValue(c)) == Decimal(v) + [c]
    ensures v == 0 ==> Decimal(v * 10 + DigitValue(c)) == [c]
  {
    var d := DigitValue(c);
    assert (v * 10 + d) / 10 == v && (v * 10 + d) % 10 == d;
  }

  /** Digits are the decimal of their value behind zeros. */
  lemma {:induction false} DigitsAreDecimal(s: string)
    requires s != "" && AllDigits(s)
    ensures var n := |s| - |Decimal(Value(s))|;
      n >= 0 && Zeros(s[..n]) && s[n..] == Decimal(Value(s))
  {
    hide Decimal, DigitValue, Value, Zeros, AllDigits;
    var init, last := s[..|s| - 1], s[|s| - 1];
    assert s == init + [last];
    ValueSnoc(init, last);
    LastDigit(s);
    DecimalSnoc(Value(init), last);
    if init == "" {
      NoValue();
      assert s[..0] == "";
    } else {
      DigitsAreDecimal(init);
      var n := |init| - |Decimal(Value(init))|;
      assert init == init[..n] + Decimal(Value(init));
      assert s[..n] == init[..n];
      if Value(init) == 0 {
        MoreZeros(init[..n]);
        assert s[..|s| - 1] == init;
      } else {
        assert s[n..] == Decimal(Value(init)) + [last];
      }
    }
  }

  lemma LastDigit(s: string)
    requires s != "" && AllDigits(s)
    ensures '0' <= s[|s| - 1] <= '9' && AllDigits(s[..|s| - 1])
  {
  }

  lemma NoValue()
    ensures Value("") == 0 && Zeros("")
  {
  }

  lemma MoreZeros(zeros: string)
    requires Zeros(zeros)
    ensures Zeros(zeros + "0") && Decimal(0) == "0"
  {
  }

  lemma {:induction false} ZerosValue(zeros: string, n: nat)
    requires Zeros(zeros)
    ensures Value(zeros + Decimal(n)) == n && AllDigits(zeros + Decimal(n)) && zeros + Decimal(n) != ""
  {
    DecimalDigits(n);
    if zeros == "" {
      DecimalValue(n);
      assert zeros + Decimal(n) == Decimal(n);
    } else {
      ZerosValue(zeros[1..], n);
      LeadingZero(zeros[1..] + Decimal(n));
      assert zeros + Decimal(n) == "0" + (zeros[1..] + Decimal(n));
    }
  }
}
