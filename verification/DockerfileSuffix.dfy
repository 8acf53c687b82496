/** What a Dockerfile means when text without whitespace is put behind it: only its last
    line can change, and there only a base image or a stage's name. */
module DockerfileSuffix {
  import opened Common
  import opened Text
  import opened Dockerfile

  /** Text of one piece that begins with NUL, which no Dockerfile keyword or name starts with. */
  predicate Suffix(p: string) {
    p != "" && p[0] == '\0' && Unspaced(p)
  }

  predicate HasNul(s: string) {
    '\0' in s
  }

  predicate Blank(s: string) {
    forall i :: 0 <= i < |s| ==> Whitespace(s[i])
  }

  // ------------------------------------------------------------------
  // Lines
  // ------------------------------------------------------------------

  lemma LinesAlone(line: string)
    requires OneLine(line)
    ensures Lines(line) == if line == "" then [] else [line]
  {
    FindExact(line, '\n', |line|);
  }

  lemma LinesFirst(line: string, rest: string)
    requires OneLine(line)
    ensures Lines(line + "\n" + rest) == [WithoutEnd(line, '\r')] + Lines(rest)
  {
    var s := line + "\n" + rest;
    FindExact(s, '\n', |line|);
    assert s[..|line|] == line && s[|line| + 1..] == rest;
  }

  /** The suffix lengthens the line the text ends in, or is a line of its own. */
  lemma {:induction false} LinesGlued(d: string, p: string) returns (before: seq<string>, last: string)
    requires Suffix(p)
    ensures Lines(d) == before + if last == "" then [] else [last]
    ensures Lines(d + p) == before + [last + p]
    decreases |d|
  {
    hide Lines;
    var n := Find(d, '\n');
    if n == |d| {
      before, last := [], d;
      assert OneLine(d + p);
      LinesAlone(d);
      LinesAlone(d + p);
    } else {
      var line, rest := d[..n], d[n + 1..];
      before, last := LinesGlued(rest, p);
      LinesFirst(line, rest);
      LinesFirst(line, rest + p);
      assert d == line + "\n" + rest && d + p == line + "\n" + (rest + p);
      before := [WithoutEnd(line, '\r')] + before;
    }
  }

  lemma {:induction false} TrimStartGlued(x: string, p: string)
    requires Suffix(p)
    ensures TrimStart(x + p) == TrimStart(x) + p
  {
    if x == "" {
      assert x + p == p;
    } else if Whitespace(x[0]) {
      assert (x + p)[1..] == x[1..] + p;
      TrimStartGlued(x[1..], p);
    }
  }

  lemma TrimEndGlued(x: string, p: string)
    requires Suffix(p)
    ensures TrimEnd(x + p) == x + p
  {
    assert (x + p)[|x + p| - 1] == p[|p| - 1];
  }

  lemma {:induction false} TrimEndCuts(x: string) returns (w: string)
    ensures x == TrimEnd(x) + w && Blank(w)
    ensures TrimEnd(x) == "" && x != "" ==> Whitespace(x[0])
  {
    if x != "" && Whitespace(x[|x| - 1]) {
      var init := x[..|x| - 1];
      w := TrimEndCuts(init);
      w := w + [x[|x| - 1]];
    } else {
      w := "";
    }
  }

  lemma {:induction false} TrimStartClean(x: string)
    ensures TrimStart(x) != "" ==> !Whitespace(TrimStart(x)[0])
  {
    if x != "" && Whitespace(x[0]) {
      TrimStartClean(x[1..]);
    }
  }

  /** Trimming keeps the blanks that now lie before the suffix. */
  lemma TrimGlued(x: string, p: string) returns (w: string)
    requires Suffix(p)
    ensures Trim(x + p) == Trim(x) + w + p && Blank(w)
    ensures Trim(x) == "" ==> w == ""
  {
    TrimStartGlued(x, p);
    TrimEndGlued(TrimStart(x), p);
    w := TrimEndCuts(TrimStart(x));
    TrimStartClean(x);
  }

  // ------------------------------------------------------------------
  // Logical lines
  // ------------------------------------------------------------------

  /** The line with some blanks and the suffix behind it. */
  ghost predicate Grows(line: string, longer: string, p: string) {
    line != "" && exists w :: Blank(w) && longer == line + w + p
  }

  /** How logical lines change: not at all, in the last one, or by one that does not parse. */
  ghost predicate LinesGrow(lines: seq<string>, more: seq<string>, p: string) {
    || lines == more
    || (lines != [] && |more| == |lines| && more[..|lines| - 1] == lines[..|lines| - 1]
        && Grows(lines[|lines| - 1], more[|lines| - 1], p))
    || (|more| == |lines| + 1 && more[..|lines|] == lines && ParseLine(more[|lines|]).Err?)
  }

  lemma UnspacedFails(line: string)
    requires Unspaced(line)
    ensures ParseLine(line).Err?
  {
    FindWhitespaceExact(line, |line|);
  }

  lemma BackslashFails(w: string, p: string)
    requires Suffix(p) && Blank(w)
    ensures ParseLine("\\" + w + p).Err?
  {
    var line := "\\" + w + p;
    if w == "" {
      UnspacedFails(line);
    } else {
      assert Whitespace(line[1]) && line[..1] == "\\";
      FindWhitespaceExact(line, 1);
      assert Upper("\\") == "\\";
      UnknownKeyword("\\", line[2..], line);
    }
  }

  lemma UnknownKeyword(word: string, arguments: string, line: string)
    requires SplitAtWhitespace(line) == Some((word, arguments)) && |Upper(word)| == 1
    ensures ParseLine(line).Err?
  {
    hide Trim, SplitWhitespace, ParseFrom, ParseCopy, ParseEnv, ParseArg, ValidWorkdir;
  }

  lemma {:induction false} TrimStartSkips(w: string, x: string)
    requires Blank(w)
    ensures TrimStart(w + x) == TrimStart(x)
  {
    if w == "" {
      assert w + x == x;
    } else {
      assert (w + x)[1..] == w[1..] + x;
      TrimStartSkips(w[1..], x);
    }
  }

  lemma {:induction false} TrimEndSkips(x: string, w: string)
    requires Blank(w)
    ensures TrimEnd(x + w) == TrimEnd(x)
  {
    if w == "" {
      assert x + w == x;
    } else {
      assert (x + w)[..|x + w| - 1] == x + w[..|w| - 1];
      TrimEndSkips(x, w[..|w| - 1]);
    }
  }

  lemma {:induction false} TrimmedAwayIsBlank(x: string)
    requires TrimStart(x) == ""
    ensures Blank(x)
  {
    if x != "" {
      TrimmedAwayIsBlank(x[1..]);
    }
  }

  lemma TrimEmptyIsBlank(x: string)
    requires Trim(x) == ""
    ensures Blank(x)
  {
    TrimStartClean(x);
    var w := TrimEndCuts(TrimStart(x));
    TrimmedAwayIsBlank(x);
  }

  /** A continued line that adds nothing is a backslash between blanks. */
  lemma LoneBackslash(x: string)
    requires Continues(x) && Fragment(x) == ""
    ensures Trim(x) == "\\"
  {
    hide Trim, Blank;
    var ended := TrimEnd(x);
    var init := ended[..|ended| - 1];
    TrimEmptyIsBlank(init);
    var w := TrimEndCuts(x);
    assert x == init + ("\\" + w);
    BackslashTrims(init, w);
  }

  lemma BackslashTrims(before: string, after: string)
    requires Blank(before) && Blank(after)
    ensures Trim(before + ("\\" + after)) == "\\"
  {
    TrimStartSkips(before, "\\" + after);
    TrimEndSkips("\\", after);
  }

  /** What one last physical line makes of the line read so far. */
  function OneRead(x: string, current: string): Result<seq<string>, ImageError> {
    if Skipped(current, x) then Ok([])
    else
      var next := Glue(current, Fragment(x));
      if next == "" then Ok([]) else if Continues(x) then Err(Unsupported(next)) else Ok([next])
  }

  lemma LastLineRead(x: string, current: string)
    ensures LogicalFrom([x], current) == OneRead(x, current)
  {
    hide Skipped, Fragment, Continues;
    var next := Glue(current, Fragment(x));
    assert [x][1..] == [] && [next] + [] == [next];
    SkippedAtStart(current, x);
    NothingRead(current);
    NothingRead(next);
    NothingRead("");
  }

  lemma SkippedAtStart(current: string, x: string)
    ensures Skipped(current, x) ==> current == ""
  {
  }

  /** The lengthened last line is a comment still, or continued into nothing, or read with
      the suffix at its end. */
  lemma LongerRead(x: string, p: string, current: string) returns (w: string)
    requires Suffix(p)
    ensures Blank(w) && (Trim(x) == "" ==> w == "")
    ensures var comment := current == "" && Trim(x) != "" && Trim(x)[0] == '#';
      OneRead(x + p, current).Ok? ==>
        OneRead(x + p, current) == if comment then Ok([]) else Ok([Glue(current, Trim(x) + w + p)])
  {
    hide Trim, Whitespace, Blank;
    var y := x + p;
    w := TrimGlued(x, p);
    TrimEndGlued(x, p);
    if Continues(y) {
      var q := p[..|p| - 1];
      assert p[|p| - 1] == y[|y| - 1] == '\\';
      assert Suffix(q) && y[..|y| - 1] == x + q;
      var v := TrimGlued(x, q);
    }
  }

  /** The last physical line, skipped or read. */
  lemma LastLineGrows(current: string, x: string, p: string)
    requires Suffix(p)
    requires LogicalFrom(if x == "" then [] else [x], current).Ok? && LogicalFrom([x + p], current).Ok?
    ensures LinesGrow(LogicalFrom(if x == "" then [] else [x], current).value,
                      LogicalFrom([x + p], current).value, p)
  {
    hide Trim, Blank, ParseLine, Suffix, LogicalFrom;
    LastLineRead(x + p, current);
    var w := LongerRead(x, p, current);
    SuffixUnspaced(p);
    UnspacedFails(p);
    if x == "" {
      NothingRead(current);
      assert Trim("") == "" by {
        TrimNothing();
      }
      assert "" + "" + p == p;
    } else {
      LastLineRead(x, current);
      if Skipped(current, x) {
        assert Trim(x) == "" ==> Trim(x) + w + p == p;
      } else if Continues(x) {
        LoneBackslash(x);
        BackslashFails(w, p);
      } else {
        GlueGrows(current, Trim(x), w, p);
      }
    }
  }

  lemma SuffixUnspaced(p: string)
    requires Suffix(p)
    ensures Unspaced(p)
  {
  }

  lemma TrimNothing()
    ensures Trim("") == ""
  {
  }

  lemma NothingRead(current: string)
    ensures LogicalFrom([], current) == if current == "" then Ok([]) else Err(Unsupported(current))
  {
  }

  lemma GlueGrows(current: string, line: string, w: string, p: string)
    requires Blank(w) && Glue(current, line) != ""
    ensures Grows(Glue(current, line), Glue(current, line + w + p), p)
  {
    hide Blank;
    assert Glue(current, line + w + p) == Glue(current, line) + w + p;
  }

  lemma LinesGrowBehind(line: string, lines: seq<string>, more: seq<string>, p: string)
    requires LinesGrow(lines, more, p)
    ensures LinesGrow(Prepended(line, Ok(lines)).value, Prepended(line, Ok(more)).value, p)
  {
    hide Grows, ParseLine;
    if line != "" {
      var l, m := [line] + lines, [line] + more;
      if lines != [] {
        assert l[|l| - 1] == lines[|lines| - 1] && l[..|l| - 1] == [line] + lines[..|lines| - 1];
        assert m[..|l| - 1] == [line] + more[..|lines| - 1];
      }
      if |more| == |lines| + 1 {
        assert m[..|l|] == [line] + more[..|lines|] && m[|l|] == more[|lines|];
      }
    }
  }

  lemma {:induction false} LogicalGrows(before: seq<string>, current: string, x: string, p: string)
    requires Suffix(p)
    requires var raw := before + if x == "" then [] else [x];
      LogicalFrom(raw, current).Ok? && LogicalFrom(before + [x + p], current).Ok?
    ensures LinesGrow(LogicalFrom(before + if x == "" then [] else [x], current).value,
                      LogicalFrom(before + [x + p], current).value, p)
    decreases |before|
  {
    hide Skipped, Continues, Fragment, Suffix, LinesGrow;
    var raw, longer := before + (if x == "" then [] else [x]), before + [x + p];
    if before == [] {
      assert raw == (if x == "" then [] else [x]) && longer == [x + p];
      LastLineGrows(current, x, p);
    } else {
      var line, rest := before[0], before[1..];
      assert raw[0] == line && raw[1..] == rest + if x == "" then [] else [x];
      assert longer[0] == line && longer[1..] == rest + [x + p];
      if Skipped(current, line) {
        LogicalGrows(rest, current, x, p);
      } else if Continues(line) {
        LogicalGrows(rest, Glue(current, Fragment(line)), x, p);
      } else {
        LogicalGrows(rest, "", x, p);
        LinesGrowBehind(Glue(current, Fragment(line)), LogicalFrom(raw[1..], "").value,
                        LogicalFrom(longer[1..], "").value, p);
      }
    }
  }

  // ------------------------------------------------------------------
  // Instructions
  // ------------------------------------------------------------------

  function FromOf(i: Instruction): Option<string> {
    if i.CopyFiles? then i.copy.from else None
  }

  /** The same name, or one that now holds a NUL. */
  predicate SameOrNul(a: Option<string>, b: Option<string>) {
    a == b || (a.Some? && b.Some? && HasNul(b.value))
  }

  predicate SameParsed(a: Parsed, b: Parsed) {
    match (a, b)
    case (Opens(base, name), Opens(longer, longerName)) =>
      (base == longer || HasNul(longer)) && SameOrNul(name, longerName)
    case (Step(i), Step(j)) => FromOf(i) == FromOf(j)
    case _ => false
  }

  /** Fields with the suffix: a field of its own, or the end of the last one. */
  predicate FieldsGrow(fields: seq<string>, more: seq<string>, p: string) {
    || more == fields + [p]
    || (fields != [] && more == fields[|fields| - 1 := fields[|fields| - 1] + p])
  }

  lemma TokenAlone(token: string, rest: string)
    requires Token(token) && (rest == "" || Whitespace(rest[0]))
    ensures SplitWhitespace(token + rest) == [token] + SplitWhitespace(rest)
  {
    var s := token + rest;
    assert s[..|token|] == token;
    FindWhitespaceExact(s, |token|);
    assert s[|token|..] == rest;
  }

  lemma {:induction false} FieldsGlued(arguments: string, p: string)
    requires Suffix(p)
    ensures FieldsGrow(SplitWhitespace(arguments), SplitWhitespace(arguments + p), p)
    decreases |arguments|
  {
    if arguments == "" {
      assert arguments + p == p && p + "" == p;
      TokenAlone(p, "");
    } else if Whitespace(arguments[0]) {
      assert (arguments + p)[1..] == arguments[1..] + p;
      FieldsGlued(arguments[1..], p);
    } else {
      var n := FindWhitespace(arguments);
      var token, rest := arguments[..n], arguments[n..];
      assert arguments == token + rest && token[0] == arguments[0];
      TokenAlone(token, rest);
      if rest == "" {
        assert arguments + p == (token + p) + "";
        TokenAlone(token + p, "");
        assert SplitWhitespace(arguments) == [token] && [token][0 := token + p] == [token + p];
      } else {
        assert arguments + p == token + (rest + p);
        TokenAlone(token, rest + p);
        FieldsGlued(rest, p);
        FieldsBehind(token, SplitWhitespace(rest), SplitWhitespace(rest + p), p);
      }
    }
  }

  lemma FieldsBehind(token: string, fields: seq<string>, more: seq<string>, p: string)
    requires FieldsGrow(fields, more, p)
    ensures FieldsGrow([token] + fields, [token] + more, p)
  {
    if more == fields + [p] {
      assert [token] + more == [token] + fields + [p];
    } else {
      var all := [token] + fields;
      assert all[|all| - 1] == fields[|fields| - 1];
      assert [token] + more == all[|all| - 1 := all[|all| - 1] + p];
    }
  }

  lemma FromGrows(fields: seq<string>, more: seq<string>, p: string)
    requires Suffix(p) && FieldsGrow(fields, more, p) && ParseFrom(fields).Ok? && ParseFrom(more).Ok?
    ensures SameParsed(ParseFrom(fields).value, ParseFrom(more).value)
  {
    assert HasNul(p);
    forall s: string
      ensures HasNul(s + p)
    {
      assert (s + p)[|s|] == '\0';
    }
  }

  lemma CopyGrows(fields: seq<string>, more: seq<string>, p: string, line: string, longer: string)
    requires FieldsGrow(fields, more, p) && ParseCopy(fields, line).Ok? && ParseCopy(more, longer).Ok?
    ensures SameParsed(ParseCopy(fields, line).value, ParseCopy(more, longer).value)
  {
    assert |fields| >= 2 && more[0] == fields[0];
  }

  /** Blanks between the fields and the suffix change nothing. */
  lemma ArgumentsGrow(arguments: string, w: string, p: string)
    requires Suffix(p) && Blank(w)
    ensures FieldsGrow(SplitWhitespace(arguments), SplitWhitespace(arguments + w + p), p)
  {
    FieldsGlued(arguments + w, p);
    BlanksSplit(arguments, w);
  }

  lemma {:induction false} BlanksSplit(arguments: string, w: string)
    requires Blank(w)
    ensures SplitWhitespace(arguments + w) == SplitWhitespace(arguments)
    decreases |arguments|, |w|
  {
    if arguments == "" {
      assert arguments + w == w;
      if w != "" {
        BlanksSplit("", w[1..]);
        assert "" + w[1..] == w[1..];
      }
    } else if Whitespace(arguments[0]) {
      assert (arguments + w)[1..] == arguments[1..] + w;
      BlanksSplit(arguments[1..], w);
    } else {
      var n := FindWhitespace(arguments);
      var token, rest := arguments[..n], arguments[n..];
      assert arguments == token + rest && token[0] == arguments[0] && arguments + w == token + (rest + w);
      TokenAlone(token, rest);
      TokenAlone(token, rest + w);
      BlanksSplit(rest, w);
    }
  }

  /** What kind of line a keyword makes. */
  lemma KeywordKind(line: string)
    requires ParseLine(line).Ok?
    ensures SplitAtWhitespace(line).Some?
    ensures var (word, arguments) := SplitAtWhitespace(line).value;
      var parsed := ParseLine(line).value;
      if Upper(word) == "FROM" then ParseLine(line) == ParseFrom(SplitWhitespace(arguments))
      else if Upper(word) == "COPY" then ParseLine(line) == ParseCopy(SplitWhitespace(arguments), line)
      else parsed.Step? && FromOf(parsed.instruction) == None
  {
    hide Trim, SplitWhitespace, ParseFrom, ParseCopy, ValidWorkdir, SplitOnce, Upper, SplitAtWhitespace, ValidName;
  }

  lemma SplitKept(line: string, w: string, p: string)
    requires SplitAtWhitespace(line).Some?
    ensures var (word, arguments) := SplitAtWhitespace(line).value;
      SplitAtWhitespace(line + w + p) == Some((word, arguments + w + p))
  {
    var n := FindWhitespace(line);
    var longer := line + w + p;
    assert longer[..n] == line[..n] && longer[n] == line[n];
    FindWhitespaceExact(longer, n);
    assert longer[n + 1..] == line[n + 1..] + w + p;
  }

  /** A line that parses with the suffix parses to the same, but for a name that gains a NUL. */
  lemma LineGrows(line: string, longer: string, p: string)
    requires Suffix(p) && Grows(line, longer, p) && ParseLine(line).Ok? && ParseLine(longer).Ok?
    ensures SameParsed(ParseLine(line).value, ParseLine(longer).value)
  {
    hide ParseLine, ParseFrom, ParseCopy, SplitWhitespace, SplitAtWhitespace, Upper, FieldsGrow, Suffix, Blank;
    KeywordKind(line);
    KeywordKind(longer);
    var w :| Blank(w) && longer == line + w + p;
    var (word, arguments) := SplitAtWhitespace(line).value;
    SplitKept(line, w, p);
    ArgumentsGrow(arguments, w, p);
    if Upper(word) == "FROM" {
      FromGrows(SplitWhitespace(arguments), SplitWhitespace(arguments + w + p), p);
    } else if Upper(word) == "COPY" {
      CopyGrows(SplitWhitespace(arguments), SplitWhitespace(arguments + w + p), p, line, longer);
    }
  }

  // ------------------------------------------------------------------
  // Recipes
  // ------------------------------------------------------------------

  predicate SameStage(s: Stage, t: Stage) {
    && (s.baseImage == t.baseImage || HasNul(t.baseImage)) && SameOrNul(s.name, t.name)
    && |s.instructions| == |t.instructions|
    && forall k :: 0 <= k < |s.instructions| ==> FromOf(s.instructions[k]) == FromOf(t.instructions[k])
  }

  predicate SameRecipe(a: Recipe, b: Recipe) {
    |a| == |b| && forall i :: 0 <= i < |a| ==> SameStage(a[i], b[i])
  }

  lemma SameItself(a: Recipe)
    ensures SameRecipe(a, a)
  {
  }

  lemma SameExtended(stages: Recipe, a: Parsed, b: Parsed, line: string, longer: string)
    requires SameParsed(a, b) && Extended(stages, a, line).Ok? && Extended(stages, b, longer).Ok?
    ensures SameRecipe(Extended(stages, a, line).value, Extended(stages, b, longer).value)
  {
  }

  lemma ParseOne(lines: seq<string>, stages: Recipe)
    requires |lines| == 1
    ensures var parsed := ParseLine(lines[0]);
      if parsed.Ok? then ParseLines(lines, stages) == Extended(stages, parsed.value, lines[0])
      else ParseLines(lines, stages).Err?
  {
    hide ParseLine;
    assert lines[1..] == [];
    assert forall r: Recipe :: ParseLines([], r) == Ok(r);
  }

  lemma {:induction false} ParseLinesGrow(lines: seq<string>, more: seq<string>, stages: Recipe, p: string)
    requires Suffix(p) && LinesGrow(lines, more, p)
    requires ParseLines(lines, stages).Ok? && ParseLines(more, stages).Ok?
    ensures SameRecipe(ParseLines(lines, stages).value, ParseLines(more, stages).value)
    decreases |lines|
  {
    hide ParseLine, Extended, Suffix, Grows, SameRecipe;
    if |more| == 1 {
      ParseOne(more, stages);
    }
    if lines == more {
      SameItself(ParseLines(lines, stages).value);
    } else if |lines| == 1 && |more| == 1 {
      ParseOne(lines, stages);
      LineGrows(lines[0], more[0], p);
      SameExtended(stages, ParseLine(lines[0]).value, ParseLine(more[0]).value, lines[0], more[0]);
    } else if lines != [] {
      LinesGrowAfter(lines, more, p);
      ParseLinesGrow(lines[1..], more[1..], Extended(stages, ParseLine(lines[0]).value, lines[0]).value, p);
    }
  }

  lemma LinesGrowAfter(lines: seq<string>, more: seq<string>, p: string)
    requires lines != [] && lines != more && |more| > 1 && LinesGrow(lines, more, p)
    ensures more[0] == lines[0] && LinesGrow(lines[1..], more[1..], p)
  {
    hide Grows, ParseLine;
    var l, m := lines[1..], more[1..];
    if |more| == |lines| {
      assert lines[0] == lines[..|lines| - 1][0] && more[0] == more[..|lines| - 1][0];
      assert l[|l| - 1] == lines[|lines| - 1] && m[|l| - 1] == more[|lines| - 1];
      assert l[..|l| - 1] == lines[..|lines| - 1][1..] && m[..|l| - 1] == more[..|lines| - 1][1..];
    } else {
      assert more[0] == more[..|lines|][0] && m[..|l|] == more[..|lines|][1..] && m[|l|] == more[|lines|];
    }
  }

  /** Main result: if a Dockerfile parses with and without the suffix, the recipes have the
      same stages with the same COPY references; a base or a name that differs has a NUL. */
  lemma ParsingGrows(dockerfile: string, p: string)
    requires Suffix(p) && Parsing(dockerfile).Ok? && Parsing(dockerfile + p).Ok?
    ensures SameRecipe(Parsing(dockerfile).value, Parsing(dockerfile + p).value)
  {
    hide Lines, LogicalFrom, ParseLines, Suffix, LinesGrow, SameRecipe;
    var before, last := LinesGlued(dockerfile, p);
    LogicalGrows(before, "", last, p);
    ParseLinesGrow(LogicalFrom(Lines(dockerfile), "").value, LogicalFrom(Lines(dockerfile + p), "").value, [], p);
  }
}
