/** Recognising a verifier's pinned setup and rewriting its script to skip it. Offsets
    count the characters of the decoded script. */
module VerifierScript {
  import opened Common
  import opened Text

  const MARKER := "# Check if we're in a valid working directory"
  const ACTIVATION := "source /root/.local/bin/env"
  const CANONICAL := [
    "apt-get update",
    "apt-get install -y curl",
    "curl -LsSf https://astral.sh/uv/0.9.5/install.sh | sh",
    "source $HOME/.local/bin/env"
  ]

  // ------------------------------------------------------------------
  // Commands
  // ------------------------------------------------------------------

  predicate IsCommand(trimmed: string) {
    trimmed != "" && trimmed[0] != '#'
  }

  function CommandOf(line: string): seq<string> {
    if IsCommand(Trim(line)) then [Trim(line)] else []
  }

  function CommandsIn(lines: seq<string>): seq<string> {
    if lines == [] then [] else CommandOf(lines[0]) + CommandsIn(lines[1..])
  }

  /** The lines of a script that are neither blank nor comments. */
  function Commands(script: string): seq<string> {
    CommandsIn(Lines(script))
  }

  lemma {:induction false} TrimStartShorter(s: string)
    requires s != "" && Whitespace(s[|s| - 1])
    ensures TrimEnd(TrimStart(s)) == TrimEnd(TrimStart(s[..|s| - 1]))
  {
    var init := s[..|s| - 1];
    if Whitespace(s[0]) {
      if |s| > 1 {
        TrimStartShorter(s[1..]);
        assert s[1..][..|s| - 2] == init[1..];
      }
    } else {
      assert init[0] == s[0];
    }
  }

  lemma CommandIgnoresReturn(line: string)
    ensures CommandOf(WithoutEnd(line, '\r')) == CommandOf(line)
  {
    if line != "" && line[|line| - 1] == '\r' {
      TrimStartShorter(line);
    }
  }

  lemma OneLineCommands(line: string)
    requires OneLine(line)
    ensures Commands(line) == CommandOf(line)
  {
    hide Trim;
    FindExact(line, '\n', |line|);
    if line == "" {
      assert Trim("") == "" by {
        TrimNothing();
      }
    } else {
      assert Lines(line) == [line];
      assert CommandsIn([line]) == CommandOf(line) + CommandsIn([]);
    }
  }

  lemma TrimNothing()
    ensures Trim("") == ""
  {
  }

  lemma FirstLineCommands(line: string, rest: string)
    requires OneLine(line)
    ensures Commands(line + "\n" + rest) == CommandOf(line) + Commands(rest)
  {
    hide CommandOf;
    var s := line + "\n" + rest;
    FindExact(s, '\n', |line|);
    assert s[..|line|] == line && s[|line| + 1..] == rest;
    CommandIgnoresReturn(line);
    var first := WithoutEnd(line, '\r');
    assert Lines(s) == [first] + Lines(rest);
    assert ([first] + Lines(rest))[1..] == Lines(rest);
  }

  /** Commands are split where lines are. */
  lemma {:induction false} CommandsSplit(a: string, b: string)
    ensures Commands(a + "\n" + b) == Commands(a) + Commands(b)
    decreases |a|
  {
    hide Commands, CommandOf;
    var n := Find(a, '\n');
    var line := a[..n];
    if n == |a| {
      assert line == a;
      FirstLineCommands(a, b);
      OneLineCommands(a);
    } else {
      var rest := a[n + 1..];
      assert a == line + "\n" + rest;
      assert a + "\n" + b == line + "\n" + (rest + "\n" + b);
      FirstLineCommands(line, rest + "\n" + b);
      FirstLineCommands(line, rest);
      CommandsSplit(rest, b);
    }
  }

  // ------------------------------------------------------------------
  // Recognition
  // ------------------------------------------------------------------

  /** `find` of a text: where it first occurs. */
  function FindText(s: string, text: string): (r: Option<nat>)
    ensures r.Some? ==> r.value + |text| <= |s| && s[r.value..r.value + |text|] == text
  {
    if text <= s then Some(0)
    else if s == "" then None
    else
      match FindText(s[1..], text)
      case None => None
      case Some(n) => Some(n + 1)
  }

  datatype Setup = Setup(start: nat, end: nat, skip: bool)

  /** Some two commands in a row are the last two canonical ones. */
  predicate HasBootstrap(commands: seq<string>) {
    exists i :: 0 <= i < |commands| - 1 && commands[i] == CANONICAL[2] && commands[i + 1] == CANONICAL[3]
  }

  /** Just past the shebang line, or the beginning. */
  function CacheableStart(script: string): nat {
    if "#!" <= script && Find(script[2..], '\n') < |script| - 2 then Find(script[2..], '\n') + 3 else 0
  }

  /** `recognized_verifier_setup`; `script` is None when its bytes are not UTF-8. */
  function Recognized(script: Option<string>): Option<Setup> {
    if script.None? then None
    else
      match FindText(script.value, MARKER)
      case None => None
      case Some(marker) =>
        var commands := Commands(script.value[..marker]);
        if !HasBootstrap(commands) then None
        else Some(Setup(CacheableStart(script.value), marker, commands == CANONICAL))
  }

  function Cached(script: string, setup: Setup): string
    requires setup.start <= setup.end <= |script|
  {
    script[..setup.start] + ("\n" + ACTIVATION + "\n") + script[setup.end..]
  }

  /** `cached_verifier_script` */
  method CachedVerifierScript(script: string, setup: Setup) returns (cached: string)
    requires setup.start <= setup.end <= |script|
    ensures cached == Cached(script, setup)
  {
    cached := script[..setup.start];
    cached := cached + ("\n" + ACTIVATION + "\n");
    cached := cached + script[setup.end..];
  }

  lemma {:induction false} TrimEndKeepsStart(s: string)
    requires s != "" && !Whitespace(s[0])
    ensures TrimEnd(s) != "" && TrimEnd(s)[0] == s[0]
  {
    if Whitespace(s[|s| - 1]) {
      TrimEndKeepsStart(s[..|s| - 1]);
    }
  }

  lemma CommentHasNoCommand(line: string)
    requires line != "" && line[0] == '#'
    ensures CommandOf(line) == []
  {
    TrimEndKeepsStart(line);
  }

  /** The shebang line is a comment and ends before the marker. */
  lemma ShebangBeforeMarker(script: string, marker: nat)
    requires marker <= |script| && Commands(script[..marker]) != []
    ensures CacheableStart(script) <= marker
    ensures Commands(script[..CacheableStart(script)]) == []
    ensures CacheableStart(script) <= marker ==>
      Commands(script[CacheableStart(script)..marker]) == Commands(script[..marker])
  {
    hide Commands, CommandOf;
    var start, setup := CacheableStart(script), script[..marker];
    if start == 0 {
      EmptyScript();
    } else {
      var line := script[..start - 1];
      assert OneLine(line) by {
        assert forall i :: 2 <= i < start - 1 ==> script[i] == script[2..][i - 2];
        assert script[0] == '#' && script[1] == '!';
      }
      assert script[start - 1] == script[2..][start - 3] == '\n';
      CommentHasNoCommand(line);
      if marker < start {
        if marker > 0 {
          assert forall i :: 0 <= i < marker ==> setup[i] == line[i];
          assert setup[0] == '#';
          CommentHasNoCommand(setup);
          OneLineCommands(setup);
        } else {
          EmptyScript();
        }
        assert false;
      }
      assert setup == line + "\n" + script[start..marker];
      FirstLineCommands(line, script[start..marker]);
      assert script[..start] == line + "\n" + "";
      FirstLineCommands(line, "");
      EmptyScript();
    }
  }

  lemma EmptyScript()
    ensures Commands("") == []
  {
  }

  /** A recognised setup is a range of the script, from past the shebang line to the
      marker, that holds the pinned bootstrap; it can be skipped only when its
      commands are exactly the four canonical ones. */
  lemma SetupRange(script: string)
    requires Recognized(Some(script)).Some?
    ensures var setup := Recognized(Some(script)).value;
      && 0 <= setup.start <= setup.end <= |script| && MARKER <= script[setup.end..]
      && Commands(script[..setup.start]) == []
      && HasBootstrap(Commands(script[setup.start..setup.end]))
      && (setup.skip <==> Commands(script[setup.start..setup.end]) == CANONICAL)
  {
    hide Commands, CacheableStart, HasBootstrap;
    var marker := FindText(script, MARKER).value;
    var commands := Commands(script[..marker]);
    assert commands != [] by {
      BootstrapIsSomething(commands);
    }
    ShebangBeforeMarker(script, marker);
    assert script[marker..][..|MARKER|] == MARKER;
  }

  lemma {:induction false} FindsFirst(s: string, text: string, n: nat)
    requires text != ""
    ensures FindText(s, text) == Some(n) <==>
      n <= |s| && text <= s[n..] && forall j :: 0 <= j < n ==> !(text <= s[j..])
  {
    assert s[0..] == s;
    if !(text <= s) && s != "" {
      if n > 0 {
        FindsFirst(s[1..], text, n - 1);
        assert n <= |s| ==> s[n..] == s[1..][n - 1..];
        assert forall j :: 1 <= j <= |s| ==> s[j..] == s[1..][j - 1..];
        assert forall j :: 1 <= j < n && n <= |s| ==> (text <= s[j..] <==> text <= s[1..][j - 1..]);
        assert forall j :: 0 <= j < n - 1 && n <= |s| ==> s[1..][j..] == s[j + 1..];
      }
    }
  }

  /** Right behind the line feed that ends the shebang line, or at the beginning. */
  ghost predicate AfterShebang(script: string, start: nat) {
    if "#!" <= script && '\n' in script
    then 0 < start <= |script| && script[start - 1] == '\n' && forall i :: 0 <= i < start - 1 ==> script[i] != '\n'
    else start == 0
  }

  lemma StartIsAfterShebang(script: string)
    ensures AfterShebang(script, CacheableStart(script))
  {
    if "#!" <= script {
      var rest := script[2..];
      var n := Find(rest, '\n');
      assert script[0] == '#' && script[1] == '!' && forall i :: 2 <= i < |script| ==> script[i] == rest[i - 2];
      assert n < |rest| ==> script[n + 2] == '\n';
    }
  }

  /** What recognition is for, without how it searches. */
  ghost predicate Recognizes(script: string, setup: Setup) {
    && setup.end <= |script| && MARKER <= script[setup.end..]
    && (forall j :: 0 <= j < setup.end ==> !(MARKER <= script[j..]))
    && AfterShebang(script, setup.start)
    && var commands := Commands(script[..setup.end]);
       && (exists i :: 0 <= i < |commands| - 1
             && commands[i] == "curl -LsSf https://astral.sh/uv/0.9.5/install.sh | sh"
             && commands[i + 1] == "source $HOME/.local/bin/env")
       && (setup.skip <==> commands == ["apt-get update", "apt-get install -y curl",
                                        "curl -LsSf https://astral.sh/uv/0.9.5/install.sh | sh",
                                        "source $HOME/.local/bin/env"])
  }

  lemma OnlyStart(script: string, a: nat, b: nat)
    requires AfterShebang(script, a) && AfterShebang(script, b)
    ensures a == b
  {
  }

  /** Main result: a setup is recognised exactly when it runs to the first marker, holds the
      pinned bootstrap, starts past the shebang line and is skipped for the canonical four. */
  lemma RecognizedExactly(script: string, setup: Setup)
    ensures Recognized(Some(script)) == Some(setup) <==> Recognizes(script, setup)
  {
    hide Commands, CacheableStart, AfterShebang;
    FindsFirst(script, MARKER, setup.end);
    StartIsAfterShebang(script);
    if AfterShebang(script, setup.start) {
      OnlyStart(script, setup.start, CacheableStart(script));
    }
  }

  lemma BootstrapIsSomething(commands: seq<string>)
    requires HasBootstrap(commands)
    ensures commands != []
  {
  }

  // ------------------------------------------------------------------
  // What the rewritten script means
  // ------------------------------------------------------------------

  /** Any interpreter that goes line by line and for which blanks and comments do nothing. */
  function Interpreted<S>(step: (S, string) -> S, s: S, commands: seq<string>): S {
    if commands == [] then s else Interpreted(step, step(s, commands[0]), commands[1..])
  }

  lemma {:induction false} InterpretedAppend<S(!new)>(step: (S, string) -> S, s: S, a: seq<string>, b: seq<string>)
    ensures Interpreted(step, s, a + b) == Interpreted(step, Interpreted(step, s, a), b)
  {
    if a == [] {
      assert a + b == b;
    } else {
      assert (a + b)[1..] == a[1..] + b;
      InterpretedAppend(step, step(s, a[0]), a[1..], b);
    }
  }

  lemma ActivationCommand()
    ensures OneLine(ACTIVATION) && CommandOf(ACTIVATION) == [ACTIVATION]
  {
    TrimClean(ACTIVATION);
  }

  lemma CachedCommands(script: string, setup: Setup)
    requires setup.start <= setup.end <= |script| && Commands(script[..setup.start]) == []
    ensures Commands(Cached(script, setup)) == [ACTIVATION] + Commands(script[setup.end..])
  {
    hide Commands, CommandOf;
    var head, tail := script[..setup.start], script[setup.end..];
    var activation := ACTIVATION;
    ActivationCommand();
    assert Cached(script, setup) == head + "\n" + (activation + "\n" + tail);
    CommandsSplit(head, activation + "\n" + tail);
    FirstLineCommands(activation, tail);
  }

  function LineStart(s: string): (n: nat)
    ensures n <= |s| && (forall i :: n <= i < |s| ==> s[i] != '\n') && (n > 0 ==> s[n - 1] == '\n')
  {
    if s == "" || s[|s| - 1] == '\n' then |s| else LineStart(s[..|s| - 1])
  }

  /** The unfinished line at the end of a text. */
  function LastLine(s: string): string {
    s[LineStart(s)..]
  }

  lemma LastLineIsOne(s: string)
    ensures OneLine(LastLine(s))
  {
  }

  lemma EarlierAndLast(s: string) returns (earlier: seq<string>)
    ensures Commands(s) == earlier + CommandOf(LastLine(s))
    ensures forall tail :: Commands(s + tail) == earlier + Commands(LastLine(s) + tail)
  {
    hide Commands, CommandOf;
    var n, last := LineStart(s), LastLine(s);
    OneLineCommands(last);
    if n == 0 {
      earlier := [];
      assert s == last;
      assert forall tail :: [] + Commands(last + tail) == Commands(last + tail);
      assert [] + CommandOf(last) == CommandOf(last);
    } else {
      var a := s[..n - 1];
      earlier := Commands(a);
      assert s == a + "\n" + last;
      CommandsSplit(a, last);
      forall tail
        ensures Commands(s + tail) == earlier + Commands(last + tail)
      {
        assert s + tail == a + "\n" + (last + tail);
        CommandsSplit(a, last + tail);
      }
    }
  }

  lemma {:induction false} TrimStartBlank(a: string, b: string)
    requires TrimStart(a) == ""
    ensures TrimStart(a + b) == TrimStart(b)
  {
    if a == "" {
      assert a + b == b;
    } else if Whitespace(a[0]) {
      TrimStartBlank(a[1..], b);
      assert (a + b)[1..] == a[1..] + b;
    }
  }

  lemma {:induction false} TrimStartGoesOn(a: string, b: string)
    requires TrimStart(a) != ""
    ensures TrimStart(a + b) == TrimStart(a) + b
  {
    if Whitespace(a[0]) {
      TrimStartGoesOn(a[1..], b);
      assert (a + b)[1..] == a[1..] + b;
    }
  }

  lemma {:induction false} TrimStartShape(s: string)
    ensures TrimStart(s) != "" ==> !Whitespace(TrimStart(s)[0])
  {
    if s != "" && Whitespace(s[0]) {
      TrimStartShape(s[1..]);
    }
  }

  lemma {:induction false} TrimEndKeepsMiddle(a: string, b: string)
    requires a != "" && !Whitespace(a[|a| - 1])
    ensures |TrimEnd(a + b)| >= |a|
  {
    if b != "" && Whitespace(b[|b| - 1]) {
      assert (a + b)[..|a + b| - 1] == a + b[..|b| - 1];
      TrimEndKeepsMiddle(a, b[..|b| - 1]);
    }
  }

  /** A line cut by the marker: still no command when it was none, and another one
      when it was one. */
  lemma CutLine(last: string, marker: string, after: string)
    requires Clean(marker) && marker[0] == '#'
    ensures CommandOf(last) == [] ==> CommandOf(last + (marker + after)) == []
    ensures CommandOf(last) != [] ==>
      |CommandOf(last + (marker + after))| == 1 && |CommandOf(last + (marker + after))[0]| > |marker|
  {
    var rest := marker + after;
    TrimStartShape(last);
    if TrimStart(last) == "" {
      TrimStartBlank(last, rest);
      TrimEndKeepsStart(rest);
    } else {
      var begun := TrimStart(last);
      TrimStartGoesOn(last, rest);
      TrimEndKeepsStart(begun);
      TrimEndKeepsStart(begun + rest);
      assert begun + rest == (begun + marker) + after;
      TrimEndKeepsMiddle(begun + marker, after);
    }
  }

  /** The commands of a script whose text from `tail` on begins with the marker. */
  lemma MarkerLine(last: string, marker: string, tail: string)
    requires OneLine(last) && OneLine(marker) && Clean(marker) && marker[0] == '#' && marker <= tail
    ensures CommandOf(last) == [] ==> Commands(last + tail) == Commands(tail)
    ensures CommandOf(last) != [] ==>
      Commands(last + tail) != [] && |Commands(last + tail)[0]| > |marker|
      && |Commands(last + tail)| == 1 + |Commands(tail)|
  {
    hide Commands, CommandOf;
    var n := Find(tail, '\n');
    var line := tail[..n];
    assert marker == tail[..|marker|];
    assert forall i :: 0 <= i < |marker| ==> tail[i] == marker[i] && marker[i] != '\n';
    var after := line[|marker|..];
    assert line == marker + after && OneLine(line);
    CutLine(last, marker, after);
    CommentHasNoCommand(line);
    if n == |tail| {
      assert line == tail;
      OneLineCommands(tail);
      OneLineCommands(last + tail);
    } else {
      var rest := tail[n + 1..];
      assert tail == line + "\n" + rest && last + tail == (last + line) + "\n" + rest;
      FirstLineCommands(line, rest);
      FirstLineCommands(last + line, rest);
    }
  }

  lemma BoundaryCommands(script: string, end: nat, marker: string, canonical: seq<string>)
    requires end <= |script| && marker <= script[end..] && Commands(script[..end]) == canonical
    requires OneLine(marker) && Clean(marker) && marker[0] == '#'
    requires canonical != [] && |canonical[|canonical| - 1]| < |marker|
    ensures Commands(script) == canonical + Commands(script[end..]) <==> CommandOf(LastLine(script[..end])) == []
  {
    hide Commands, CommandOf, LastLine;
    var before, tail := script[..end], script[end..];
    var last := LastLine(before);
    var earlier := EarlierAndLast(before);
    assert OneLine(last) by {
      LastLineIsOne(before);
    }
    assert before + tail == script;
    MarkerLine(last, marker, tail);
    LineHasOneCommand(last);
    if CommandOf(last) != [] {
      var k := |canonical| - 1;
      assert |earlier| == k && Commands(script) == earlier + Commands(last + tail);
      assert Commands(script)[k] == Commands(last + tail)[0];
      assert (canonical + Commands(tail))[k] == canonical[k];
    } else {
      assert earlier + [] == earlier;
    }
  }

  lemma MarkerParts()
    ensures MARKER == "# Check if we're in" + " a valid working directory"
  {
  }

  lemma PartsOneLine(a: string, b: string)
    requires OneLine(a) && OneLine(b) && a != "" && b != ""
    ensures OneLine(a + b) && (a + b)[0] == a[0] && (a + b)[|a + b| - 1] == b[|b| - 1]
  {
  }

  lemma MarkerFacts()
    ensures OneLine(MARKER) && Clean(MARKER) && MARKER[0] == '#'
    ensures |CANONICAL| == 4 && |CANONICAL[3]| < |MARKER|
  {
    var a, b := "# Check if we're in", " a valid working directory";
    MarkerParts();
    PartsOneLine(a, b);
  }

  /** The script's commands are the canonical ones and then the rest's exactly when
      no command stands on the marker's own line. */
  lemma ScriptCommands(script: string, setup: Setup)
    requires Recognized(Some(script)) == Some(setup) && setup.skip
    ensures setup.end <= |script|
    ensures Commands(script) == CANONICAL + Commands(script[setup.end..])
      <==> CommandOf(LastLine(script[..setup.end])) == []
  {
    hide Commands, CommandOf, LastLine, HasBootstrap, CacheableStart;
    MarkerFacts();
    assert script[setup.end..][..|MARKER|] == MARKER;
    BoundaryCommands(script, setup.end, MARKER, CANONICAL);
  }

  lemma LineHasOneCommand(line: string)
    ensures |CommandOf(line)| <= 1
  {
  }

  /** Main result: with a setup that can be skipped and no command on the marker's
      line, in any line interpreter the rewritten script does what the original
      does with the four canonical commands replaced by the activation. */
  lemma CachedMeaning<S(!new)>(step: (S, string) -> S, s: S, script: string, setup: Setup)
    requires Recognized(Some(script)) == Some(setup) && setup.skip
    requires CommandOf(LastLine(script[..setup.end])) == []
    ensures setup.start <= setup.end <= |script|
    ensures var rest := Commands(script[setup.end..]);
      && Interpreted(step, s, Commands(script)) == Interpreted(step, Interpreted(step, s, CANONICAL), rest)
      && Interpreted(step, s, Commands(Cached(script, setup))) == Interpreted(step, step(s, ACTIVATION), rest)
  {
    hide Commands, CommandOf, LastLine, Recognized, Cached;
    SetupRange(script);
    ScriptCommands(script, setup);
    CachedCommands(script, setup);
    var rest := Commands(script[setup.end..]);
    InterpretedAppend(step, s, CANONICAL, rest);
    InterpretedAppend(step, s, [ACTIVATION], rest);
    var activation := [ACTIVATION];
    assert activation[1..] == [];
    assert Interpreted(step, s, activation) == Interpreted(step, step(s, ACTIVATION), []);
  }

  // ------------------------------------------------------------------
  // A command on the marker's line
  // ------------------------------------------------------------------

  /** A command line with no comment sign in it. */
  predicate PlainCommand(line: string) {
    && Clean(line) && OneLine(line)
    && forall i :: 0 <= i < |line| ==> line[i] != '#'
  }

  lemma PlainCommandOf(line: string)
    requires PlainCommand(line)
    ensures CommandOf(line) == [line]
  {
    TrimClean(line);
  }

  lemma PlainTogether(a: string, b: string)
    requires PlainCommand(a) && OneLine(b) && b != "" && !Whitespace(b[|b| - 1])
    requires forall i :: 0 <= i < |b| ==> b[i] != '#'
    ensures PlainCommand(a + b)
  {
  }

  lemma UpdatePlain()
    ensures PlainCommand("apt-get update") && PlainCommand("apt-get install -y curl")
  {
  }

  lemma DownloadParts()
    ensures "curl -LsSf https://astral.sh/uv/0.9.5/install.sh | sh"
         == "curl -LsSf https://astral.sh" + "/uv/0.9.5/install.sh | sh"
  {
  }

  lemma DownloadPlain()
    ensures PlainCommand("curl -LsSf https://astral.sh/uv/0.9.5/install.sh | sh")
  {
    DownloadParts();
    PlainTogether("curl -LsSf https://astral.sh", "/uv/0.9.5/install.sh | sh");
  }

  lemma SourcePlain()
    ensures PlainCommand("source $HOME/.local/bin/env")
  {
  }

  /** Four commands, the last one's line left open. */
  function FourLines(a: string, b: string, c: string, d: string): string {
    a + "\n" + (b + "\n" + (c + "\n" + d))
  }

  lemma FourCommands(a: string, b: string, c: string, d: string)
    requires PlainCommand(a) && PlainCommand(b) && PlainCommand(c) && PlainCommand(d)
    ensures Commands(FourLines(a, b, c, d)) == [a, b, c, d]
  {
    hide Commands, CommandOf, PlainCommand;
    PlainCommandOf(a);
    PlainCommandOf(b);
    PlainCommandOf(c);
    PlainCommandOf(d);
    PlainIsOneLine(a);
    PlainIsOneLine(b);
    PlainIsOneLine(c);
    PlainIsOneLine(d);
    FirstLineCommands(a, b + "\n" + (c + "\n" + d));
    FirstLineCommands(b, c + "\n" + d);
    FirstLineCommands(c, d);
    OneLineCommands(d);
  }

  lemma PlainIsOneLine(line: string)
    requires PlainCommand(line)
    ensures OneLine(line)
  {
  }

  lemma FourLinesLast(a: string, b: string, c: string, d: string)
    requires PlainCommand(a) && PlainCommand(b) && PlainCommand(c) && PlainCommand(d)
    ensures LastLine(FourLines(a, b, c, d)) == d && '#' !in FourLines(a, b, c, d)
    ensures !("#!" <= FourLines(a, b, c, d)) && FourLines(a, b, c, d) != ""
  {
    var s := FourLines(a, b, c, d);
    var n := |s| - |d|;
    assert s == (a + "\n" + b + "\n" + c) + "\n" + d;
    assert s[n - 1] == '\n' && s[n..] == d;
    assert forall i :: n <= i < |s| ==> s[i] == d[i - n];
    assert s[0] == a[0];
    assert LineStart(s) == n;
  }

  /** The first `#` begins the text that is looked for. */
  lemma {:induction false} FindTextExact(before: string, text: string, after: string)
    requires text != "" && text[0] !in before
    ensures FindText(before + text + after, text) == Some(|before|)
  {
    var s := before + text + after;
    if before == "" {
      assert s[..|text|] == text;
    } else {
      assert s[0] == before[0] && before[0] in before && text[0] != before[0];
      assert s[1..] == before[1..] + text + after;
      FindTextExact(before[1..], text, after);
    }
  }

  lemma BootstrapOfCanonical()
    ensures HasBootstrap(CANONICAL)
  {
    var commands := CANONICAL;
    assert commands[2] == CANONICAL[2] && commands[2 + 1] == CANONICAL[3];
  }

  /** The canonical four with the marker directly after the last, and anything then. */
  function SharedLine(rest: string): string {
    FourLines(CANONICAL[0], CANONICAL[1], CANONICAL[2], CANONICAL[3]) + MARKER + rest
  }

  lemma CanonicalPlain()
    ensures PlainCommand(CANONICAL[0]) && PlainCommand(CANONICAL[1])
    ensures PlainCommand(CANONICAL[2]) && PlainCommand(CANONICAL[3])
    ensures CANONICAL == [CANONICAL[0], CANONICAL[1], CANONICAL[2], CANONICAL[3]]
  {
    hide PlainCommand;
    UpdatePlain();
    DownloadPlain();
    SourcePlain();
  }

  lemma SetupRecognized(script: string, before: string, commands: seq<string>, rest: string)
    requires script == before + MARKER + rest && FindText(script, MARKER) == Some(|before|)
    requires before != "" && !("#!" <= before) && |before| + |MARKER| > 2 && before[0] != '#'
    requires Commands(before) == commands && HasBootstrap(commands) && commands == CANONICAL
    ensures Recognized(Some(script)) == Some(Setup(0, |before|, true))
  {
    hide Commands, HasBootstrap;
    assert script[..|before|] == before && script[0] == before[0];
  }

  /** The condition above can fail: such a script is recognised and can be skipped, but
      its last setup command runs into the marker and is no longer the canonical one. */
  lemma SharedLineDiffers(rest: string)
    ensures Recognized(Some(SharedLine(rest))).Some?
    ensures var (script, setup) := (SharedLine(rest), Recognized(Some(SharedLine(rest))).value);
      && setup.skip && setup.end <= |script|
      && CommandOf(LastLine(script[..setup.end])) == [CANONICAL[3]]
      && Commands(script) != CANONICAL + Commands(script[setup.end..])
  {
    hide Commands, CommandOf, LastLine, HasBootstrap, PlainCommand, FourLines, Recognized, FindText;
    var a, b, c, d := CANONICAL[0], CANONICAL[1], CANONICAL[2], CANONICAL[3];
    var before, script := FourLines(a, b, c, d), SharedLine(rest);
    CanonicalPlain();
    FourCommands(a, b, c, d);
    FourLinesLast(a, b, c, d);
    BootstrapOfCanonical();
    MarkerFacts();
    FindTextExact(before, MARKER, rest);
    StartsPlain(before);
    SetupRecognized(script, before, [a, b, c, d], rest);
    PlainCommandOf(d);
    assert script[..|before|] == before;
    ScriptCommands(script, Setup(0, |before|, true));
  }

  lemma StartsPlain(s: string)
    requires s != "" && '#' !in s
    ensures s[0] != '#'
  {
  }
}
