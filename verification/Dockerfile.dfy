/** The Dockerfile subset that builds a task image: its logical lines, its instructions
    and the recipe they make. */
module Dockerfile {
  import opened Common
  import opened Text

  datatype Copy = Copy(from: Option<string>, sources: seq<string>, destination: string)

  datatype Instruction =
    | Run(script: string)
    | CopyFiles(copy: Copy)
    | Workdir(directory: string)
    | Env(name: string, value: string)
    | Arg(argument: string, default: Option<string>)
    | Cmd(command: string)

  datatype Stage = Stage(baseImage: string, name: Option<string>, instructions: seq<Instruction>)

  type Recipe = seq<Stage>

  datatype ImageError =
    | InvalidFrom
    | Unsupported(line: string)
    | UnknownSource(reference: string)
    | MissingSource(path: string)
    | BuildStep(stage: nat, instruction: nat)

  // ------------------------------------------------------------------
  // Logical lines
  // ------------------------------------------------------------------

  function Glue(current: string, fragment: string): string {
    if current == "" then fragment else current + " " + fragment
  }

  predicate Continues(line: string) {
    var ended := TrimEnd(line);
    ended != "" && ended[|ended| - 1] == '\\'
  }

  /** What a line adds to the current logical line. */
  function Fragment(line: string): string {
    Trim(if Continues(line) then WithoutEnd(TrimEnd(line), '\\') else line)
  }

  predicate Skipped(current: string, line: string) {
    current == "" && (Trim(line) == "" || Trim(line)[0] == '#')
  }

  function Prepended(line: string, rest: Result<seq<string>, ImageError>): Result<seq<string>, ImageError> {
    if rest.Err? || line == "" then rest else Ok([line] + rest.value)
  }

  function LogicalFrom(raw: seq<string>, current: string): Result<seq<string>, ImageError>
    decreases |raw|
  {
    if raw == [] then if current == "" then Ok([]) else Err(Unsupported(current))
    else if Skipped(current, raw[0]) then LogicalFrom(raw[1..], current)
    else
      var next := Glue(current, Fragment(raw[0]));
      if Continues(raw[0]) then LogicalFrom(raw[1..], next) else Prepended(next, LogicalFrom(raw[1..], ""))
  }

  function Appended(lines: seq<string>, rest: Result<seq<string>, ImageError>): Result<seq<string>, ImageError> {
    if rest.Err? then rest else Ok(lines + rest.value)
  }

  lemma AppendedExact(lines: seq<string>, line: string, rest: Result<seq<string>, ImageError>)
    ensures Appended([], rest) == rest
    ensures Appended(lines, Prepended(line, rest)) == Appended(if line == "" then lines else lines + [line], rest)
  {
    if rest.Ok? {
      assert [] + rest.value == rest.value;
      assert lines + ([line] + rest.value) == (lines + [line]) + rest.value;
    }
  }

  /** `dockerfile_logical_lines` */
  method LogicalLines(dockerfile: string) returns (r: Result<seq<string>, ImageError>)
    ensures r == LogicalFrom(Lines(dockerfile), "")
  {
    hide Lines, Trim, Continues, Fragment;
    var raw := Lines(dockerfile);
    var lines, current := [], "";
    AppendedExact([], "", LogicalFrom(raw, ""));
    for i := 0 to |raw|
      invariant Appended(lines, LogicalFrom(raw[i..], current)) == LogicalFrom(raw, "")
    {
      var line := raw[i];
      ghost var next := Glue(current, Fragment(line));
      assert raw[i..][0] == line && raw[i..][1..] == raw[i + 1..];
      if current == "" && (Trim(line) == "" || Trim(line)[0] == '#') {
        continue;
      }
      if current != "" {
        current := current + " ";
      }
      current := current + Fragment(line);
      assert current == next;
      if !Continues(line) {
        var logical := current;
        current := "";
        AppendedExact(lines, logical, LogicalFrom(raw[i + 1..], ""));
        if logical != "" {
          lines := lines + [logical];
        }
      }
    }
    if current != "" {
      return Err(Unsupported(current));
    }
    assert lines + [] == lines;
    return Ok(lines);
  }

  // ------------------------------------------------------------------
  // One logical line
  // ------------------------------------------------------------------

  function Segments(path: string): seq<string>
    decreases |path|
  {
    var n := Find(path, '/');
    if n == |path| then [path] else [path[..n]] + Segments(path[n + 1..])
  }

  /** Absolute, and no component climbs; empty and `.` components vanish. */
  predicate ValidWorkdir(path: string) {
    path != "" && path[0] == '/' && ".." !in Segments(path)
  }

  datatype Parsed = Opens(baseImage: string, name: Option<string>) | Step(instruction: Instruction)

  function ParseFrom(fields: seq<string>): Result<Parsed, ImageError> {
    if |fields| == 1 then Ok(Opens(fields[0], None))
    else if |fields| == 3 && Upper(fields[1]) == "AS" then Ok(Opens(fields[0], Some(fields[2])))
    else Err(InvalidFrom)
  }

  function CopyOf(from: Option<string>, paths: seq<string>, line: string): Result<Parsed, ImageError> {
    if |paths| < 2 then Err(Unsupported(line))
    else Ok(Step(CopyFiles(Copy(from, paths[..|paths| - 1], paths[|paths| - 1]))))
  }

  const FROM_OPTION := "--from="

  function ParseCopy(fields: seq<string>, line: string): Result<Parsed, ImageError> {
    if fields == [] then Err(Unsupported(line))
    else if FROM_OPTION <= fields[0] then
      var from := fields[0][|FROM_OPTION|..];
      if from == "" then Err(Unsupported(line)) else CopyOf(Some(from), fields[1..], line)
    else CopyOf(None, fields, line)
  }

  function ParseEnv(arguments: string, line: string): Result<Parsed, ImageError> {
    match SplitOnce(arguments, '=')
    case None => Err(Unsupported(line))
    case Some((name, value)) => if ValidName(name) then Ok(Step(Env(name, value))) else Err(Unsupported(line))
  }

  function ParseArg(arguments: string, line: string): Result<Parsed, ImageError> {
    var (name, default) := match SplitOnce(arguments, '=')
                           case None => (arguments, None)
                           case Some((name, value)) => (name, Some(value));
    if ValidName(name) then Ok(Step(Arg(name, default))) else Err(Unsupported(line))
  }

  function ParseLine(line: string): Result<Parsed, ImageError> {
    match SplitAtWhitespace(line)
    case None => Err(Unsupported(line))
    case Some((word, arguments)) =>
      var keyword := Upper(word);
      if keyword == "FROM" then ParseFrom(SplitWhitespace(arguments))
      else if keyword == "WORKDIR" then
        if |SplitWhitespace(arguments)| != 1 || !ValidWorkdir(arguments) then Err(Unsupported(line))
        else Ok(Step(Workdir(arguments)))
      else if keyword == "RUN" && Trim(arguments) != "" then Ok(Step(Run(arguments)))
      else if keyword == "COPY" then ParseCopy(SplitWhitespace(arguments), line)
      else if keyword == "ENV" then ParseEnv(arguments, line)
      else if keyword == "ARG" then ParseArg(arguments, line)
      else if keyword == "CMD" && Trim(arguments) != "" then Ok(Step(Cmd(arguments)))
      else Err(Unsupported(line))
  }

  // ------------------------------------------------------------------
  // The recipe
  // ------------------------------------------------------------------

  function Extended(stages: Recipe, parsed: Parsed, line: string): Result<Recipe, ImageError> {
    match parsed
    case Opens(baseImage, name) => Ok(stages + [Stage(baseImage, name, [])])
    case Step(instruction) =>
      if stages == [] then Err(Unsupported(line))
      else
        var last := stages[|stages| - 1];
        Ok(stages[|stages| - 1 := last.(instructions := last.instructions + [instruction])])
  }

  function ParseLines(lines: seq<string>, stages: Recipe): Result<Recipe, ImageError>
    decreases |lines|
  {
    if lines == [] then Ok(stages)
    else
      match ParseLine(lines[0])
      case Err(error) => Err(error)
      case Ok(parsed) =>
        match Extended(stages, parsed, lines[0])
        case Err(error) => Err(error)
        case Ok(more) => ParseLines(lines[1..], more)
  }

  function Parsing(dockerfile: string): Result<Recipe, ImageError> {
    match LogicalFrom(Lines(dockerfile), "")
    case Err(error) => Err(error)
    case Ok(lines) =>
      match ParseLines(lines, [])
      case Err(error) => Err(error)
      case Ok(stages) => if stages == [] then Err(InvalidFrom) else Ok(stages)
  }

  /** `DockerfileRecipe::parse` */
  method Parse(dockerfile: string) returns (r: Result<Recipe, ImageError>)
    ensures r == Parsing(dockerfile)
  {
    hide Lines, LogicalFrom, ParseLine, Extended;
    var logical := LogicalLines(dockerfile);
    if logical.Err? {
      return Err(logical.error);
    }
    var lines := logical.value;
    var stages: Recipe := [];
    for i := 0 to |lines|
      invariant ParseLines(lines[i..], stages) == ParseLines(lines, [])
    {
      var line := lines[i];
      assert lines[i..][1..] == lines[i + 1..];
      var parsed := ParseLine(line);
      if parsed.Err? {
        return Err(parsed.error);
      }
      var more := Extended(stages, parsed.value, line);
      if more.Err? {
        return Err(more.error);
      }
      stages := more.value;
    }
    if stages == [] {
      return Err(InvalidFrom);
    }
    return Ok(stages);
  }

  // ------------------------------------------------------------------
  // Printing
  // ------------------------------------------------------------------

  /** A printed line: a start and fields that each follow after one space or after
      a continuation. */
  datatype Item = Item(head: string, fields: seq<string>)

  function CopyFields(c: Copy): seq<string> {
    (if c.from.Some? then [FROM_OPTION + c.from.value] else []) + c.sources + [c.destination]
  }

  function InstructionItem(i: Instruction): Item {
    match i
    case Run(script) => Item("RUN" + " " + script, [])
    case CopyFiles(copy) => Item("COPY", CopyFields(copy))
    case Workdir(directory) => Item("WORKDIR", [directory])
    case Env(name, value) => Item("ENV" + " " + (name + ['='] + value), [])
    case Arg(name, None) => Item("ARG" + " " + name, [])
    case Arg(name, Some(value)) => Item("ARG" + " " + (name + ['='] + value), [])
    case Cmd(command) => Item("CMD" + " " + command, [])
  }

  function StageItem(s: Stage): Item {
    Item("FROM", [s.baseImage] + if s.name.Some? then ["AS", s.name.value] else [])
  }

  function InstructionItems(instructions: seq<Instruction>): seq<Item> {
    seq(|instructions|, i requires 0 <= i < |instructions| => InstructionItem(instructions[i]))
  }

  function Items(recipe: Recipe): seq<Item> {
    if recipe == [] then []
    else [StageItem(recipe[0])] + InstructionItems(recipe[0].instructions) + Items(recipe[1..])
  }

  /** Physical lines when `p` is already on the current one; `cuts` tells before
      which fields the line is continued. */
  function Laid(p: string, fields: seq<string>, cuts: seq<bool>): seq<string>
    decreases |fields|
  {
    if fields == [] then [p]
    else
      var rest := if cuts == [] then [] else cuts[1..];
      if cuts != [] && cuts[0] then [p + "\\"] + Laid(fields[0], fields[1..], rest)
      else Laid(p + " " + fields[0], fields[1..], rest)
  }

  /** Lines before each item and after the last that are blank or comments. */
  predicate Note(line: string) {
    && OneLine(line) && (line == "" || line[|line| - 1] != '\r')
    && (Trim(line) == "" || Trim(line)[0] == '#')
  }

  function Physical(items: seq<Item>, cuts: seq<seq<bool>>, notes: seq<seq<string>>): seq<string>
    decreases |items|
  {
    (if notes == [] then [] else notes[0])
    + if items == [] then []
      else
        Laid(items[0].head, items[0].fields, if cuts == [] then [] else cuts[0])
        + Physical(items[1..], if cuts == [] then [] else cuts[1..], if notes == [] then [] else notes[1..])
  }

  function Logical(i: Item): string {
    Join([i.head] + i.fields)
  }

  function LogicalOf(items: seq<Item>): seq<string> {
    seq(|items|, i requires 0 <= i < |items| => Logical(items[i]))
  }

  predicate EndsWell(s: string) {
    s != "" && !Whitespace(s[|s| - 1]) && s[|s| - 1] != '\\'
  }

  predicate Word(s: string) {
    Token(s) && s[|s| - 1] != '\\'
  }

  /** No line feed, and an end the line reader leaves alone. */
  predicate Remainder(s: string) {
    OneLine(s) && (s == "" || EndsWell(s))
  }

  predicate WellFormedCopy(c: Copy) {
    && (c.from.Some? ==> Token(c.from.value))
    && c.sources != [] && (forall i :: 0 <= i < |c.sources| ==> Token(c.sources[i]))
    && (c.from.None? ==> !(FROM_OPTION <= c.sources[0]))
    && Word(c.destination)
  }

  predicate WellFormedInstruction(i: Instruction) {
    match i
    case Run(script) => OneLine(script) && EndsWell(script)
    case CopyFiles(copy) => WellFormedCopy(copy)
    case Workdir(directory) => Word(directory) && ValidWorkdir(directory)
    case Env(name, value) => ValidName(name) && Remainder(value)
    case Arg(name, default) => ValidName(name) && (default.Some? ==> Remainder(default.value))
    case Cmd(command) => OneLine(command) && EndsWell(command)
  }

  predicate WellFormedStage(s: Stage) {
    && Word(s.baseImage) && (s.name.Some? ==> Word(s.name.value))
    && forall i :: 0 <= i < |s.instructions| ==> WellFormedInstruction(s.instructions[i])
  }

  predicate WellFormed(recipe: Recipe) {
    recipe != [] && forall i :: 0 <= i < |recipe| ==> WellFormedStage(recipe[i])
  }

  /** What the line reader needs of an item. */
  predicate Printable(i: Item) {
    && Clean(i.head) && OneLine(i.head) && i.head[0] != '#'
    && (forall k :: 0 <= k < |i.fields| ==> Token(i.fields[k]))
    && EndsWell(if i.fields == [] then i.head else i.fields[|i.fields| - 1])
  }

  lemma TextPrintable(keyword: string, text: string)
    requires Word(keyword) && keyword[0] != '#' && OneLine(text) && EndsWell(text)
    ensures Printable(Item(keyword + " " + text, []))
  {
  }

  lemma NamePrintable(name: string)
    requires ValidName(name)
    ensures OneLine(name) && EndsWell(name)
  {
  }

  lemma AssignmentPrintable(name: string, value: string)
    requires ValidName(name) && Remainder(value)
    ensures OneLine(name + ['='] + value) && EndsWell(name + ['='] + value)
  {
    NamePrintable(name);
  }

  lemma ItemPrintable(i: Instruction)
    requires WellFormedInstruction(i)
    ensures Printable(InstructionItem(i))
  {
    hide Printable, CopyFields, ValidName, Remainder, EndsWell, OneLine, WellFormedCopy, ValidWorkdir;
    match i
    case Run(script) => RunPrintable(script);
    case CopyFiles(copy) => CopyPrintable(copy);
    case Workdir(directory) => WorkdirPrintable(directory);
    case Env(name, value) =>
      AssignmentPrintable(name, value);
      TextPrintable("ENV", name + ['='] + value);
    case Arg(name, None) =>
      NamePrintable(name);
      TextPrintable("ARG", name);
    case Arg(name, Some(value)) =>
      AssignmentPrintable(name, value);
      TextPrintable("ARG", name + ['='] + value);
    case Cmd(command) => CmdPrintable(command);
  }

  lemma RunPrintable(script: string)
    requires OneLine(script) && EndsWell(script)
    ensures Printable(Item("RUN" + " " + script, []))
  {
    TextPrintable("RUN", script);
  }

  lemma CmdPrintable(command: string)
    requires OneLine(command) && EndsWell(command)
    ensures Printable(Item("CMD" + " " + command, []))
  {
    TextPrintable("CMD", command);
  }

  lemma WorkdirPrintable(directory: string)
    requires Word(directory)
    ensures Printable(Item("WORKDIR", [directory]))
  {
  }

  lemma CopyPrintable(c: Copy)
    requires WellFormedCopy(c)
    ensures Printable(Item("COPY", CopyFields(c)))
  {
    CopyFieldsTokens(c);
  }

  lemma CopyFieldsTokens(c: Copy)
    requires WellFormedCopy(c)
    ensures forall k :: 0 <= k < |CopyFields(c)| ==> Token(CopyFields(c)[k])
    ensures EndsWell(CopyFields(c)[|CopyFields(c)| - 1])
  {
  }

  lemma StagePrintable(s: Stage)
    requires WellFormedStage(s)
    ensures Printable(StageItem(s))
  {
  }

  // ------------------------------------------------------------------
  // Reading printed lines back
  // ------------------------------------------------------------------

  lemma WordEnds(p: string)
    requires Clean(p) && p[|p| - 1] != '\\'
    ensures !Continues(p) && Fragment(p) == p
  {
    TrimClean(p);
  }

  lemma CutEnds(p: string)
    requires Clean(p)
    ensures Continues(p + "\\") && Fragment(p + "\\") == p
  {
  }

  lemma NotSkipped(current: string, line: string)
    requires Clean(line) && (current != "" || line[0] != '#')
    ensures !Skipped(current, line)
  {
    TrimClean(line);
  }

  lemma JoinGlued(current: string, p: string, fields: seq<string>)
    requires fields != []
    ensures Glue(Glue(current, p), Join(fields)) == Glue(current, Join([p] + fields)) || Glue(current, p) == ""
  {
    assert ([p] + fields)[1..] == fields;
  }

  lemma {:induction false} JoinOnLine(p: string, fields: seq<string>)
    requires fields != []
    ensures Join([p + " " + fields[0]] + fields[1..]) == Join([p] + fields)
  {
  }

  predicate Pending(p: string, fields: seq<string>) {
    && Clean(p) && OneLine(p)
    && (forall k :: 0 <= k < |fields| ==> Token(fields[k]))
    && EndsWell(if fields == [] then p else fields[|fields| - 1])
  }

  lemma TokenClean(w: string)
    requires Token(w)
    ensures Clean(w) && OneLine(w)
  {
  }

  lemma PendingCut(p: string, fields: seq<string>)
    requires Pending(p, fields) && fields != []
    ensures Pending(fields[0], fields[1..])
  {
    TokenClean(fields[0]);
  }

  lemma PendingOnLine(p: string, fields: seq<string>)
    requires Pending(p, fields) && fields != []
    ensures Pending(p + " " + fields[0], fields[1..])
  {
    TokenClean(fields[0]);
  }

  /** However the line is continued, its fields are read as one logical line. */
  lemma {:induction false} LaidReads(p: string, fields: seq<string>, cuts: seq<bool>, current: string,
      more: seq<string>)
    requires Pending(p, fields) && (current != "" || p[0] != '#')
    ensures LogicalFrom(Laid(p, fields, cuts) + more, current)
         == Prepended(Glue(current, Join([p] + fields)), LogicalFrom(more, ""))
    decreases |fields|
  {
    hide Trim, Continues, Fragment, Skipped, Pending, Whitespace;
    var raw := Laid(p, fields, cuts) + more;
    assert Clean(p) by {
      assert Pending(p, fields);
      PendingStart(p, fields);
    }
    if fields == [] {
      PendingEnd(p);
      WordEnds(p);
      NotSkipped(current, p);
      assert raw[0] == p && raw[1..] == more && [p] + fields == [p];
    } else {
      var f, rest := fields[0], if cuts == [] then [] else cuts[1..];
      if cuts != [] && cuts[0] {
        CutEnds(p);
        CutNotSkipped(current, p);
        PendingCut(p, fields);
        assert raw[0] == p + "\\" && raw[1..] == Laid(f, fields[1..], rest) + more;
        LaidReads(f, fields[1..], rest, Glue(current, p), more);
        assert [f] + fields[1..] == fields;
        JoinGlued(current, p, fields);
      } else {
        PendingOnLine(p, fields);
        LaidReads(p + " " + f, fields[1..], rest, current, more);
        JoinOnLine(p, fields);
      }
    }
  }

  lemma PendingStart(p: string, fields: seq<string>)
    requires Pending(p, fields)
    ensures Clean(p)
  {
  }

  lemma PendingEnd(p: string)
    requires Pending(p, [])
    ensures p[|p| - 1] != '\\'
  {
  }

  lemma CutNotSkipped(current: string, p: string)
    requires Clean(p) && (current != "" || p[0] != '#')
    ensures !Skipped(current, p + "\\")
  {
    NotSkipped(current, p + "\\");
  }

  lemma PrintablePending(i: Item)
    requires Printable(i)
    ensures Pending(i.head, i.fields) && i.head[0] != '#' && Logical(i) != ""
  {
  }

  lemma {:induction false} NotesSkipped(notes: seq<string>, more: seq<string>)
    requires forall i :: 0 <= i < |notes| ==> Note(notes[i])
    ensures LogicalFrom(notes + more, "") == LogicalFrom(more, "")
  {
    hide Trim, Fragment, Continues;
    if notes == [] {
      assert notes + more == more;
    } else {
      assert (notes + more)[0] == notes[0] && (notes + more)[1..] == notes[1..] + more;
      NotesSkipped(notes[1..], more);
    }
  }

  predicate AllNotes(notes: seq<seq<string>>) {
    forall n, i :: 0 <= n < |notes| && 0 <= i < |notes[n]| ==> Note(notes[n][i])
  }

  lemma {:induction false} PhysicalReads(items: seq<Item>, cuts: seq<seq<bool>>, notes: seq<seq<string>>)
    requires AllNotes(notes) && forall i :: 0 <= i < |items| ==> Printable(items[i])
    ensures LogicalFrom(Physical(items, cuts, notes), "") == Ok(LogicalOf(items))
    decreases |items|
  {
    hide Laid, Printable, Pending, Logical, Join, Note, LogicalFrom;
    var first, later := if notes == [] then [] else notes[0], if notes == [] then [] else notes[1..];
    if items == [] {
      NotesSkipped(first, []);
      assert Physical(items, cuts, notes) == first + [] && LogicalOf(items) == [];
      assert LogicalFrom([], "") == Ok([]) by {
        NothingLogical();
      }
    } else {
      var cut, rest := if cuts == [] then [] else cuts[0], if cuts == [] then [] else cuts[1..];
      PhysicalReads(items[1..], rest, later);
      PrintablePending(items[0]);
      NotesSkipped(first, Laid(items[0].head, items[0].fields, cut) + Physical(items[1..], rest, later));
      LaidReads(items[0].head, items[0].fields, cut, "", Physical(items[1..], rest, later));
      assert Logical(items[0]) == Join([items[0].head] + items[0].fields) by {
        LogicalIsJoin(items[0]);
      }
      assert LogicalOf(items) == [Logical(items[0])] + LogicalOf(items[1..]);
    }
  }

  lemma NothingLogical()
    ensures LogicalFrom([], "") == Ok([])
  {
  }

  lemma LogicalIsJoin(i: Item)
    ensures Logical(i) == Join([i.head] + i.fields)
  {
  }

  predicate Readable(lines: seq<string>) {
    forall i :: 0 <= i < |lines| ==> OneLine(lines[i]) && (lines[i] == "" || lines[i][|lines[i]| - 1] != '\r')
  }

  lemma {:induction false} LaidReadable(p: string, fields: seq<string>, cuts: seq<bool>)
    requires Pending(p, fields)
    ensures Readable(Laid(p, fields, cuts))
    decreases |fields|
  {
    if fields != [] {
      var rest := if cuts == [] then [] else cuts[1..];
      if cuts != [] && cuts[0] {
        PendingCut(p, fields);
        LaidReadable(fields[0], fields[1..], rest);
      } else {
        PendingOnLine(p, fields);
        LaidReadable(p + " " + fields[0], fields[1..], rest);
      }
    }
  }

  lemma NotesReadable(notes: seq<seq<string>>)
    requires AllNotes(notes)
    ensures notes != [] ==> Readable(notes[0]) && AllNotes(notes[1..])
    ensures Readable([])
  {
  }

  lemma ReadableTogether(a: seq<string>, b: seq<string>)
    requires Readable(a) && Readable(b)
    ensures Readable(a + b)
  {
  }

  lemma {:induction false} PhysicalReadable(items: seq<Item>, cuts: seq<seq<bool>>, notes: seq<seq<string>>)
    requires AllNotes(notes) && forall i :: 0 <= i < |items| ==> Printable(items[i])
    ensures Readable(Physical(items, cuts, notes))
    decreases |items|
  {
    hide Laid, Printable, Pending, Readable, AllNotes;
    NotesReadable(notes);
    if items == [] {
      assert Physical(items, cuts, notes) == (if notes == [] then [] else notes[0]) + [];
      ReadableTogether(if notes == [] then [] else notes[0], []);
    } else {
      var cut, rest := if cuts == [] then [] else cuts[0], if cuts == [] then [] else cuts[1..];
      var later := Physical(items[1..], rest, if notes == [] then [] else notes[1..]);
      PrintablePending(items[0]);
      LaidReadable(items[0].head, items[0].fields, cut);
      PhysicalReadable(items[1..], rest, if notes == [] then [] else notes[1..]);
      ReadableTogether(Laid(items[0].head, items[0].fields, cut), later);
      ReadableTogether(if notes == [] then [] else notes[0], Laid(items[0].head, items[0].fields, cut) + later);
    }
  }

  // ------------------------------------------------------------------
  // Parsing logical lines back
  // ------------------------------------------------------------------

  lemma ParseKeyword(keyword: string, arguments: string)
    requires Unspaced(keyword) && (forall i :: 0 <= i < |keyword| ==> !('a' <= keyword[i] <= 'z'))
    ensures SplitAtWhitespace(keyword + " " + arguments) == Some((keyword, arguments)) && Upper(keyword) == keyword
  {
    SplitAtWhitespaceExact(keyword, arguments);
    UpperFixed(keyword);
  }

  lemma TrimKeeps(s: string)
    requires EndsWell(s)
    ensures Trim(s) != ""
  {
    StartKept(s);
  }

  lemma {:induction false} StartKept(s: string)
    requires s != "" && !Whitespace(s[|s| - 1])
    ensures Trim(s) != ""
  {
    if Whitespace(s[0]) {
      StartKept(s[1..]);
    }
  }

  lemma RunParses(script: string)
    requires EndsWell(script)
    ensures ParseLine("RUN" + " " + script) == Ok(Step(Run(script)))
  {
    hide SplitAtWhitespace, Trim, Upper;
    ParseKeyword("RUN", script);
    TrimKeeps(script);
  }

  lemma CmdParses(command: string)
    requires EndsWell(command)
    ensures ParseLine("CMD" + " " + command) == Ok(Step(Cmd(command)))
  {
    hide SplitAtWhitespace, Trim, Upper;
    ParseKeyword("CMD", command);
    TrimKeeps(command);
  }

  lemma WorkdirParses(directory: string)
    requires Token(directory) && ValidWorkdir(directory)
    ensures ParseLine("WORKDIR" + " " + directory) == Ok(Step(Workdir(directory)))
  {
    hide SplitAtWhitespace, SplitWhitespace, Upper, ValidWorkdir;
    ParseKeyword("WORKDIR", directory);
    SplitOneToken(directory);
  }

  lemma AssignmentSplits(name: string, value: string)
    requires ValidName(name)
    ensures SplitOnce(name + ['='] + value, '=') == Some((name, value))
  {
    SplitOnceExact(name, '=', value);
  }

  lemma EnvParses(name: string, value: string)
    requires ValidName(name)
    ensures ParseLine("ENV" + " " + (name + ['='] + value)) == Ok(Step(Env(name, value)))
  {
    hide SplitAtWhitespace, SplitOnce, Upper, ValidName;
    ParseKeyword("ENV", name + ['='] + value);
    AssignmentSplits(name, value);
  }

  lemma ArgParses(name: string, default: Option<string>)
    requires ValidName(name)
    ensures ParseLine("ARG" + " " + (if default.None? then name else name + ['='] + default.value))
         == Ok(Step(Arg(name, default)))
  {
    hide SplitAtWhitespace, SplitOnce, Upper, ValidName;
    var arguments := if default.None? then name else name + ['='] + default.value;
    ParseKeyword("ARG", arguments);
    if default.None? {
      NameUnsplit(name);
    } else {
      AssignmentSplits(name, default.value);
    }
  }

  lemma NameUnsplit(name: string)
    requires ValidName(name)
    ensures SplitOnce(name, '=') == None
  {
    FindExact(name, '=', |name|);
  }

  lemma FromParses(s: Stage)
    requires Token(s.baseImage) && (s.name.Some? ==> Token(s.name.value))
    ensures ParseLine(Logical(StageItem(s))) == Ok(Opens(s.baseImage, s.name))
  {
    hide SplitAtWhitespace, SplitWhitespace, Upper, Join;
    var fields := StageItem(s).fields;
    assert Token("AS") by {
      assert |"AS"| == 2;
    }
    JoinSplits(fields);
    KeywordJoin("FROM", fields);
    ParseKeyword("FROM", Join(fields));
    assert Upper("AS") == "AS" by {
      UpperFixed("AS");
    }
  }

  lemma KeywordJoin(keyword: string, fields: seq<string>)
    requires fields != []
    ensures Join([keyword] + fields) == keyword + " " + Join(fields)
  {
    assert ([keyword] + fields)[1..] == fields;
  }

  lemma CopyFieldsParse(c: Copy, line: string)
    requires WellFormedCopy(c)
    ensures ParseCopy(CopyFields(c), line) == Ok(Step(CopyFiles(c)))
  {
    var fields := CopyFields(c);
    var paths := c.sources + [c.destination];
    assert paths[..|paths| - 1] == c.sources;
    if c.from.Some? {
      assert fields[0][|FROM_OPTION|..] == c.from.value && fields[1..] == paths;
    } else {
      assert fields == paths;
    }
  }

  lemma CopyParses(c: Copy)
    requires WellFormedCopy(c)
    ensures ParseLine(Logical(Item("COPY", CopyFields(c)))) == Ok(Step(CopyFiles(c)))
  {
    hide SplitAtWhitespace, SplitWhitespace, Upper, Join, WellFormedCopy, ParseCopy;
    var fields := CopyFields(c);
    CopyFieldsTokens(c);
    JoinSplits(fields);
    KeywordJoin("COPY", fields);
    ParseKeyword("COPY", Join(fields));
    CopyFieldsParse(c, "COPY" + " " + Join(fields));
  }

  lemma OneFieldLogical(head: string)
    ensures Logical(Item(head, [])) == head
  {
    assert [head] + [] == [head];
  }

  lemma InstructionParses(i: Instruction)
    requires WellFormedInstruction(i)
    ensures ParseLine(Logical(InstructionItem(i))) == Ok(Step(i))
  {
    hide ParseLine, Logical, CopyFields, ValidName, Remainder, WellFormedCopy, ValidWorkdir;
    match i
    case Run(script) =>
      OneFieldLogical("RUN" + " " + script);
      RunParses(script);
    case CopyFiles(copy) =>
      CopyParses(copy);
    case Workdir(directory) =>
      WorkdirLogical(directory);
      WorkdirParses(directory);
    case Env(name, value) =>
      OneFieldLogical("ENV" + " " + (name + ['='] + value));
      EnvParses(name, value);
    case Arg(name, default) =>
      OneFieldLogical("ARG" + " " + (if default.None? then name else name + ['='] + default.value));
      ArgParses(name, default);
    case Cmd(command) =>
      OneFieldLogical("CMD" + " " + command);
      CmdParses(command);
  }

  lemma WorkdirLogical(directory: string)
    ensures Logical(Item("WORKDIR", [directory])) == "WORKDIR" + " " + directory
  {
    KeywordJoin("WORKDIR", [directory]);
  }

  /** The lines of a stage's last instructions complete the stage. */
  lemma {:induction false} InstructionsParse(done: Recipe, s: Stage, n: nat, more: seq<string>)
    requires WellFormedStage(s) && n <= |s.instructions|
    ensures ParseLines(LogicalOf(InstructionItems(s.instructions))[n..] + more,
                       done + [s.(instructions := s.instructions[..n])])
         == ParseLines(more, done + [s])
    decreases |s.instructions| - n
  {
    hide ParseLine, Logical, InstructionItem, WellFormedInstruction, Word;
    var lines := LogicalOf(InstructionItems(s.instructions));
    var stages := done + [s.(instructions := s.instructions[..n])];
    if n == |s.instructions| {
      assert lines[n..] + more == more;
      assert s.instructions[..n] == s.instructions;
    } else {
      InstructionsParse(done, s, n + 1, more);
      InstructionParses(s.instructions[n]);
      var rest := lines[n..] + more;
      assert rest[0] == lines[n] && rest[1..] == lines[n + 1..] + more;
      assert s.instructions[..n] + [s.instructions[n]] == s.instructions[..n + 1];
      assert stages[|stages| - 1 := s.(instructions := s.instructions[..n + 1])]
          == done + [s.(instructions := s.instructions[..n + 1])];
    }
  }

  lemma {:induction false} ItemsParse(done: Recipe, recipe: Recipe)
    requires forall i :: 0 <= i < |recipe| ==> WellFormedStage(recipe[i])
    ensures ParseLines(LogicalOf(Items(recipe)), done) == Ok(done + recipe)
    decreases |recipe|
  {
    hide ParseLine, Logical, StageItem, InstructionItems, WellFormedInstruction;
    if recipe == [] {
      assert done + recipe == done;
    } else {
      var s, rest := recipe[0], recipe[1..];
      var instructions, more := LogicalOf(InstructionItems(s.instructions)), LogicalOf(Items(rest));
      var lines := LogicalOf(Items(recipe));
      FromParses(s);
      assert lines == [Logical(StageItem(s))] + instructions + more;
      assert lines[0] == Logical(StageItem(s)) && lines[1..] == instructions[0..] + more;
      InstructionsParse(done, s, 0, more);
      assert s.(instructions := s.instructions[..0]) == Stage(s.baseImage, s.name, []);
      ItemsParse(done + [s], rest);
      assert done + [s] + rest == done + recipe;
    }
  }

  lemma {:induction false} ItemsPrintable(recipe: Recipe)
    requires forall i :: 0 <= i < |recipe| ==> WellFormedStage(recipe[i])
    ensures forall i :: 0 <= i < |Items(recipe)| ==> Printable(Items(recipe)[i])
  {
    hide Printable, StageItem, InstructionItem, WellFormedInstruction, Word;
    if recipe != [] {
      ItemsPrintable(recipe[1..]);
      StagePrintable(recipe[0]);
      forall i | 0 <= i < |recipe[0].instructions|
        ensures Printable(InstructionItems(recipe[0].instructions)[i])
      {
        ItemPrintable(recipe[0].instructions[i]);
      }
    }
  }

  /** Main result: a well-formed recipe, printed with any of its fields on continuation
      lines and with blank lines and comments between its instructions, parses to itself. */
  lemma ParseRoundTrip(recipe: Recipe, cuts: seq<seq<bool>>, notes: seq<seq<string>>)
    requires WellFormed(recipe) && AllNotes(notes)
    ensures Parsing(Written(Physical(Items(recipe), cuts, notes))) == Ok(recipe)
  {
    hide Lines, Written, Physical, LogicalFrom, ParseLines, Printable, WellFormedStage, Clean, OneLine, Items;
    var items := Items(recipe);
    ItemsPrintable(recipe);
    PhysicalReadable(items, cuts, notes);
    WrittenLines(Physical(items, cuts, notes));
    PhysicalReads(items, cuts, notes);
    ItemsParse([], recipe);
    assert [] + recipe == recipe;
  }

  /** `word` is the upper-case `keyword` with any of its letters in lower case. */
  predicate AnyCase(word: string, keyword: string) {
    && |word| == |keyword|
    && forall i :: 0 <= i < |word| ==>
         'A' <= keyword[i] <= 'Z' && (word[i] == keyword[i] || word[i] as int == keyword[i] as int + 32)
  }

  lemma AnyCaseUpper(word: string, keyword: string)
    requires AnyCase(word, keyword)
    ensures Upper(word) == keyword && Upper(keyword) == keyword && Unspaced(word) && Unspaced(keyword)
  {
  }

  /** A line means the same whatever the case of its keyword. */
  lemma KeywordAnyCase(word: string, keyword: string, arguments: string)
    requires AnyCase(word, keyword)
    ensures var (line, upper) := (ParseLine(word + " " + arguments), ParseLine(keyword + " " + arguments));
      line.Ok? == upper.Ok? && (line.Ok? ==> line == upper)
  {
    hide Trim, SplitWhitespace, ValidWorkdir, SplitOnce, ValidName, Upper, SplitAtWhitespace;
    AnyCaseUpper(word, keyword);
    SplitAtWhitespaceExact(word, arguments);
    SplitAtWhitespaceExact(keyword, arguments);
  }

  // ------------------------------------------------------------------
  // What is refused
  // ------------------------------------------------------------------

  /** `..` stands at `i`, between slashes or between one and an end. */
  ghost predicate UpAt(path: string, i: nat) {
    && i + 2 <= |path| && path[i] == '.' && path[i + 1] == '.'
    && (i == 0 || path[i - 1] == '/') && (i + 2 == |path| || path[i + 2] == '/')
  }

  ghost predicate HasUp(path: string) {
    exists i: nat :: UpAt(path, i)
  }

  lemma UpShifted(path: string, n: nat, i: nat)
    requires n < |path| && path[n] == '/'
    ensures UpAt(path[n + 1..], i) <==> UpAt(path, n + 1 + i)
  {
    var rest := path[n + 1..];
    assert forall k :: 0 <= k < |rest| ==> rest[k] == path[n + 1 + k];
  }

  lemma UpFirst(path: string, n: nat, i: nat)
    requires n < |path| && path[n] == '/' && forall k :: 0 <= k < n ==> path[k] != '/'
    requires i <= n
    ensures UpAt(path, i) <==> i == 0 && path[..n] == ".."
  {
    assert forall k :: 0 <= k < n ==> path[..n][k] == path[k];
  }

  lemma {:induction false} UpIsSegment(path: string)
    ensures ".." in Segments(path) <==> HasUp(path)
    decreases |path|
  {
    hide UpAt;
    var n := Find(path, '/');
    if n == |path| {
      OnlyUp(path);
    } else {
      var rest := path[n + 1..];
      UpIsSegment(rest);
      UpFirst(path, n, 0);
      if HasUp(rest) {
        var i: nat :| UpAt(rest, i);
        UpShifted(path, n, i);
      }
      if HasUp(path) {
        var i: nat :| UpAt(path, i);
        if i > n {
          UpShifted(path, n, i - n - 1);
        } else {
          UpFirst(path, n, i);
        }
      }
    }
  }

  lemma OnlyUp(path: string)
    requires forall k :: 0 <= k < |path| ==> path[k] != '/'
    ensures HasUp(path) <==> path == ".."
  {
    assert UpAt("..", 0);
    if HasUp(path) {
      var i: nat :| UpAt(path, i);
      assert i == 0;
    }
  }

  lemma ValidWorkdirExact(path: string)
    ensures ValidWorkdir(path) <==> path != "" && path[0] == '/' && !HasUp(path)
  {
    hide Segments, HasUp;
    UpIsSegment(path);
  }

  lemma {:induction false} TrimStartBlank(s: string)
    requires Blank(s)
    ensures TrimStart(s) == ""
  {
    if s != "" {
      TrimStartBlank(s[1..]);
    }
  }

  lemma NothingInBlank(s: string)
    requires Trim(s) != ""
    ensures !Blank(s)
  {
    if Blank(s) {
      TrimStartBlank(s);
    }
  }

  lemma {:induction false} SplitTokens(s: string)
    ensures forall i :: 0 <= i < |SplitWhitespace(s)| ==> Token(SplitWhitespace(s)[i])
    decreases |s|
  {
    if s != "" {
      if Whitespace(s[0]) {
        SplitTokens(s[1..]);
      } else {
        SplitTokens(s[FindWhitespace(s)..]);
      }
    }
  }

  /** ASCII letters, digits and underscores by their codes, and no digit first. */
  ghost predicate Identifier(name: string) {
    && name != "" && !(48 <= name[0] as int <= 57)
    && forall i :: 0 <= i < |name| ==>
         var code := name[i] as int;
         65 <= code <= 90 || code == 95 || 97 <= code <= 122 || 48 <= code <= 57
  }

  lemma ValidNameExact(name: string)
    ensures ValidName(name) <==> Identifier(name)
  {
  }

  /** What the parser demands of an instruction. */
  ghost predicate Allowed(i: Instruction) {
    match i
    case Run(script) => !Blank(script)
    case CopyFiles(copy) =>
      && (copy.from.Some? ==> copy.from.value != "" && Unspaced(copy.from.value))
      && copy.sources != [] && (forall k :: 0 <= k < |copy.sources| ==> Token(copy.sources[k]))
      && (copy.from.None? ==> !("--from=" <= copy.sources[0])) && Token(copy.destination)
    case Workdir(directory) => directory != "" && directory[0] == '/' && !HasUp(directory)
    case Env(name, value) => Identifier(name)
    case Arg(name, default) => Identifier(name)
    case Cmd(command) => !Blank(command)
  }

  ghost predicate AllowedStage(s: Stage) {
    && Token(s.baseImage) && (s.name.Some? ==> Token(s.name.value))
    && forall k :: 0 <= k < |s.instructions| ==> Allowed(s.instructions[k])
  }

  ghost predicate AllAllowed(recipe: Recipe) {
    forall k :: 0 <= k < |recipe| ==> AllowedStage(recipe[k])
  }

  lemma FromAllowed(arguments: string)
    requires ParseFrom(SplitWhitespace(arguments)).Ok?
    ensures var parsed := ParseFrom(SplitWhitespace(arguments)).value;
      parsed.Opens? && AllowedStage(Stage(parsed.baseImage, parsed.name, []))
  {
    hide Token;
    SplitTokens(arguments);
  }

  lemma CopyAllowed(arguments: string, line: string)
    requires ParseCopy(SplitWhitespace(arguments), line).Ok?
    ensures var parsed := ParseCopy(SplitWhitespace(arguments), line).value;
      parsed.Step? && Allowed(parsed.instruction)
  {
    hide SplitWhitespace;
    SplitTokens(arguments);
    var fields := SplitWhitespace(arguments);
    assert FROM_OPTION <= fields[0] ==> Unspaced(fields[0][|FROM_OPTION|..]);
  }

  lemma LineAllowed(line: string)
    requires ParseLine(line).Ok?
    ensures match ParseLine(line).value
            case Opens(baseImage, name) => AllowedStage(Stage(baseImage, name, []))
            case Step(instruction) => Allowed(instruction)
  {
    hide ParseFrom, ParseCopy, SplitWhitespace, Trim, ValidWorkdir, HasUp, ValidName, Blank, Upper, SplitOnce;
    hide AllowedStage, Identifier;
    var (word, arguments) := SplitAtWhitespace(line).value;
    var keyword := Upper(word);
    ValidWorkdirExact(arguments);
    if keyword == "FROM" {
      FromAllowed(arguments);
    } else if keyword == "COPY" {
      CopyAllowed(arguments, line);
    } else if Trim(arguments) != "" {
      NothingInBlank(arguments);
    }
    if ParseLine(line).value.Step? {
      match ParseLine(line).value.instruction
      case Env(name, _) => ValidNameExact(name);
      case Arg(name, _) => ValidNameExact(name);
      case _ =>
    }
  }

  lemma ExtendedAllowed(stages: Recipe, line: string)
    requires AllAllowed(stages) && ParseLine(line).Ok? && Extended(stages, ParseLine(line).value, line).Ok?
    ensures AllAllowed(Extended(stages, ParseLine(line).value, line).value)
  {
    hide ParseLine, Allowed, Token;
    LineAllowed(line);
  }

  lemma {:induction false} LinesAllowed(lines: seq<string>, stages: Recipe)
    requires AllAllowed(stages) && ParseLines(lines, stages).Ok?
    ensures AllAllowed(ParseLines(lines, stages).value)
    decreases |lines|
  {
    hide ParseLine, Extended, AllAllowed;
    if lines != [] {
      ExtendedAllowed(stages, lines[0]);
      LinesAllowed(lines[1..], Extended(stages, ParseLine(lines[0]).value, lines[0]).value);
    }
  }

  /** Main result: whatever text parses has a stage and only instructions the parser allows. */
  lemma ParsedIsAllowed(dockerfile: string)
    ensures Parsing(dockerfile).Ok? ==> Parsing(dockerfile).value != [] && AllAllowed(Parsing(dockerfile).value)
  {
    hide ParseLines, LogicalFrom, AllowedStage;
    var lines := LogicalFrom(Lines(dockerfile), "");
    if lines.Ok? && ParseLines(lines.value, []).Ok? {
      LinesAllowed(lines.value, []);
    }
  }
}
