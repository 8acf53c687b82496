/** Building a recipe's stages, and the environment a cached image is run with. */
module ImageBuild {
  import opened BuildSources
  import opened Common
  import opened CopyPaths
  import opened Dockerfile
  import opened Text
  import opened Variables

  datatype Image = Image(environment: Variables, workingDirectory: string)

  const DEFAULT_GUEST_PATH := "/usr/local/sbin:/usr/local/bin:/usr/sbin:/usr/bin:/sbin:/bin"

  function OrInsert(environment: Variables, name: string, value: string): Variables {
    if name in environment then environment else environment[name := value]
  }

  /** `docker_process_environment` */
  function ProcessEnvironment(image: Variables): Variables {
    OrInsert(OrInsert(image, "HOME", "/root"), "PATH", DEFAULT_GUEST_PATH)
  }

  // ------------------------------------------------------------------
  // The environment alone
  // ------------------------------------------------------------------

  datatype Scope = Scope(environment: Variables, arguments: Variables)

  function Assigned(i: Instruction, s: Scope): Scope {
    match i
    case Env(name, value) => s.(environment := s.environment[name := Expanded(value, s.environment, s.arguments)])
    case Arg(name, default) =>
      s.(arguments := s.arguments[name := if default.None? then ""
                                          else Expanded(default.value, s.environment, s.arguments)])
    case _ => s
  }

  function ScopeAfter(instructions: seq<Instruction>, start: Scope): Scope {
    if instructions == [] then start
    else Assigned(instructions[|instructions| - 1], ScopeAfter(instructions[..|instructions| - 1], start))
  }

  /** Where a stage starts: its image's environment and no arguments. */
  function BaseScope(image: Image): Scope {
    Scope(ProcessEnvironment(image.environment), map[])
  }

  function FinalEnvironment(recipe: Recipe, images: map<string, Image>): Result<Variables, ImageError> {
    if recipe == [] then Err(InvalidFrom)
    else
      var stage := recipe[|recipe| - 1];
      if stage.baseImage !in images then Err(UnknownSource(stage.baseImage))
      else
        Ok(ScopeAfter(stage.instructions, BaseScope(images[stage.baseImage])).environment)
  }

  predicate Sets(i: Instruction, name: string) {
    i.Env? && i.name == name
  }

  predicate Declares(i: Instruction, name: string) {
    i.Arg? && i.argument == name
  }

  /** A variable holds what its last ENV gave it, read with the assignments before that. */
  lemma {:induction false} EnvIsLast(instructions: seq<Instruction>, start: Scope, name: string, i: nat)
    requires i < |instructions| && Sets(instructions[i], name)
    requires forall j :: i < j < |instructions| ==> !Sets(instructions[j], name)
    ensures var (before, after) := (ScopeAfter(instructions[..i], start), ScopeAfter(instructions, start));
      name in after.environment
      && after.environment[name] == Expanded(instructions[i].value, before.environment, before.arguments)
  {
    hide Expanded;
    var init := instructions[..|instructions| - 1];
    if i < |init| {
      assert init[..i] == instructions[..i];
      EnvIsLast(init, start, name, i);
    }
  }

  lemma {:induction false} ArgIsLast(instructions: seq<Instruction>, start: Scope, name: string, i: nat)
    requires i < |instructions| && Declares(instructions[i], name)
    requires forall j :: i < j < |instructions| ==> !Declares(instructions[j], name)
    ensures var (before, after) := (ScopeAfter(instructions[..i], start), ScopeAfter(instructions, start));
      name in after.arguments
      && after.arguments[name] == match instructions[i].default
                                  case None => ""
                                  case Some(text) => Expanded(text, before.environment, before.arguments)
  {
    hide Expanded;
    var init := instructions[..|instructions| - 1];
    if i < |init| {
      assert init[..i] == instructions[..i];
      ArgIsLast(init, start, name, i);
    }
  }

  lemma {:induction false} UnassignedKept(instructions: seq<Instruction>, start: Scope, name: string)
    ensures var after := ScopeAfter(instructions, start);
      && ((forall j :: 0 <= j < |instructions| ==> !Sets(instructions[j], name)) ==>
            (name in after.environment <==> name in start.environment)
            && (name in start.environment ==> after.environment[name] == start.environment[name]))
      && ((forall j :: 0 <= j < |instructions| ==> !Declares(instructions[j], name)) ==>
            (name in after.arguments <==> name in start.arguments)
            && (name in start.arguments ==> after.arguments[name] == start.arguments[name]))
  {
    hide Expanded;
    if instructions != [] {
      var init := instructions[..|instructions| - 1];
      UnassignedKept(init, start, name);
      assert forall j :: 0 <= j < |init| ==> init[j] == instructions[j];
    }
  }

  /** A stage starts with its image's variables, and HOME and PATH where those lack them. */
  lemma StartsWithImage(image: Image, name: string)
    ensures var s := BaseScope(image);
      s.arguments == map[] && s.environment.Keys == image.environment.Keys + {"HOME", "PATH"}
    ensures name in image.environment ==> BaseScope(image).environment[name] == image.environment[name]
    ensures "HOME" !in image.environment ==> BaseScope(image).environment["HOME"] == "/root"
    ensures "PATH" !in image.environment ==> BaseScope(image).environment["PATH"] == DEFAULT_GUEST_PATH
  {
  }

  /** `final_recipe_environment` */
  method FinalRecipeEnvironment(recipe: Recipe, images: map<string, Image>) returns (r: Result<Variables, ImageError>)
    ensures r == FinalEnvironment(recipe, images)
  {
    hide ProcessEnvironment, Expanded;
    if recipe == [] {
      return Err(InvalidFrom);
    }
    var stage := recipe[|recipe| - 1];
    if stage.baseImage !in images {
      return Err(UnknownSource(stage.baseImage));
    }
    var environment := ProcessEnvironment(images[stage.baseImage].environment);
    ghost var start := Scope(environment, map[]);
    var arguments: Variables := map[];
    for k := 0 to |stage.instructions|
      invariant Scope(environment, arguments) == ScopeAfter(stage.instructions[..k], start)
    {
      assert stage.instructions[..k + 1][..k] == stage.instructions[..k];
      match stage.instructions[k] {
        case Env(name, value) =>
          environment := environment[name := Expanded(value, environment, arguments)];
        case Arg(name, default) =>
          arguments := arguments[name := if default.None? then ""
                                         else Expanded(default.value, environment, arguments)];
        case _ =>
      }
    }
    assert stage.instructions[..|stage.instructions|] == stage.instructions;
    return Ok(environment);
  }

  // ------------------------------------------------------------------
  // Building
  // ------------------------------------------------------------------

  datatype Command =
    | MountDisk(device: string, mount: string)
    | MakeDirectory(path: string)
    | Shell(script: string, directory: string, environment: Variables)
    | CopyInto(destination: string, sources: seq<string>)

  /** Whether a command succeeds in the guest, which sees every command sent to it before. */
  type Guest = (seq<Command>, Command) -> bool

  /** A stage's guest, and where the references COPY names are mounted in it. */
  datatype Builder = Builder(stage: nat, paths: map<string, string>, succeeds: Guest)

  datatype Building = Building(scope: Scope, workdir: string, log: seq<Command>)

  function ExpandAll(texts: seq<string>, s: Scope): seq<string> {
    seq(|texts|, i requires 0 <= i < |texts| => Expanded(texts[i], s.environment, s.arguments))
  }

  function Destination(workdir: string, destination: string): string {
    if Absolute(destination) then destination else JoinPath(workdir, destination)
  }

  function CopyCommand(builder: Builder, copy: Copy, b: Building): Result<Command, ImageError> {
    if copy.from.Some? && copy.from.value !in builder.paths then Err(UnknownSource(copy.from.value))
    else
      var root := if copy.from.None? then None else Some(builder.paths[copy.from.value]);
      match SourcePaths(root, ExpandAll(copy.sources, b.scope))
      case Err(error) => Err(error)
      case Ok(sources) =>
        var destination := Expanded(copy.destination, b.scope.environment, b.scope.arguments);
        Ok(CopyInto(Destination(b.workdir, destination), sources))
  }

  /** The command an instruction runs; ENV, ARG and CMD run none. */
  function CommandFor(builder: Builder, i: Instruction, b: Building): Result<Option<Command>, ImageError> {
    match i
    case Workdir(directory) => Ok(Some(MakeDirectory(directory)))
    case Run(script) => Ok(Some(Shell(script, b.workdir, b.scope.environment + b.scope.arguments)))
    case CopyFiles(copy) =>
      (match CopyCommand(builder, copy, b)
       case Err(error) => Err(error)
       case Ok(command) => Ok(Some(command)))
    case _ => Ok(None)
  }

  function Logged(log: seq<Command>, command: Option<Command>): seq<Command> {
    if command.None? then log else log + [command.value]
  }

  function Performed(builder: Builder, i: Instruction, index: nat, b: Building): Result<Building, ImageError> {
    match CommandFor(builder, i, b)
    case Err(error) => Err(error)
    case Ok(command) =>
      if command.Some? && !builder.succeeds(b.log, command.value) then Err(BuildStep(builder.stage, index))
      else
        Ok(Building(Assigned(i, b.scope), if i.Workdir? then i.directory else b.workdir, Logged(b.log, command)))
  }

  function BuiltFrom(builder: Builder, instructions: seq<Instruction>, start: Building): Result<Building, ImageError> {
    if instructions == [] then Ok(start)
    else
      var last := |instructions| - 1;
      match BuiltFrom(builder, instructions[..last], start)
      case Err(error) => Err(error)
      case Ok(b) => Performed(builder, instructions[last], last, b)
  }

  function StageStart(image: Image, log: seq<Command>): Building {
    Building(BaseScope(image),
             if ValidWorkdir(image.workingDirectory) then image.workingDirectory else "/", log)
  }

  /** The context first, then each source. */
  function MountCommands(mounts: seq<Mount>): seq<Command> {
    [MountDisk(CONTEXT_DEVICE, CONTEXT_MOUNT)]
    + seq(|mounts|, k requires 0 <= k < |mounts| => MountDisk(mounts[k].device, mounts[k].path))
  }

  /** Commands sent one after the other to a fresh guest, until one fails. */
  function Sent(builder: Builder, commands: seq<Command>): Result<seq<Command>, ImageError> {
    if commands == [] then Ok([])
    else
      var last := |commands| - 1;
      match Sent(builder, commands[..last])
      case Err(error) => Err(error)
      case Ok(log) =>
        if builder.succeeds(log, commands[last]) then Ok(log + [commands[last]])
        else Err(BuildStep(builder.stage, last))
  }

  function StageRun(builder: Builder, stage: Stage, mounts: seq<Mount>, images: map<string, Image>)
    : Result<Building, ImageError>
  {
    match Sent(builder, MountCommands(mounts))
    case Err(error) => Err(error)
    case Ok(log) =>
      if stage.baseImage !in images then Err(UnknownSource(stage.baseImage))
      else BuiltFrom(builder, stage.instructions, StageStart(images[stage.baseImage], log))
  }

  function StageBuilt(guest: Guest, recipe: Recipe, stage: nat, images: map<string, Image>)
    : Result<Building, ImageError>
    requires stage < |recipe|
  {
    match Sources(recipe, stage, images.Keys, recipe[stage].instructions)
    case Err(error) => Err(error)
    case Ok(mounts) => StageRun(Builder(stage, Paths(mounts), guest), recipe[stage], mounts, images)
  }

  method RunBuildCommand(builder: Builder, index: nat, log: seq<Command>, command: Command)
    returns (r: Result<seq<Command>, ImageError>)
    ensures r == if builder.succeeds(log, command) then Ok(log + [command]) else Err(BuildStep(builder.stage, index))
  {
    if builder.succeeds(log, command) {
      return Ok(log + [command]);
    }
    return Err(BuildStep(builder.stage, index));
  }

  /** `execute_copy` */
  method ExecuteCopy(builder: Builder, copy: Copy, index: nat, b: Building)
    returns (r: Result<seq<Command>, ImageError>)
    ensures match CopyCommand(builder, copy, b)
      case Err(error) => r == Err(error)
      case Ok(command) =>
        r == if builder.succeeds(b.log, command) then Ok(b.log + [command]) else Err(BuildStep(builder.stage, index))
  {
    hide Expanded, SourcePath, Destination;
    var root := None;
    if copy.from.Some? {
      if copy.from.value !in builder.paths {
        return Err(UnknownSource(copy.from.value));
      }
      root := Some(builder.paths[copy.from.value]);
    }
    ghost var expanded := ExpandAll(copy.sources, b.scope);
    var sources: seq<string> := [];
    for k := 0 to |copy.sources|
      invariant SourcePaths(root, expanded[..k]) == Ok(sources)
    {
      assert expanded[..k + 1][..k] == expanded[..k];
      var source := SourcePath(root, Expanded(copy.sources[k], b.scope.environment, b.scope.arguments));
      if source.Err? {
        FailedPaths(root, expanded, k + 1);
        return Err(source.error);
      }
      sources := sources + [source.value];
    }
    assert expanded[..|copy.sources|] == expanded;
    var destination := Destination(b.workdir, Expanded(copy.destination, b.scope.environment, b.scope.arguments));
    r := RunBuildCommand(builder, index, b.log, CopyInto(destination, sources));
  }

  /** One round of the loop of `execute_stage_inner`. */
  method PerformInstruction(builder: Builder, instruction: Instruction, index: nat, b: Building)
    returns (r: Result<Building, ImageError>)
    ensures r == Performed(builder, instruction, index, b)
  {
    hide Expanded, CopyCommand;
    var environment, arguments := b.scope.environment, b.scope.arguments;
    match instruction
    case Workdir(directory) =>
      var log := RunBuildCommand(builder, index, b.log, MakeDirectory(directory));
      if log.Err? {
        return Err(log.error);
      }
      return Ok(Building(b.scope, directory, log.value));
    case Env(name, value) =>
      environment := environment[name := Expanded(value, environment, arguments)];
      return Ok(b.(scope := Scope(environment, arguments)));
    case Arg(name, default) =>
      var value := if default.None? then "" else Expanded(default.value, environment, arguments);
      arguments := arguments[name := value];
      return Ok(b.(scope := Scope(environment, arguments)));
    case Run(script) =>
      var log := RunBuildCommand(builder, index, b.log, Shell(script, b.workdir, environment + arguments));
      if log.Err? {
        return Err(log.error);
      }
      return Ok(b.(log := log.value));
    case CopyFiles(copy) =>
      var log := ExecuteCopy(builder, copy, index, b);
      if log.Err? {
        return Err(log.error);
      }
      return Ok(b.(log := log.value));
    case Cmd(_) =>
      return Ok(b);
  }

  lemma {:induction false} FailedPrefixFails(builder: Builder, instructions: seq<Instruction>, start: Building, n: nat)
    requires n <= |instructions| && BuiltFrom(builder, instructions[..n], start).Err?
    ensures BuiltFrom(builder, instructions, start) == BuiltFrom(builder, instructions[..n], start)
    decreases |instructions|
  {
    hide Performed;
    if n == |instructions| {
      assert instructions[..n] == instructions;
    } else {
      var init := instructions[..|instructions| - 1];
      assert init[..n] == instructions[..n];
      FailedPrefixFails(builder, init, start, n);
    }
  }

  lemma {:induction false} FailedSending(builder: Builder, commands: seq<Command>, n: nat)
    requires n <= |commands| && Sent(builder, commands[..n]).Err?
    ensures Sent(builder, commands) == Sent(builder, commands[..n])
    decreases |commands|
  {
    if n == |commands| {
      assert commands[..n] == commands;
    } else {
      var init := commands[..|commands| - 1];
      assert init[..n] == commands[..n];
      FailedSending(builder, init, n);
    }
  }

  lemma SentNext(builder: Builder, commands: seq<Command>, n: nat)
    requires n < |commands|
    ensures Sent(builder, commands[..0]) == Ok([])
    ensures Sent(builder, commands[..n]).Ok? ==>
      var log := Sent(builder, commands[..n]).value;
      Sent(builder, commands[..n + 1])
      == if builder.succeeds(log, commands[n]) then Ok(log + [commands[n]]) else Err(BuildStep(builder.stage, n))
  {
    assert commands[..n + 1][..n] == commands[..n];
  }

  /** The mounts `execute_stage_inner` starts with. */
  method MountDisks(builder: Builder, mounts: seq<Mount>) returns (r: Result<seq<Command>, ImageError>)
    ensures r == Sent(builder, MountCommands(mounts))
  {
    hide Sent;
    ghost var commands := MountCommands(mounts);
    SentNext(builder, commands, 0);
    r := RunBuildCommand(builder, 0, [], MountDisk(CONTEXT_DEVICE, CONTEXT_MOUNT));
    if r.Err? {
      FailedSending(builder, commands, 1);
      return;
    }
    for k := 0 to |mounts|
      invariant r.Ok? && Sent(builder, commands[..k + 1]) == r
    {
      SentNext(builder, commands, k + 1);
      r := RunBuildCommand(builder, k + 1, r.value, MountDisk(mounts[k].device, mounts[k].path));
      if r.Err? {
        FailedSending(builder, commands, k + 2);
        return;
      }
    }
    assert commands[..|mounts| + 1] == commands;
  }

  /** `execute_stage_inner` */
  method ExecuteStageInner(builder: Builder, stage: Stage, mounts: seq<Mount>, images: map<string, Image>)
    returns (r: Result<Building, ImageError>)
    ensures r == StageRun(builder, stage, mounts, images)
  {
    hide Performed, BaseScope, ValidWorkdir, Sent, MountCommands;
    var log := MountDisks(builder, mounts);
    if log.Err? {
      return Err(log.error);
    }
    if stage.baseImage !in images {
      return Err(UnknownSource(stage.baseImage));
    }
    var instructions := stage.instructions;
    ghost var start := StageStart(images[stage.baseImage], log.value);
    var b := StageStart(images[stage.baseImage], log.value);
    for k := 0 to |instructions|
      invariant BuiltFrom(builder, instructions[..k], start) == Ok(b)
    {
      assert instructions[..k + 1][..k] == instructions[..k];
      var next := PerformInstruction(builder, instructions[k], k, b);
      if next.Err? {
        FailedPrefixFails(builder, instructions, start, k + 1);
        return Err(next.error);
      }
      b := next.value;
    }
    assert instructions[..|instructions|] == instructions;
    return Ok(b);
  }

  /** A stage that builds ends with the environment its assignments give. */
  lemma {:induction false} BuiltScope(builder: Builder, instructions: seq<Instruction>, start: Building)
    requires BuiltFrom(builder, instructions, start).Ok?
    ensures BuiltFrom(builder, instructions, start).value.scope == ScopeAfter(instructions, start.scope)
  {
    hide Assigned, CommandFor;
    if instructions != [] {
      BuiltScope(builder, instructions[..|instructions| - 1], start);
    }
  }

  /** A built stage holds what its assignments give over its image's environment. */
  lemma StageScope(guest: Guest, recipe: Recipe, stage: nat, images: map<string, Image>)
    requires stage < |recipe| && StageBuilt(guest, recipe, stage, images).Ok?
    ensures recipe[stage].baseImage in images
    ensures StageBuilt(guest, recipe, stage, images).value.scope
         == ScopeAfter(recipe[stage].instructions, BaseScope(images[recipe[stage].baseImage]))
  {
    hide ScopeAfter, BuiltFrom, BaseScope, ValidWorkdir, Sources, Sent, MountCommands;
    var instructions := recipe[stage].instructions;
    var mounts := Sources(recipe, stage, images.Keys, instructions).value;
    var builder := Builder(stage, Paths(mounts), guest);
    BuiltScope(builder, instructions,
               StageStart(images[recipe[stage].baseImage], Sent(builder, MountCommands(mounts)).value));
  }

  /** Main result: when the last stage builds, the environment it holds is the one
      computed without building. */
  lemma FreshBuildEnvironment(guest: Guest, recipe: Recipe, images: map<string, Image>)
    requires recipe != [] && StageBuilt(guest, recipe, |recipe| - 1, images).Ok?
    ensures FinalEnvironment(recipe, images)
         == Ok(StageBuilt(guest, recipe, |recipe| - 1, images).value.scope.environment)
  {
    hide ScopeAfter, StageBuilt, BaseScope;
    StageScope(guest, recipe, |recipe| - 1, images);
  }

  /** `execute_stage` */
  method ExecuteStage(guest: Guest, recipe: Recipe, stage: nat, images: map<string, Image>)
    returns (r: Result<Building, ImageError>)
    requires stage < |recipe|
    ensures r == StageBuilt(guest, recipe, stage, images)
    ensures r.Ok? ==>
      && AllUsable(recipe, stage, images.Keys, References(recipe[stage].instructions))
      && recipe[stage].baseImage in images
      && r.value.scope == ScopeAfter(recipe[stage].instructions, BaseScope(images[recipe[stage].baseImage]))
  {
    hide StageRun, Sources, AllUsable;
    var mounts, paths := MountSources(recipe, stage, images.Keys, recipe[stage].instructions);
    if mounts.Err? {
      return Err(mounts.error);
    }
    r := ExecuteStageInner(Builder(stage, paths, guest), recipe[stage], mounts.value, images);
    SourcesExact(recipe, stage, images.Keys, recipe[stage].instructions);
    if r.Ok? {
      StageScope(guest, recipe, stage, images);
    }
  }

  /** Every command a RUN sends sees the assignments before it, ARG over ENV. */
  lemma RunSeesAssignments(builder: Builder, instructions: seq<Instruction>, start: Building, n: nat, name: string)
    requires n < |instructions| && instructions[n].Run? && BuiltFrom(builder, instructions[..n + 1], start).Ok?
    ensures var before := ScopeAfter(instructions[..n], start.scope);
      var built := BuiltFrom(builder, instructions[..n + 1], start).value;
      && built.log != [] && built.log[|built.log| - 1].Shell?
      && var seen := built.log[|built.log| - 1].environment;
         (if name in seen then seen[name] else "") == ValueOf(name, before.environment, before.arguments)
  {
    hide ScopeAfter;
    assert instructions[..n + 1][..n] == instructions[..n];
    BuiltScope(builder, instructions[..n], start);
  }

  // ------------------------------------------------------------------
  // What COPY reads and writes
  // ------------------------------------------------------------------

  predicate AbsoluteWorkdirs(instructions: seq<Instruction>) {
    forall i :: 0 <= i < |instructions| ==> instructions[i].Workdir? ==> Absolute(instructions[i].directory)
  }

  lemma {:induction false} WorkdirAbsolute(builder: Builder, instructions: seq<Instruction>, start: Building)
    requires Absolute(start.workdir) && AbsoluteWorkdirs(instructions)
    requires BuiltFrom(builder, instructions, start).Ok?
    ensures Absolute(BuiltFrom(builder, instructions, start).value.workdir)
  {
    hide CommandFor, Assigned, Absolute;
    if instructions != [] {
      WorkdirAbsolute(builder, instructions[..|instructions| - 1], start);
    }
  }

  function WorkdirAfter(instructions: seq<Instruction>, start: string): string {
    if instructions == [] then start
    else
      var last := instructions[|instructions| - 1];
      if last.Workdir? then last.directory else WorkdirAfter(instructions[..|instructions| - 1], start)
  }

  lemma {:induction false} BuiltWorkdir(builder: Builder, instructions: seq<Instruction>, start: Building)
    requires BuiltFrom(builder, instructions, start).Ok?
    ensures BuiltFrom(builder, instructions, start).value.workdir == WorkdirAfter(instructions, start.workdir)
  {
    hide CommandFor, Assigned;
    if instructions != [] {
      BuiltWorkdir(builder, instructions[..|instructions| - 1], start);
    }
  }

  /** A COPY with its texts expanded, and the directory it runs in. */
  datatype CopyStep = CopyStep(from: Option<string>, sources: seq<string>, destination: string, workdir: string)

  function StepOf(copy: Copy, s: Scope, workdir: string): CopyStep {
    CopyStep(copy.from, ExpandAll(copy.sources, s), Expanded(copy.destination, s.environment, s.arguments), workdir)
  }

  /** The COPYs of a stage as the assignments and directories before each make them. */
  function CopySteps(instructions: seq<Instruction>, s: Scope, workdir: string): seq<CopyStep> {
    if instructions == [] then []
    else
      var init, last := instructions[..|instructions| - 1], instructions[|instructions| - 1];
      CopySteps(init, s, workdir)
      + if last.CopyFiles? then [StepOf(last.copy, ScopeAfter(init, s), WorkdirAfter(init, workdir))] else []
  }

  /** What `path` reads for a source: it leads where the source does from its root. In
      the context it never leaves the root; on a mounted disk it stays exactly when the
      source does, and ends there exactly when the source returns. */
  predicate Reads(root: Option<string>, source: string, path: string) {
    match root
    case None => LeadsTo(CONTEXT_ROOT, source, path) && StaysOn(CONTEXT_ROOT, path)
    case Some(mount) =>
      && LeadsTo(mount, source, path)
      && (StaysOn(mount, path) <==> Stays(source))
      && (EndsOn(mount, path) <==> Returns(mount, source))
  }

  function RootOf(paths: map<string, string>, from: Option<string>): Option<string>
    requires from.Some? ==> from.value in paths
  {
    if from.None? then None else Some(paths[from.value])
  }

  predicate AllMountpoints(paths: map<string, string>) {
    forall r :: r in paths ==> Mountpoint(paths[r])
  }

  lemma MountPathIsMountpoint(number: nat)
    ensures Mountpoint(MountPath(number))
  {
    hide Mountpoint;
    var name := "nanoeval-source-" + Decimal(number);
    DecimalDigits(number);
    assert name[0] == 'n';
    assert MountPath(number) == "/mnt" + "/" + name;
    EndsInName("/mnt", name);
  }

  lemma MountPathsPlain(recipe: Recipe, stage: nat, images: set<string>, mounts: seq<Mount>)
    requires InOrder(recipe, stage, images, mounts)
    ensures AllMountpoints(Paths(mounts))
  {
    hide Usable, DiskOf, Paths, Mountpoint;
    PathsFrom(mounts);
    forall k | 0 <= k < |mounts|
      ensures Mountpoint(mounts[k].path)
    {
      MountPathIsMountpoint(k);
    }
  }

  lemma {:induction false} SourcesRead(root: Option<string>, sources: seq<string>)
    requires root.Some? ==> Mountpoint(root.value)
    ensures var found := SourcePaths(root, sources);
      found.Ok? ==> |found.value| == |sources|
                    && forall i :: 0 <= i < |sources| ==> Reads(root, sources[i], found.value[i])
  {
    hide Mountpoint, Reads, SourcePath;
    if sources != [] {
      SourcesRead(root, sources[..|sources| - 1]);
      SourceReads(root, sources[|sources| - 1]);
    }
  }

  lemma SourceReads(root: Option<string>, source: string)
    requires root.Some? ==> Mountpoint(root.value)
    ensures SourcePath(root, source).Ok? ==> Reads(root, source, SourcePath(root, source).value)
  {
    hide Mountpoint, SourcePath, LeadsTo, StaysOn, EndsOn, Stays, Returns;
    if root.None? {
      ContextSourceExact(source);
    } else {
      MountSourceExact(root.value, source);
    }
  }

  /** A command that copies, for each source, a path that reads it, to an absolute
      destination that is where the step's own leads from its directory. */
  predicate Serves(paths: map<string, string>, step: CopyStep, command: Command) {
    && command.CopyInto? && |command.sources| == |step.sources|
    && (step.from.Some? ==> step.from.value in paths)
    && (forall i :: 0 <= i < |step.sources| ==> Reads(RootOf(paths, step.from), step.sources[i], command.sources[i]))
    && Absolute(command.destination)
    && LeadsTo(if Absolute(step.destination) then "" else step.workdir, step.destination, command.destination)
  }

  lemma CopyServed(builder: Builder, copy: Copy, b: Building)
    requires AllMountpoints(builder.paths) && Absolute(b.workdir) && CopyCommand(builder, copy, b).Ok?
    ensures Serves(builder.paths, StepOf(copy, b.scope, b.workdir), CopyCommand(builder, copy, b).value)
  {
    hide Reads, SourcePaths, Mountpoint, LeadsTo, ExpandAll, Expanded;
    var step := StepOf(copy, b.scope, b.workdir);
    SourcesRead(RootOf(builder.paths, copy.from), step.sources);
    JoinLeads(step.workdir, step.destination);
    EmptyRoot(step.destination);
  }

  function CopiesSent(log: seq<Command>): seq<Command> {
    if log == [] then []
    else
      var last := log[|log| - 1];
      CopiesSent(log[..|log| - 1]) + if last.CopyInto? then [last] else []
  }

  lemma CopiesSentSnoc(log: seq<Command>, command: Command)
    ensures CopiesSent(log + [command]) == CopiesSent(log) + if command.CopyInto? then [command] else []
  {
    assert (log + [command])[..|log|] == log;
  }

  lemma {:induction false} NoneSent(log: seq<Command>)
    requires forall k :: 0 <= k < |log| ==> !log[k].CopyInto?
    ensures CopiesSent(log) == []
  {
    if log != [] {
      NoneSent(log[..|log| - 1]);
    }
  }

  predicate AllServed(paths: map<string, string>, steps: seq<CopyStep>, commands: seq<Command>) {
    |commands| == |steps| && forall i :: 0 <= i < |steps| ==> Serves(paths, steps[i], commands[i])
  }

  lemma {:induction false} CopiesServed(builder: Builder, instructions: seq<Instruction>, start: Building)
    requires AllMountpoints(builder.paths) && Absolute(start.workdir) && AbsoluteWorkdirs(instructions)
    requires CopiesSent(start.log) == [] && BuiltFrom(builder, instructions, start).Ok?
    ensures AllServed(builder.paths, CopySteps(instructions, start.scope, start.workdir),
                      CopiesSent(BuiltFrom(builder, instructions, start).value.log))
  {
    hide AllMountpoints, Absolute, Serves, CopyCommand, Assigned, CopiesSent, ScopeAfter, WorkdirAfter, StepOf;
    if instructions != [] {
      var init, last := instructions[..|instructions| - 1], instructions[|instructions| - 1];
      CopiesServed(builder, init, start);
      WorkdirAbsolute(builder, init, start);
      BuiltScope(builder, init, start);
      BuiltWorkdir(builder, init, start);
      var before := BuiltFrom(builder, init, start).value;
      var command := CommandFor(builder, last, before).value;
      if command.Some? {
        CopiesSentSnoc(before.log, command.value);
      }
      if last.CopyFiles? {
        CopyServed(builder, last.copy, before);
        assert command == Some(CopyCommand(builder, last.copy, before).value);
        CopyIsCopy(builder, last.copy, before);
      }
    }
  }

  lemma CopyIsCopy(builder: Builder, copy: Copy, b: Building)
    ensures CopyCommand(builder, copy, b).Ok? ==> CopyCommand(builder, copy, b).value.CopyInto?
  {
  }

  lemma {:induction false} LogGrows(builder: Builder, instructions: seq<Instruction>, start: Building)
    requires BuiltFrom(builder, instructions, start).Ok?
    ensures start.log <= BuiltFrom(builder, instructions, start).value.log
  {
    hide CommandFor, Assigned;
    if instructions != [] {
      LogGrows(builder, instructions[..|instructions| - 1], start);
    }
  }

  /** The COPYs of a stage, from where its image lets them start. */
  function StageSteps(stage: Stage, image: Image): seq<CopyStep> {
    CopySteps(stage.instructions, BaseScope(image), StageStart(image, []).workdir)
  }

  /** Main result: a built stage first mounted its sources, and the copies it then sent
      are its COPYs in order, each with one path per source that leads where the source
      does: below the context, or from the disk of its own reference. */
  lemma {:induction false} BuiltStageCopies(guest: Guest, recipe: Recipe, stage: nat, images: map<string, Image>)
    requires stage < |recipe| && AbsoluteWorkdirs(recipe[stage].instructions)
    requires StageBuilt(guest, recipe, stage, images).Ok?
    ensures recipe[stage].baseImage in images && Sources(recipe, stage, images.Keys, recipe[stage].instructions).Ok?
    ensures AllServed(Paths(Sources(recipe, stage, images.Keys, recipe[stage].instructions).value),
                      StageSteps(recipe[stage], images[recipe[stage].baseImage]),
                      CopiesSent(StageBuilt(guest, recipe, stage, images).value.log))
    ensures MountCommands(Sources(recipe, stage, images.Keys, recipe[stage].instructions).value)
         <= StageBuilt(guest, recipe, stage, images).value.log
  {
    hide AllServed, CopySteps, CopiesSent, Paths, Sources, Sent, MountCommands, BuiltFrom, AbsoluteWorkdirs, InOrder;
    hide AllMountpoints, BaseScope;
    var instructions := recipe[stage].instructions;
    var mounts := Sources(recipe, stage, images.Keys, instructions).value;
    var builder := Builder(stage, Paths(mounts), guest);
    MountedOnce(recipe, stage, images.Keys, instructions);
    MountPathsPlain(recipe, stage, images.Keys, mounts);
    SentNotUnknown(builder, MountCommands(mounts));
    MountsCopyNothing(mounts);
    var start := StageStart(images[recipe[stage].baseImage], MountCommands(mounts));
    CopiesServed(builder, instructions, start);
    LogGrows(builder, instructions, start);
  }

  /** An instruction that sends a command, with the assignments and the directory before it. */
  datatype Act = Act(instruction: Instruction, scope: Scope, workdir: string)

  predicate Sends(i: Instruction) {
    i.Run? || i.Workdir? || i.CopyFiles?
  }

  function Acts(instructions: seq<Instruction>, s: Scope, workdir: string): seq<Act> {
    if instructions == [] then []
    else
      var init, last := instructions[..|instructions| - 1], instructions[|instructions| - 1];
      Acts(init, s, workdir)
      + if Sends(last) then [Act(last, ScopeAfter(init, s), WorkdirAfter(init, workdir))] else []
  }

  /** A RUN runs its script in the directory and with the values before it; a WORKDIR
      makes its directory; a COPY copies as above. */
  ghost predicate Done(paths: map<string, string>, act: Act, command: Command) {
    match act.instruction
    case Run(script) =>
      && command.Shell? && command.script == script && command.directory == act.workdir
      && command.environment.Keys == act.scope.environment.Keys + act.scope.arguments.Keys
      && forall name :: name in command.environment ==>
           command.environment[name] == ValueOf(name, act.scope.environment, act.scope.arguments)
    case Workdir(directory) => command == MakeDirectory(directory)
    case CopyFiles(copy) => Serves(paths, StepOf(copy, act.scope, act.workdir), command)
    case _ => false
  }

  ghost predicate AllDone(paths: map<string, string>, acts: seq<Act>, commands: seq<Command>) {
    |commands| == |acts| && forall i :: 0 <= i < |acts| ==> Done(paths, acts[i], commands[i])
  }

  lemma CommandDone(builder: Builder, i: Instruction, b: Building)
    requires AllMountpoints(builder.paths) && Absolute(b.workdir) && CommandFor(builder, i, b).Ok?
    ensures var command := CommandFor(builder, i, b).value;
      if Sends(i) then command.Some? && Done(builder.paths, Act(i, b.scope, b.workdir), command.value)
      else command.None?
  {
    hide AllMountpoints, Absolute, Serves, CopyCommand, StepOf;
    if i.CopyFiles? {
      CopyServed(builder, i.copy, b);
    }
  }

  lemma AllDoneNext(paths: map<string, string>, acts: seq<Act>, commands: seq<Command>, act: Act, command: Command)
    requires AllDone(paths, acts, commands) && Done(paths, act, command)
    ensures AllDone(paths, acts + [act], commands + [command])
  {
    hide Done;
  }

  lemma {:induction false} ActsDone(builder: Builder, instructions: seq<Instruction>, start: Building)
    returns (sent: seq<Command>)
    requires AllMountpoints(builder.paths) && Absolute(start.workdir) && AbsoluteWorkdirs(instructions)
    requires BuiltFrom(builder, instructions, start).Ok?
    ensures BuiltFrom(builder, instructions, start).value.log == start.log + sent
    ensures AllDone(builder.paths, Acts(instructions, start.scope, start.workdir), sent)
  {
    hide AllMountpoints, Absolute, Done, CommandFor, Assigned, ScopeAfter, WorkdirAfter, Sends, AllDone;
    if instructions == [] {
      sent := [];
      NothingDone(builder.paths);
      assert start.log + [] == start.log;
    } else {
      var init, last := instructions[..|instructions| - 1], instructions[|instructions| - 1];
      sent := ActsDone(builder, init, start);
      WorkdirAbsolute(builder, init, start);
      BuiltScope(builder, init, start);
      BuiltWorkdir(builder, init, start);
      var before := BuiltFrom(builder, init, start).value;
      CommandDone(builder, last, before);
      var command := CommandFor(builder, last, before).value;
      if command.Some? {
        AllDoneNext(builder.paths, Acts(init, start.scope, start.workdir), sent,
                    Act(last, before.scope, before.workdir), command.value);
        assert start.log + (sent + [command.value]) == before.log + [command.value];
        sent := sent + [command.value];
      } else {
        assert Acts(init, start.scope, start.workdir) + [] == Acts(init, start.scope, start.workdir);
      }
    }
  }

  lemma NothingDone(paths: map<string, string>)
    ensures AllDone(paths, [], [])
  {
  }

  /** Main result: after the mounts, the commands a built stage sent are those of its RUNs,
      WORKDIRs and COPYs, in order. */
  lemma {:induction false} BuiltStageCommands(guest: Guest, recipe: Recipe, stage: nat, images: map<string, Image>)
    requires stage < |recipe| && AbsoluteWorkdirs(recipe[stage].instructions)
    requires StageBuilt(guest, recipe, stage, images).Ok?
    ensures recipe[stage].baseImage in images && Sources(recipe, stage, images.Keys, recipe[stage].instructions).Ok?
    ensures var mounts := Sources(recipe, stage, images.Keys, recipe[stage].instructions).value;
      var image := images[recipe[stage].baseImage];
      var directory := if ValidWorkdir(image.workingDirectory) then image.workingDirectory else "/";
      var log := StageBuilt(guest, recipe, stage, images).value.log;
      && MountCommands(mounts) <= log && |MountCommands(mounts)| == |mounts| + 1
      && log[0] == MountDisk("/dev/vdc", "/mnt/nanoeval-context")
      && (forall k :: 0 <= k < |mounts| ==> log[k + 1] == MountDisk(mounts[k].device, mounts[k].path))
      && AllDone(Paths(mounts), Acts(recipe[stage].instructions, BaseScope(image), directory),
                 log[|MountCommands(mounts)|..])
  {
    hide AllDone, Acts, Paths, Sources, Sent, MountCommands, BuiltFrom, AbsoluteWorkdirs, InOrder;
    hide AllMountpoints, BaseScope;
    var instructions := recipe[stage].instructions;
    var mounts := Sources(recipe, stage, images.Keys, instructions).value;
    var builder := Builder(stage, Paths(mounts), guest);
    MountedOnce(recipe, stage, images.Keys, instructions);
    MountPathsPlain(recipe, stage, images.Keys, mounts);
    SentNotUnknown(builder, MountCommands(mounts));
    var sent := ActsDone(builder, instructions, StageStart(images[recipe[stage].baseImage], MountCommands(mounts)));
    assert (MountCommands(mounts) + sent)[|MountCommands(mounts)|..] == sent;
    MountsInOrder(mounts);
  }

  /** Every command of the log succeeds after those before it. */
  ghost predicate Accepted(guest: Guest, log: seq<Command>) {
    forall j :: 0 <= j < |log| ==> guest(log[..j], log[j])
  }

  lemma AcceptedNext(guest: Guest, log: seq<Command>, command: Command)
    requires Accepted(guest, log) && guest(log, command)
    ensures Accepted(guest, log + [command])
  {
    var longer := log + [command];
    assert longer[..|log|] == log;
    assert forall j :: 0 <= j < |log| ==> longer[..j] == log[..j];
  }

  ghost predicate RefusedAt(guest: Guest, commands: seq<Command>, n: nat) {
    n < |commands| && Accepted(guest, commands[..n]) && !guest(commands[..n], commands[n])
  }

  lemma {:induction false} SentAccepted(builder: Builder, commands: seq<Command>)
    ensures var r := Sent(builder, commands);
      if r.Ok? then r.value == commands && Accepted(builder.succeeds, commands)
      else exists n: nat :: RefusedAt(builder.succeeds, commands, n) && r.error == BuildStep(builder.stage, n)
  {
    hide Accepted;
    if commands == [] {
      NothingRefused(builder.succeeds);
    } else {
      var last := |commands| - 1;
      var init := commands[..last];
      SentAccepted(builder, init);
      assert commands == init + [commands[last]];
      if Sent(builder, init).Ok? {
        if builder.succeeds(init, commands[last]) {
          AcceptedNext(builder.succeeds, init, commands[last]);
        } else {
          assert RefusedAt(builder.succeeds, commands, last);
        }
      } else {
        var n: nat :| RefusedAt(builder.succeeds, init, n) && Sent(builder, init).error == BuildStep(builder.stage, n);
        assert init[..n] == commands[..n];
        assert RefusedAt(builder.succeeds, commands, n);
      }
    }
  }

  lemma NothingRefused(guest: Guest)
    ensures Accepted(guest, [])
  {
  }

  lemma {:induction false} BuiltAccepted(builder: Builder, instructions: seq<Instruction>, start: Building)
    requires Accepted(builder.succeeds, start.log) && BuiltFrom(builder, instructions, start).Ok?
    ensures Accepted(builder.succeeds, BuiltFrom(builder, instructions, start).value.log)
  {
    hide Accepted, Assigned, CommandFor;
    if instructions != [] {
      var init, last := instructions[..|instructions| - 1], instructions[|instructions| - 1];
      BuiltAccepted(builder, init, start);
      var before := BuiltFrom(builder, init, start).value;
      var command := CommandFor(builder, last, before).value;
      if command.Some? {
        AcceptedNext(builder.succeeds, before.log, command.value);
      }
    }
  }

  /** The guest refuses `command`, that of instruction `n`, when those before it are done. */
  ghost predicate Refused(guest: Guest, paths: map<string, string>, instructions: seq<Instruction>, start: Building,
      n: nat, sent: seq<Command>, command: Command)
  {
    && n < |instructions| && Sends(instructions[n])
    && AllDone(paths, Acts(instructions[..n], start.scope, start.workdir), sent)
    && Done(paths, Act(instructions[n], ScopeAfter(instructions[..n], start.scope),
                       WorkdirAfter(instructions[..n], start.workdir)), command)
    && Accepted(guest, start.log + sent) && !guest(start.log + sent, command)
  }

  lemma {:induction false} FailedDoing(builder: Builder, instructions: seq<Instruction>, start: Building)
    requires AllMountpoints(builder.paths) && Absolute(start.workdir) && AbsoluteWorkdirs(instructions)
    requires Accepted(builder.succeeds, start.log)
    requires BuiltFrom(builder, instructions, start).Err? && BuiltFrom(builder, instructions, start).error.BuildStep?
    ensures var error := BuiltFrom(builder, instructions, start).error;
      error.stage == builder.stage && exists sent, command ::
        Refused(builder.succeeds, builder.paths, instructions, start, error.instruction, sent, command)
  {
    hide Accepted, AllDone, Acts, Done, ScopeAfter, WorkdirAfter, Absolute, AllMountpoints, CommandFor, Assigned, Sends;
    var last := |instructions| - 1;
    var init := instructions[..last];
    var error := BuiltFrom(builder, instructions, start).error;
    if BuiltFrom(builder, init, start).Err? {
      FailedDoing(builder, init, start);
      var sent, command :|
        Refused(builder.succeeds, builder.paths, init, start, error.instruction, sent, command);
      assert init[..error.instruction] == instructions[..error.instruction];
      assert Refused(builder.succeeds, builder.paths, instructions, start, error.instruction, sent, command);
    } else {
      var before := BuiltFrom(builder, init, start).value;
      var sent := ActsDone(builder, init, start);
      BuiltAccepted(builder, init, start);
      WorkdirAbsolute(builder, init, start);
      BuiltScope(builder, init, start);
      BuiltWorkdir(builder, init, start);
      NoBuildStep(builder, instructions[last], before);
      CommandDone(builder, instructions[last], before);
      var command := CommandFor(builder, instructions[last], before).value.value;
      assert Refused(builder.succeeds, builder.paths, instructions, start, last, sent, command);
    }
  }

  lemma NoBuildStep(builder: Builder, i: Instruction, b: Building)
    ensures CommandFor(builder, i, b).Err? ==> !CommandFor(builder, i, b).error.BuildStep?
  {
    if i.CopyFiles? && (i.copy.from.Some? ==> i.copy.from.value in builder.paths) {
      var root := if i.copy.from.None? then None else Some(builder.paths[i.copy.from.value]);
      PathsNoBuildStep(root, ExpandAll(i.copy.sources, b.scope));
    }
  }

  lemma {:induction false} PathsNoBuildStep(root: Option<string>, sources: seq<string>)
    ensures SourcePaths(root, sources).Err? ==> !SourcePaths(root, sources).error.BuildStep?
  {
    if sources != [] {
      PathsNoBuildStep(root, sources[..|sources| - 1]);
    }
  }

  /** Main result: a stage fails at a step exactly when the guest refuses a mount, or the
      command of an instruction after all before it were done; the error names this stage
      and that mount or instruction. In a built stage the guest took every command. */
  lemma {:induction false} FailedStep(guest: Guest, recipe: Recipe, stage: nat, images: map<string, Image>)
    requires stage < |recipe| && AbsoluteWorkdirs(recipe[stage].instructions)
    ensures var r := StageBuilt(guest, recipe, stage, images);
      && (r.Ok? ==> Accepted(guest, r.value.log))
      && (r.Err? && r.error.BuildStep? ==>
            && r.error.stage == stage && Sources(recipe, stage, images.Keys, recipe[stage].instructions).Ok?
            && var mounts := Sources(recipe, stage, images.Keys, recipe[stage].instructions).value;
               (RefusedAt(guest, MountCommands(mounts), r.error.instruction)
                || (recipe[stage].baseImage in images
                    && exists sent, command ::
                         Refused(guest, Paths(mounts), recipe[stage].instructions,
                                 StageStart(images[recipe[stage].baseImage], MountCommands(mounts)),
                                 r.error.instruction, sent, command))))
  {
    hide AllDone, Acts, Paths, Sent, MountCommands, BuiltFrom, AbsoluteWorkdirs, InOrder, Accepted, Refused, RefusedAt;
    hide AllMountpoints, BaseScope, Sources;
    var instructions := recipe[stage].instructions;
    var sources := Sources(recipe, stage, images.Keys, instructions);
    if sources.Ok? {
      var mounts := sources.value;
      var builder := Builder(stage, Paths(mounts), guest);
      MountedOnce(recipe, stage, images.Keys, instructions);
      MountPathsPlain(recipe, stage, images.Keys, mounts);
      SentAccepted(builder, MountCommands(mounts));
      if Sent(builder, MountCommands(mounts)).Ok? && recipe[stage].baseImage in images {
        var start := StageStart(images[recipe[stage].baseImage], MountCommands(mounts));
        var built := BuiltFrom(builder, instructions, start);
        if built.Ok? {
          BuiltAccepted(builder, instructions, start);
        } else if built.error.BuildStep? {
          FailedDoing(builder, instructions, start);
        }
      }
    } else {
      SourcesNoBuildStep(recipe, stage, images.Keys);
    }
  }

  lemma SourcesNoBuildStep(recipe: Recipe, stage: nat, images: set<string>)
    requires stage < |recipe| && Sources(recipe, stage, images, recipe[stage].instructions).Err?
    ensures !Sources(recipe, stage, images, recipe[stage].instructions).error.BuildStep?
  {
    hide Sources;
    FirstFailure(recipe, stage, images, recipe[stage].instructions);
  }

  lemma MountsInOrder(mounts: seq<Mount>)
    ensures var commands := MountCommands(mounts);
      && |commands| == |mounts| + 1 && commands[0] == MountDisk("/dev/vdc", "/mnt/nanoeval-context")
      && forall k :: 0 <= k < |mounts| ==> commands[k + 1] == MountDisk(mounts[k].device, mounts[k].path)
  {
  }

  lemma {:induction false} WorkdirIsLast(instructions: seq<Instruction>, start: string, i: nat)
    requires i < |instructions| && instructions[i].Workdir?
    requires forall j :: i < j < |instructions| ==> !instructions[j].Workdir?
    ensures WorkdirAfter(instructions, start) == instructions[i].directory
  {
    if i < |instructions| - 1 {
      WorkdirIsLast(instructions[..|instructions| - 1], start, i);
    }
  }

  lemma {:induction false} WorkdirIsStart(instructions: seq<Instruction>, start: string)
    requires forall j :: 0 <= j < |instructions| ==> !instructions[j].Workdir?
    ensures WorkdirAfter(instructions, start) == start
  {
    if instructions != [] {
      WorkdirIsStart(instructions[..|instructions| - 1], start);
    }
  }

  /** Every path a copy reads stays on the disk its reference is mounted from, or in the context. */
  predicate KeepToDisks(paths: map<string, string>, steps: seq<CopyStep>, commands: seq<Command>)
    requires AllServed(paths, steps, commands)
  {
    forall i :: 0 <= i < |steps| ==> KeepsToDisk(RootOf(paths, steps[i].from), commands[i].sources)
  }

  predicate KeepsToDisk(root: Option<string>, sources: seq<string>) {
    forall j :: 0 <= j < |sources| ==> StaysOn(if root.None? then CONTEXT_ROOT else root.value, sources[j])
  }

  predicate AllStay(sources: seq<string>) {
    forall j :: 0 <= j < |sources| ==> Stays(sources[j])
  }

  predicate AllStepsStay(steps: seq<CopyStep>) {
    forall i :: 0 <= i < |steps| && steps[i].from.Some? ==> AllStay(steps[i].sources)
  }

  lemma {:induction false} CopiesStayExactly(paths: map<string, string>, steps: seq<CopyStep>, commands: seq<Command>)
    requires AllServed(paths, steps, commands)
    ensures KeepToDisks(paths, steps, commands) <==> AllStepsStay(steps)
  {
    hide KeepsToDisk, AllStay, LeadsTo;
    forall i | 0 <= i < |steps|
      ensures KeepsToDisk(RootOf(paths, steps[i].from), commands[i].sources)
         <==> (steps[i].from.Some? ==> AllStay(steps[i].sources))
    {
      CopyStaysExactly(paths, steps[i], commands[i]);
    }
  }

  lemma CopyStaysExactly(paths: map<string, string>, step: CopyStep, command: Command)
    requires Serves(paths, step, command)
    ensures KeepsToDisk(RootOf(paths, step.from), command.sources)
       <==> (step.from.Some? ==> AllStay(step.sources))
  {
    hide LeadsTo, StaysOn, EndsOn, Stays, Returns;
    var root := RootOf(paths, step.from);
    assert forall j :: 0 <= j < |step.sources| ==> Reads(root, step.sources[j], command.sources[j]);
  }

  /** Main result: all copies of a built stage stay on their own disks exactly when no
      source of a COPY from a stage or an image has, at any point, more `..` than names. */
  lemma {:induction false} StageKeepsToDisks(guest: Guest, recipe: Recipe, stage: nat, images: map<string, Image>)
    requires stage < |recipe| && AbsoluteWorkdirs(recipe[stage].instructions)
    requires StageBuilt(guest, recipe, stage, images).Ok?
    ensures var paths := Paths(Sources(recipe, stage, images.Keys, recipe[stage].instructions).value);
      var commands := CopiesSent(StageBuilt(guest, recipe, stage, images).value.log);
      && recipe[stage].baseImage in images
      && var steps := StageSteps(recipe[stage], images[recipe[stage].baseImage]);
         AllServed(paths, steps, commands) && (KeepToDisks(paths, steps, commands) <==> AllStepsStay(steps))
  {
    hide AllServed, KeepToDisks, AllStepsStay, StageSteps, CopiesSent, Paths, Sources, StageBuilt, AbsoluteWorkdirs;
    BuiltStageCopies(guest, recipe, stage, images);
    CopiesStayExactly(Paths(Sources(recipe, stage, images.Keys, recipe[stage].instructions).value),
                      StageSteps(recipe[stage], images[recipe[stage].baseImage]),
                      CopiesSent(StageBuilt(guest, recipe, stage, images).value.log));
  }

  const CLIMBING_COPY: Copy := Copy(Some("0"), ["../x"], "/y")

  /** A recipe whose COPY from its first stage climbs out of that stage's disk. */
  const CLIMBING_RECIPE: Recipe := [Stage("i", None, []), Stage("i", None, [CopyFiles(CLIMBING_COPY)])]

  lemma ClimbingWellFormed()
    ensures WellFormed(CLIMBING_RECIPE)
  {
  }

  lemma ClimbingMounts(images: set<string>)
    ensures var r := Sources(CLIMBING_RECIPE, 1, images, CLIMBING_RECIPE[1].instructions);
      r.Ok? && Paths(r.value) == map["0" := MountPath(0)]
  {
    hide MountPath;
    var instructions := CLIMBING_RECIPE[1].instructions;
    assert instructions[..0] == [] && Sources(CLIMBING_RECIPE, 1, images, []) == Ok([]);
    assert Value("0") == 0 by {
      assert "0"[..0] == "";
    }
    assert StageNumber("0") == Some(0);
    var mount := MountAt(CLIMBING_RECIPE, 1, images, "0", 0).value;
    assert Sources(CLIMBING_RECIPE, 1, images, instructions) == Ok([] + [mount]);
    PathsSnoc([], mount);
  }

  lemma ClimbingStep(image: Image)
    ensures var steps := StageSteps(CLIMBING_RECIPE[1], image);
      |steps| == 1 && steps[0].from == Some("0") && steps[0].sources == ["../x"]
  {
    hide Expanded, ScopeAfter, BaseScope, WorkdirAfter, ValidWorkdir;
    var start, workdir := BaseScope(image), StageStart(image, []).workdir;
    var instructions, s := CLIMBING_RECIPE[1].instructions, ScopeAfter([], start);
    assert instructions[..0] == [] && CopySteps([], start, workdir) == [];
    assert CopySteps(instructions, start, workdir) == [] + [StepOf(CLIMBING_COPY, s, WorkdirAfter([], workdir))];
    UnchangedExactly("../x", s.environment, s.arguments);
    assert ExpandAll(["../x"], s) == ["../x"];
  }

  lemma ClimbsOnce()
    ensures !Stays("../x") && !Returns(MountPath(0), "../x")
  {
    hide MountPath;
    SegmentsAt("..", "x");
    SegmentsAlone("x");
    var c := ["..", "x"];
    assert ".." + "/" + "x" == "../x" && Segments("../x") == c;
    assert c[..1] == [".."] && [".."][..0] == [];
    assert Ups(c[..1]) == 1 && Names(c[..1]) == 0;
    assert Climb(c) == 1 && Resolved(c) == ["x"];
    MountPathEnds();
  }

  lemma MountPathEnds()
    ensures var r := Resolved(Segments(MountPath(0)));
      r != [] && r[|r| - 1] == "nanoeval-source-0"
  {
    hide Resolved, Segments;
    assert MountPath(0) == "/mnt" + "/" + "nanoeval-source-0";
    EndsInName("/mnt", "nanoeval-source-0");
  }

  lemma ClimbingBuilds(guest: Guest, images: map<string, Image>)
    requires "i" in images && forall log, c :: guest(log, c)
    ensures StageBuilt(guest, CLIMBING_RECIPE, 1, images).Ok?
  {
    hide Sources, Paths, MountPath, SourcePath, Expanded, ExpandAll, BaseScope, MountCommands;
    var instructions := CLIMBING_RECIPE[1].instructions;
    ClimbingMounts(images.Keys);
    var mounts := Sources(CLIMBING_RECIPE, 1, images.Keys, instructions).value;
    var builder := Builder(1, Paths(mounts), guest);
    AllSent(builder, MountCommands(mounts));
    var start := StageStart(images["i"], Sent(builder, MountCommands(mounts)).value);
    MountedSourcesRead(MountPath(0), ExpandAll(["../x"], start.scope));
    assert instructions[..0] == [] && BuiltFrom(builder, [], start) == Ok(start);
  }

  lemma {:induction false} AllSent(builder: Builder, commands: seq<Command>)
    requires forall log, c :: builder.succeeds(log, c)
    ensures Sent(builder, commands).Ok?
  {
    if commands != [] {
      AllSent(builder, commands[..|commands| - 1]);
    }
  }

  lemma {:induction false} MountedSourcesRead(mount: string, sources: seq<string>)
    ensures SourcePaths(Some(mount), sources).Ok?
  {
    if sources != [] {
      MountedSourcesRead(mount, sources[..|sources| - 1]);
    }
  }

  /** The condition can fail: the recipe builds whenever its commands succeed, and its
      one copy reads a path that neither stays nor ends on the mounted disk. */
  lemma CopyLeavesDisk(guest: Guest, images: map<string, Image>)
    requires "i" in images && forall log, c :: guest(log, c)
    ensures WellFormed(CLIMBING_RECIPE) && StageBuilt(guest, CLIMBING_RECIPE, 1, images).Ok?
    ensures var commands := CopiesSent(StageBuilt(guest, CLIMBING_RECIPE, 1, images).value.log);
      && |commands| == 1 && commands[0].CopyInto? && |commands[0].sources| == 1
      && !StaysOn(MountPath(0), commands[0].sources[0]) && !EndsOn(MountPath(0), commands[0].sources[0])
  {
    hide StageBuilt, CopiesSent, Sources, Paths, StageSteps, MountPath, LeadsTo, StaysOn, EndsOn, Stays, Returns;
    ClimbingWellFormed();
    ClimbingBuilds(guest, images);
    ClimbingMounts(images.Keys);
    ClimbingStep(images["i"]);
    ClimbsOnce();
    BuiltStageCopies(guest, CLIMBING_RECIPE, 1, images);
    var command := CopiesSent(StageBuilt(guest, CLIMBING_RECIPE, 1, images).value.log)[0];
    assert Reads(Some(MountPath(0)), "../x", command.sources[0]);
  }

  lemma MountsCopyNothing(mounts: seq<Mount>)
    ensures CopiesSent(MountCommands(mounts)) == []
  {
    NoneSent(MountCommands(mounts));
  }

  /** Once its sources are mounted, no COPY of a stage has an unknown one. */
  lemma {:induction false} MountedCopiesKnown(builder: Builder, instructions: seq<Instruction>, start: Building)
    requires References(instructions) <= builder.paths.Keys
    ensures var r := BuiltFrom(builder, instructions, start); r.Err? ==> !r.error.UnknownSource?
  {
    hide Expanded, SourcePath, References;
    if instructions != [] {
      var init, last := instructions[..|instructions| - 1], instructions[|instructions| - 1];
      ReferencesSnoc(instructions);
      MountedCopiesKnown(builder, init, start);
      if BuiltFrom(builder, init, start).Ok? && last.CopyFiles? {
        var b := BuiltFrom(builder, init, start).value;
        SourcesNotUnknown(if last.copy.from.None? then None else Some(builder.paths[last.copy.from.value]),
                          ExpandAll(last.copy.sources, b.scope));
      }
    }
  }

  lemma {:induction false} SourcesNotUnknown(root: Option<string>, sources: seq<string>)
    ensures var r := SourcePaths(root, sources); r.Err? ==> r.error.MissingSource?
  {
    if sources != [] {
      SourcesNotUnknown(root, sources[..|sources| - 1]);
    }
  }

  lemma {:induction false} SentNotUnknown(builder: Builder, commands: seq<Command>)
    ensures var r := Sent(builder, commands); if r.Err? then r.error.BuildStep? else r.value == commands
  {
    if commands != [] {
      SentNotUnknown(builder, commands[..|commands| - 1]);
    }
  }

  ghost predicate NamesLaterStage(recipe: Recipe, stage: nat, reference: string)
    requires stage < |recipe|
  {
    && reference in References(recipe[stage].instructions)
    && ResolveStage(recipe, reference).Some? && ResolveStage(recipe, reference).value >= stage
  }

  /** Main result: with the images the recipe needs, a stage fails for an unknown
      source exactly when one of its COPYs names a stage not built before, unless the
      devices run out first; and then it names such a reference. */
  lemma UnknownSourceExact(guest: Guest, recipe: Recipe, stage: nat, images: map<string, Image>)
    requires stage < |recipe| && forall reference :: reference in images <==> Needed(recipe, reference)
    ensures var r := StageBuilt(guest, recipe, stage, images);
      && (r.Err? && r.error.UnknownSource? ==> NamesLaterStage(recipe, stage, r.error.reference))
      && (forall reference :: NamesLaterStage(recipe, stage, reference) ==>
            r.Err? && (r.error.UnknownSource? || r.error == Unsupported(TOO_MANY)))
  {
    hide ResolveStage, References, Needed, BuiltFrom, Sources, Sent, MountCommands, Paths;
    var instructions := recipe[stage].instructions;
    var sources := Sources(recipe, stage, images.Keys, instructions);
    UnknownIsLaterStage(recipe, stage, images.Keys);
    SourcesExact(recipe, stage, images.Keys, instructions);
    if sources.Err? {
      FirstFailure(recipe, stage, images.Keys, instructions);
    } else {
      var builder := Builder(stage, Paths(sources.value), guest);
      MountsApart(recipe, stage, images.Keys, instructions);
      SentNotUnknown(builder, MountCommands(sources.value));
      if Sent(builder, MountCommands(sources.value)).Ok? {
        MountedCopiesKnown(builder, instructions,
                           StageStart(images[recipe[stage].baseImage], MountCommands(sources.value)));
      }
    }
  }

  /** A stage of a build: its image is looked up before its sources. */
  function StageDone(guest: Guest, recipe: Recipe, stage: nat, images: map<string, Image>): Result<Building, ImageError>
    requires stage < |recipe|
  {
    if recipe[stage].baseImage !in images then Err(UnknownSource(recipe[stage].baseImage))
    else StageBuilt(guest, recipe, stage, images)
  }

  ghost predicate FirstToFail(recipe: Recipe, images: map<string, Image>, guests: nat -> Guest, stage: nat,
      error: ImageError)
  {
    && stage < |recipe| && StageDone(guests(stage), recipe, stage, images) == Err(error)
    && forall i :: 0 <= i < stage ==> StageDone(guests(i), recipe, i, images).Ok?
  }

  ghost predicate AllBuild(recipe: Recipe, images: map<string, Image>, guests: nat -> Guest) {
    forall i :: 0 <= i < |recipe| ==>
      recipe[i].baseImage in images && StageBuilt(guests(i), recipe, i, images).Ok?
  }

  /** The loop of `prepare_built_disk`; each stage is built by its own guest. */
  method BuildStages(recipe: Recipe, images: map<string, Image>, guests: nat -> Guest) returns (r: Option<ImageError>)
    ensures r.None? ==> forall i :: 0 <= i < |recipe| ==> StageDone(guests(i), recipe, i, images).Ok?
    ensures r.None? <==> AllBuild(recipe, images, guests)
    ensures r.Some? ==> exists stage :: FirstToFail(recipe, images, guests, stage, r.value)
  {
    hide StageBuilt, AllUsable, References, ScopeAfter, BaseScope;
    for i := 0 to |recipe|
      invariant forall j :: 0 <= j < i ==> StageDone(guests(j), recipe, j, images).Ok?
    {
      if recipe[i].baseImage !in images {
        assert FirstToFail(recipe, images, guests, i, UnknownSource(recipe[i].baseImage));
        return Some(UnknownSource(recipe[i].baseImage));
      }
      var built := ExecuteStage(guests(i), recipe, i, images);
      if built.Err? {
        assert FirstToFail(recipe, images, guests, i, built.error);
        return Some(built.error);
      }
    }
    forall i | 0 <= i < |recipe|
      ensures recipe[i].baseImage in images && StageBuilt(guests(i), recipe, i, images).Ok?
    {
      assert StageDone(guests(i), recipe, i, images).Ok?;
    }
    return None;
  }

  /** `prepare_built_disk`, from where the cache key is known. `diskExists` tells
      whether the built disk is there. */
  method PrepareBuiltDisk(recipe: Recipe, images: map<string, Image>, diskExists: bool, guests: nat -> Guest)
    returns (r: Result<Variables, ImageError>, hit: bool)
    ensures hit <==> diskExists && FinalEnvironment(recipe, images).Ok?
    ensures r.Ok? || hit || FinalEnvironment(recipe, images).Err? ==> r == FinalEnvironment(recipe, images)
    ensures r.Ok? && !hit ==>
      recipe != [] && (forall i :: 0 <= i < |recipe| ==> StageDone(guests(i), recipe, i, images).Ok?)
      && StageDone(guests(|recipe| - 1), recipe, |recipe| - 1, images).value.scope.environment == r.value
    ensures FinalEnvironment(recipe, images).Ok? ==> (r.Ok? <==> hit || AllBuild(recipe, images, guests))
    ensures r.Err? && FinalEnvironment(recipe, images).Ok? ==>
      exists stage :: FirstToFail(recipe, images, guests, stage, r.error)
  {
    hide StageBuilt, ScopeAfter, BaseScope, FirstToFail, AllBuild;
    var environment := FinalRecipeEnvironment(recipe, images);
    if environment.Err? {
      return Err(environment.error), false;
    }
    if diskExists {
      return Ok(environment.value), true;
    }
    var failure := BuildStages(recipe, images, guests);
    if failure.Some? {
      return Err(failure.value), false;
    }
    FreshBuildEnvironment(guests(|recipe| - 1), recipe, images);
    return Ok(environment.value), false;
  }

  // ------------------------------------------------------------------
  // The working directory of a prepared disk
  // ------------------------------------------------------------------

  /** `final_workdir`: the last WORKDIR of the final stage, or the root. */
  function FinalWorkdir(recipe: Recipe): string {
    if recipe == [] then "/" else WorkdirAfter(recipe[|recipe| - 1].instructions, "/")
  }

  predicate SetsWorkdir(instructions: seq<Instruction>) {
    exists i :: 0 <= i < |instructions| && instructions[i].Workdir?
  }

  lemma {:induction false} WorkdirForgetsStart(instructions: seq<Instruction>, a: string, b: string)
    requires a != b
    ensures WorkdirAfter(instructions, a) == WorkdirAfter(instructions, b) <==> SetsWorkdir(instructions)
  {
    if instructions != [] {
      var init, last := instructions[..|instructions| - 1], instructions[|instructions| - 1];
      WorkdirForgetsStart(init, a, b);
      if last.Workdir? {
        assert instructions[|init|].Workdir?;
      } else {
        assert forall i :: 0 <= i < |init| ==> instructions[i] == init[i];
      }
    }
  }

  /** Main result: a prepared disk names the directory its build ended in exactly when
      the final stage sets one, or its image's is the root or not a valid one. */
  lemma FinalWorkdirExact(guest: Guest, recipe: Recipe, images: map<string, Image>)
    requires recipe != [] && StageBuilt(guest, recipe, |recipe| - 1, images).Ok?
    ensures var stage := recipe[|recipe| - 1];
      && stage.baseImage in images
      && var directory := images[stage.baseImage].workingDirectory;
         (FinalWorkdir(recipe) == StageBuilt(guest, recipe, |recipe| - 1, images).value.workdir
          <==> SetsWorkdir(stage.instructions) || directory == "/" || !ValidWorkdir(directory))
  {
    hide BuiltFrom, BaseScope, ValidWorkdir, Sources, Sent, MountCommands, SetsWorkdir, WorkdirAfter;
    var last := |recipe| - 1;
    var stage := recipe[last];
    var mounts := Sources(recipe, last, images.Keys, stage.instructions).value;
    var builder := Builder(last, Paths(mounts), guest);
    var start := StageStart(images[stage.baseImage], Sent(builder, MountCommands(mounts)).value);
    BuiltWorkdir(builder, stage.instructions, start);
    if start.workdir != "/" {
      WorkdirForgetsStart(stage.instructions, start.workdir, "/");
    }
  }

  const RUN_ONLY: Recipe := [Stage("i", None, [Run("true")])]

  /** They can differ: in an image that starts in `/app`, a stage of one RUN ends there. */
  lemma WorkdirsDiffer(guest: Guest, images: map<string, Image>)
    requires "i" in images && images["i"].workingDirectory == "/app" && forall log, c :: guest(log, c)
    ensures WellFormed(RUN_ONLY) && StageBuilt(guest, RUN_ONLY, 0, images).Ok?
    ensures StageBuilt(guest, RUN_ONLY, 0, images).value.workdir == "/app" && FinalWorkdir(RUN_ONLY) == "/"
  {
    hide BaseScope, MountCommands, Sent;
    var instructions := RUN_ONLY[0].instructions;
    assert instructions[..0] == [];
    assert Sources(RUN_ONLY, 0, images.Keys, []) == Ok([]);
    assert Sources(RUN_ONLY, 0, images.Keys, instructions) == Ok([]);
    var builder := Builder(0, Paths([]), guest);
    AllSent(builder, MountCommands([]));
    SegmentsAt("", "app");
    SegmentsAlone("app");
    assert "" + "/" + "app" == "/app" && ValidWorkdir("/app");
    var start := StageStart(images["i"], Sent(builder, MountCommands([])).value);
    assert BuiltFrom(builder, [], start) == Ok(start);
  }

  // ------------------------------------------------------------------
  // Parsed recipes
  // ------------------------------------------------------------------

  predicate AllAbsolute(recipe: Recipe) {
    forall s :: 0 <= s < |recipe| ==> AbsoluteWorkdirs(recipe[s].instructions)
  }

  /** Every working directory of a parsed recipe is absolute, as `BuiltStageCopies` needs. */
  lemma ParsedAbsolute(dockerfile: string)
    ensures Parsing(dockerfile).Ok? ==> AllAbsolute(Parsing(dockerfile).value)
  {
    hide Parsing, Identifier, Token, HasUp, Blank;
    ParsedIsAllowed(dockerfile);
    if Parsing(dockerfile).Ok? {
      assert forall s :: 0 <= s < |Parsing(dockerfile).value| ==> AllowedStage(Parsing(dockerfile).value[s]);
    }
  }
}
