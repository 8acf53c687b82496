/** What COPY reads while a stage is built: the stages and images it can name, and the
    disks they are mounted from. */
module BuildSources {
  import opened Common
  import opened Text
  import opened Dockerfile

  // ------------------------------------------------------------------
  // Stages and images by reference
  // ------------------------------------------------------------------

  function Unsigned(reference: string): string {
    if reference != "" && reference[0] == '+' then reference[1..] else reference
  }

  /** `parse::<usize>()`: digits after an optional plus sign. */
  function StageNumber(reference: string): Option<nat> {
    var digits := Unsigned(reference);
    if digits == "" || !AllDigits(digits) || Value(digits) >= U64 then None else Some(Value(digits))
  }

  function FirstNamed(recipe: Recipe, name: string): (r: Option<nat>)
    ensures r.None? ==> forall s :: 0 <= s < |recipe| ==> recipe[s].name != Some(name)
    ensures r.Some? ==> r.value < |recipe| && recipe[r.value].name == Some(name)
                        && forall s :: 0 <= s < r.value ==> recipe[s].name != Some(name)
  {
    if recipe == [] then None
    else if recipe[0].name == Some(name) then Some(0)
    else
      var later := FirstNamed(recipe[1..], name);
      if later.None? then None else Some(later.value + 1)
  }

  /** `resolve_stage_index`: a number wins over a name. */
  function ResolveStage(recipe: Recipe, reference: string): Option<nat> {
    if StageNumber(reference).Some? then StageNumber(reference) else FirstNamed(recipe, reference)
  }

  /** A reference is read as a number below 2^64: its decimal, perhaps behind zeros and a sign. */
  ghost predicate ReadAs(reference: string, n: nat) {
    n < 0x1_0000_0000_0000_0000
    && exists sign, zeros :: (sign == "" || sign == "+") && Zeros(zeros) && reference == sign + zeros + Decimal(n)
  }

  lemma NumberIsRead(reference: string)
    requires StageNumber(reference).Some?
    ensures ReadAs(reference, StageNumber(reference).value)
  {
    hide AllDigits, Value, Zeros, Decimal, Unsigned;
    var sign := if Unsigned(reference) == reference then "" else "+";
    var digits := Unsigned(reference);
    assert reference == sign + digits by {
      SignRemoved(reference);
    }
    DigitsAreDecimal(digits);
    var zeros := digits[..|digits| - |Decimal(Value(digits))|];
    assert digits == zeros + Decimal(Value(digits));
    assert reference == sign + zeros + Decimal(Value(digits));
  }

  lemma SignRemoved(reference: string)
    ensures reference == (if Unsigned(reference) == reference then "" else "+") + Unsigned(reference)
  {
  }

  lemma SignedNumber(sign: string, digits: string)
    requires (sign == "" || sign == "+") && digits != "" && AllDigits(digits) && Value(digits) < U64
    ensures StageNumber(sign + digits) == Some(Value(digits))
  {
    hide Value;
    assert digits[0] != '+';
    assert (sign + digits)[|sign|..] == digits;
  }

  lemma StageNumberExact(reference: string, n: nat)
    ensures StageNumber(reference) == Some(n) <==> ReadAs(reference, n)
  {
    hide StageNumber, AllDigits, Value, Zeros, Decimal;
    if StageNumber(reference) == Some(n) {
      NumberIsRead(reference);
    }
    if ReadAs(reference, n) {
      var sign, zeros :|
        (sign == "" || sign == "+") && Zeros(zeros) && reference == sign + zeros + Decimal(n);
      ZerosValue(zeros, n);
      SignedNumber(sign, zeros + Decimal(n));
      assert reference == sign + (zeros + Decimal(n));
    }
  }

  /** A reference names a stage by its number or, when it is none, the first stage so named. */
  ghost predicate NamesStage(recipe: Recipe, reference: string, stage: nat) {
    if exists n :: ReadAs(reference, n) then ReadAs(reference, stage)
    else
      && stage < |recipe| && recipe[stage].name == Some(reference)
      && forall s :: 0 <= s < stage ==> recipe[s].name != Some(reference)
  }

  /** Main result: a reference resolves to exactly the stage it names, if to any. */
  lemma ResolvesToNamed(recipe: Recipe, reference: string, stage: nat)
    ensures ResolveStage(recipe, reference) == Some(stage) <==> NamesStage(recipe, reference, stage)
  {
    hide StageNumber, ReadAs;
    StageNumberExact(reference, stage);
    if StageNumber(reference).Some? {
      StageNumberExact(reference, StageNumber(reference).value);
    }
    if n :| ReadAs(reference, n) {
      StageNumberExact(reference, n);
    }
  }

  /** The references COPY names. */
  function References(instructions: seq<Instruction>): set<string> {
    set i | i in instructions && i.CopyFiles? && i.copy.from.Some? :: i.copy.from.value
  }

  lemma ReferencesAppend(a: seq<Instruction>, b: seq<Instruction>)
    ensures References(a + b) == References(a) + References(b)
  {
  }

  lemma ReferencesSnoc(instructions: seq<Instruction>)
    ensures References([]) == {}
    ensures instructions != [] ==>
      var init, last := instructions[..|instructions| - 1], instructions[|instructions| - 1];
      References(instructions) == References(init)
        + if last.CopyFiles? && last.copy.from.Some? then {last.copy.from.value} else {}
  {
    if instructions != [] {
      var init, last := instructions[..|instructions| - 1], instructions[|instructions| - 1];
      assert instructions == init + [last];
      ReferencesAppend(init, [last]);
    }
  }

  /** The images a recipe needs: what a stage starts from, or what COPY names and
      no stage answers to. */
  predicate Needed(recipe: Recipe, reference: string) {
    || (exists s :: 0 <= s < |recipe| && recipe[s].baseImage == reference)
    || (ResolveStage(recipe, reference).None?
        && exists s :: 0 <= s < |recipe| && reference in References(recipe[s].instructions))
  }

  /** The references `resolve_recipe_images` pulls. */
  method RecipeImages(recipe: Recipe) returns (references: set<string>)
    ensures forall reference :: reference in references <==> Needed(recipe, reference)
  {
    var names := {};
    references := {};
    for s := 0 to |recipe|
      invariant forall name :: name in names <==> exists t :: 0 <= t < s && recipe[t].name == Some(name)
      invariant forall r :: r in references <==> exists t :: 0 <= t < s && recipe[t].baseImage == r
    {
      if recipe[s].name.Some? {
        names := names + {recipe[s].name.value};
      }
      references := references + {recipe[s].baseImage};
    }
    ghost var bases := references;
    for s := 0 to |recipe|
      invariant forall r :: r in references <==> r in bases || Copied(recipe[..s], recipe, r)
    {
      assert recipe[..s + 1] == recipe[..s] + [recipe[s]];
      var instructions := recipe[s].instructions;
      ghost var before := references;
      for k := 0 to |instructions|
        invariant forall r :: r in references <==>
          r in before || (r in References(instructions[..k]) && ResolveStage(recipe, r).None?)
      {
        assert instructions[..k + 1] == instructions[..k] + [instructions[k]];
        ReferencesAppend(instructions[..k], [instructions[k]]);
        match instructions[k] {
          case CopyFiles(Copy(Some(from), _, _)) =>
            if from !in names && StageNumber(from).None? {
              references := references + {from};
            }
          case _ =>
        }
      }
      assert instructions[..|instructions|] == instructions;
    }
    assert recipe[..|recipe|] == recipe;
  }

  ghost predicate Copied(stages: Recipe, recipe: Recipe, reference: string) {
    ResolveStage(recipe, reference).None?
    && exists s :: 0 <= s < |stages| && reference in References(stages[s].instructions)
  }

  // ------------------------------------------------------------------
  // Mounts
  // ------------------------------------------------------------------

  datatype Disk = StageDisk(stage: nat) | ImageDisk(reference: string)

  datatype Mount = Mount(reference: string, disk: Disk, device: string, path: string)

  const CONTEXT_DEVICE := "/dev/vdc"
  const CONTEXT_MOUNT := "/mnt/nanoeval-context"
  const SOURCE_MOUNT := "/mnt/nanoeval-source-"

  /** Root, runtime and context take the devices before the first source's. */
  const FIRST_SOURCE_DEVICE: nat := 3

  const MOST_SOURCES: nat := 23
  const TOO_MANY := "too many build source disks"

  /** `guest_block_device` */
  function BlockDevice(index: nat): Result<string, ImageError> {
    if index < 26 then Ok("/dev/vd" + [('a' as int + index) as char])
    else Err(Unsupported(TOO_MANY))
  }

  /** A stage built before, or an image when no stage answers to the reference. */
  predicate Usable(recipe: Recipe, stage: nat, images: set<string>, reference: string) {
    match ResolveStage(recipe, reference)
    case Some(source) => source < stage
    case None => reference in images
  }

  function DiskOf(recipe: Recipe, reference: string): Disk {
    match ResolveStage(recipe, reference)
    case Some(source) => StageDisk(source)
    case None => ImageDisk(reference)
  }

  function MountPath(number: nat): string {
    SOURCE_MOUNT + Decimal(number)
  }

  function MountAt(recipe: Recipe, stage: nat, images: set<string>, reference: string, number: nat)
    : Result<Mount, ImageError>
  {
    if !Usable(recipe, stage, images, reference) then Err(UnknownSource(reference))
    else
      match BlockDevice(number + FIRST_SOURCE_DEVICE)
      case Err(error) => Err(error)
      case Ok(device) => Ok(Mount(reference, DiskOf(recipe, reference), device, MountPath(number)))
  }

  /** `source_mounts`: where each reference is mounted. */
  function Paths(mounts: seq<Mount>): map<string, string> {
    if mounts == [] then map[]
    else
      var last := mounts[|mounts| - 1];
      Paths(mounts[..|mounts| - 1])[last.reference := last.path]
  }

  function Sources(recipe: Recipe, stage: nat, images: set<string>, instructions: seq<Instruction>)
    : Result<seq<Mount>, ImageError>
  {
    if instructions == [] then Ok([])
    else
      var last := instructions[|instructions| - 1];
      match Sources(recipe, stage, images, instructions[..|instructions| - 1])
      case Err(error) => Err(error)
      case Ok(mounts) =>
        if !last.CopyFiles? || last.copy.from.None? || last.copy.from.value in Paths(mounts) then Ok(mounts)
        else
          match MountAt(recipe, stage, images, last.copy.from.value, |mounts|)
          case Err(error) => Err(error)
          case Ok(mount) => Ok(mounts + [mount])
  }

  lemma {:induction false} FailedSources(recipe: Recipe, stage: nat, images: set<string>,
      instructions: seq<Instruction>, n: nat)
    requires n <= |instructions| && Sources(recipe, stage, images, instructions[..n]).Err?
    ensures Sources(recipe, stage, images, instructions) == Sources(recipe, stage, images, instructions[..n])
    decreases |instructions|
  {
    hide MountAt;
    if n == |instructions| {
      assert instructions[..n] == instructions;
    } else {
      var init := instructions[..|instructions| - 1];
      assert init[..n] == instructions[..n];
      FailedSources(recipe, stage, images, init, n);
    }
  }

  /** The first loop of `execute_stage`. */
  method MountSources(recipe: Recipe, stage: nat, images: set<string>, instructions: seq<Instruction>)
    returns (r: Result<seq<Mount>, ImageError>, paths: map<string, string>)
    ensures r == Sources(recipe, stage, images, instructions)
    ensures r.Ok? ==> paths == Paths(r.value)
  {
    hide BlockDevice, ResolveStage, MountPath, Paths;
    NothingMounted(recipe, stage, images);
    var mounts: seq<Mount> := [];
    paths := map[];
    for k := 0 to |instructions|
      invariant Sources(recipe, stage, images, instructions[..k]) == Ok(mounts)
      invariant paths == Paths(mounts)
    {
      assert instructions[..k + 1][..k] == instructions[..k];
      match instructions[k] {
        case CopyFiles(Copy(Some(from), _, _)) =>
          if from in paths {
            continue;
          }
          var source := ResolveStage(recipe, from);
          var disk := ImageDisk(from);
          if source.Some? {
            if source.value >= stage {
              FailedSources(recipe, stage, images, instructions, k + 1);
              return Err(UnknownSource(from)), paths;
            }
            disk := StageDisk(source.value);
          } else if from !in images {
            FailedSources(recipe, stage, images, instructions, k + 1);
            return Err(UnknownSource(from)), paths;
          }
          var number := |mounts|;
          var path := MountPath(number);
          var device := BlockDevice(number + FIRST_SOURCE_DEVICE);
          if device.Err? {
            FailedSources(recipe, stage, images, instructions, k + 1);
            return Err(device.error), paths;
          }
          var mount := Mount(from, disk, device.value, path);
          PathsSnoc(mounts, mount);
          paths := paths[from := path];
          mounts := mounts + [mount];
        case _ =>
      }
    }
    assert instructions[..|instructions|] == instructions;
    return Ok(mounts), paths;
  }

  lemma PathsSnoc(mounts: seq<Mount>, mount: Mount)
    ensures Paths(mounts + [mount]) == Paths(mounts)[mount.reference := mount.path]
  {
    assert (mounts + [mount])[..|mounts|] == mounts;
  }

  lemma MountAtExact(recipe: Recipe, stage: nat, images: set<string>, reference: string, number: nat)
    ensures var m := MountAt(recipe, stage, images, reference, number);
      if !Usable(recipe, stage, images, reference) then m == Err(UnknownSource(reference))
      else if number >= MOST_SOURCES then m == Err(Unsupported(TOO_MANY))
      else m.Ok? && m.value.reference == reference
  {
  }

  predicate EachInPlace(recipe: Recipe, stage: nat, images: set<string>, mounts: seq<Mount>) {
    forall k :: 0 <= k < |mounts| ==> MountAt(recipe, stage, images, mounts[k].reference, k) == Ok(mounts[k])
  }

  /** Mount number `k` is what `MountAt` gives its reference there, and no reference
      is mounted twice. */
  predicate InOrder(recipe: Recipe, stage: nat, images: set<string>, mounts: seq<Mount>) {
    EachInPlace(recipe, stage, images, mounts) && |Paths(mounts).Keys| == |mounts|
  }

  lemma InPlaceSnoc(recipe: Recipe, stage: nat, images: set<string>, mounts: seq<Mount>, mount: Mount)
    requires EachInPlace(recipe, stage, images, mounts)
    requires MountAt(recipe, stage, images, mount.reference, |mounts|) == Ok(mount)
    ensures EachInPlace(recipe, stage, images, mounts + [mount])
  {
    hide MountAt;
  }

  lemma InOrderSnoc(recipe: Recipe, stage: nat, images: set<string>, mounts: seq<Mount>, reference: string)
    requires InOrder(recipe, stage, images, mounts) && reference !in Paths(mounts)
    requires MountAt(recipe, stage, images, reference, |mounts|).Ok?
    ensures var more := mounts + [MountAt(recipe, stage, images, reference, |mounts|).value];
      InOrder(recipe, stage, images, more) && Paths(more).Keys == Paths(mounts).Keys + {reference}
  {
    hide MountAt, Paths, EachInPlace;
    var mount := MountAt(recipe, stage, images, reference, |mounts|).value;
    MountAtExact(recipe, stage, images, reference, |mounts|);
    InPlaceSnoc(recipe, stage, images, mounts, mount);
    KeysGrow(mounts, mount);
  }

  lemma KeysGrow(mounts: seq<Mount>, mount: Mount)
    ensures Paths(mounts + [mount]).Keys == Paths(mounts).Keys + {mount.reference}
  {
    PathsSnoc(mounts, mount);
  }

  lemma {:induction false} MountedOnce(recipe: Recipe, stage: nat, images: set<string>,
      instructions: seq<Instruction>)
    requires Sources(recipe, stage, images, instructions).Ok?
    ensures var mounts := Sources(recipe, stage, images, instructions).value;
      InOrder(recipe, stage, images, mounts) && Paths(mounts).Keys == References(instructions)
    decreases |instructions|
  {
    hide MountAt, InOrder, Paths, References;
    ReferencesSnoc(instructions);
    if instructions == [] {
      NothingMounted(recipe, stage, images);
    } else {
      var init, last := instructions[..|instructions| - 1], instructions[|instructions| - 1];
      MountedOnce(recipe, stage, images, init);
      var before := Sources(recipe, stage, images, init).value;
      if last.CopyFiles? && last.copy.from.Some? && last.copy.from.value !in Paths(before) {
        InOrderSnoc(recipe, stage, images, before, last.copy.from.value);
      }
    }
  }

  lemma NothingMounted(recipe: Recipe, stage: nat, images: set<string>)
    ensures InOrder(recipe, stage, images, []) && Paths([]) == map[]
  {
  }

  lemma {:induction false} PathsFrom(mounts: seq<Mount>)
    ensures forall r :: r in Paths(mounts) ==>
      exists k :: 0 <= k < |mounts| && mounts[k].reference == r && mounts[k].path == Paths(mounts)[r]
  {
    if mounts != [] {
      PathsFrom(mounts[..|mounts| - 1]);
    }
  }

  lemma {:induction false} FirstFailure(recipe: Recipe, stage: nat, images: set<string>,
      instructions: seq<Instruction>)
    requires Sources(recipe, stage, images, instructions).Err?
    ensures match Sources(recipe, stage, images, instructions).error
      case UnknownSource(r) => r in References(instructions) && !Usable(recipe, stage, images, r)
      case error => error == Unsupported(TOO_MANY) && |References(instructions)| > MOST_SOURCES
    decreases |instructions|
  {
    hide MountAt, Usable, InOrder, References, Paths;
    var init, last := instructions[..|instructions| - 1], instructions[|instructions| - 1];
    ReferencesSnoc(instructions);
    if Sources(recipe, stage, images, init).Err? {
      FirstFailure(recipe, stage, images, init);
      SubsetSize(References(init), References(instructions));
    } else {
      var before, reference := Sources(recipe, stage, images, init).value, last.copy.from.value;
      MountedOnce(recipe, stage, images, init);
      MountAtExact(recipe, stage, images, reference, |before|);
      InOrderCounts(recipe, stage, images, before);
    }
  }

  lemma InOrderCounts(recipe: Recipe, stage: nat, images: set<string>, mounts: seq<Mount>)
    requires InOrder(recipe, stage, images, mounts)
    ensures |Paths(mounts).Keys| == |mounts| <= MOST_SOURCES
    ensures forall r :: r in Paths(mounts) ==> Usable(recipe, stage, images, r)
  {
    hide MountAt, Usable, Paths;
    PathsFrom(mounts);
    if mounts != [] {
      var last := |mounts| - 1;
      MountAtExact(recipe, stage, images, mounts[last].reference, last);
    }
    forall k | 0 <= k < |mounts|
      ensures Usable(recipe, stage, images, mounts[k].reference)
    {
      MountAtExact(recipe, stage, images, mounts[k].reference, k);
    }
  }

  ghost predicate AllUsable(recipe: Recipe, stage: nat, images: set<string>, references: set<string>) {
    forall reference :: reference in references ==> Usable(recipe, stage, images, reference)
  }

  /** The sources of a stage can be mounted exactly when every reference names an
      earlier stage or a known image and the devices suffice. */
  lemma SourcesExact(recipe: Recipe, stage: nat, images: set<string>, instructions: seq<Instruction>)
    ensures Sources(recipe, stage, images, instructions).Ok?
       <==> AllUsable(recipe, stage, images, References(instructions)) && |References(instructions)| <= MOST_SOURCES
  {
    hide MountAt, Usable, InOrder;
    if Sources(recipe, stage, images, instructions).Ok? {
      MountedOnce(recipe, stage, images, instructions);
      InOrderCounts(recipe, stage, images, Sources(recipe, stage, images, instructions).value);
    } else {
      FirstFailure(recipe, stage, images, instructions);
    }
  }

  /** Each reference is mounted once, from its own disk, on the device of its place
      among the disks and at a path no other one has. */
  lemma MountsApart(recipe: Recipe, stage: nat, images: set<string>, instructions: seq<Instruction>)
    requires Sources(recipe, stage, images, instructions).Ok?
    ensures var mounts := Sources(recipe, stage, images, instructions).value;
      && Paths(mounts).Keys == References(instructions)
      && (forall k :: 0 <= k < |mounts| ==>
            mounts[k].disk == DiskOf(recipe, mounts[k].reference)
            && BlockDevice(k + FIRST_SOURCE_DEVICE) == Ok(mounts[k].device)
            && mounts[k].reference in Paths(mounts) && Paths(mounts)[mounts[k].reference] == mounts[k].path)
      && (forall j, k :: 0 <= j < k < |mounts| ==>
            mounts[j].reference != mounts[k].reference && mounts[j].device != mounts[k].device
            && mounts[j].path != mounts[k].path)
  {
    hide Usable, DiskOf, Paths;
    var mounts := Sources(recipe, stage, images, instructions).value;
    MountedOnce(recipe, stage, images, instructions);
    forall k | 0 <= k < |mounts|
      ensures mounts[k].reference in Paths(mounts) && Paths(mounts)[mounts[k].reference] == mounts[k].path
    {
      PathsBound(mounts);
      PathOfEach(mounts, k);
    }
    forall j, k | 0 <= j < k < |mounts|
      ensures mounts[j].reference != mounts[k].reference && mounts[j].device != mounts[k].device
              && mounts[j].path != mounts[k].path
    {
      NumbersApart(j, k);
      NumbersApart(j + FIRST_SOURCE_DEVICE, k + FIRST_SOURCE_DEVICE);
      ReferencesApart(mounts, j, k);
    }
  }

  lemma NumbersApart(j: nat, k: nat)
    requires j != k
    ensures MountPath(j) != MountPath(k)
    ensures BlockDevice(j).Ok? && BlockDevice(k).Ok? ==> BlockDevice(j) != BlockDevice(k)
  {
    DecimalValue(j);
    DecimalValue(k);
    assert MountPath(j)[|SOURCE_MOUNT|..] == Decimal(j) && MountPath(k)[|SOURCE_MOUNT|..] == Decimal(k);
    if BlockDevice(j).Ok? && BlockDevice(k).Ok? {
      assert |BlockDevice(j).value| == |BlockDevice(k).value| == 8;
      assert BlockDevice(j).value[7] == ('a' as int + j) as char;
      assert BlockDevice(k).value[7] == ('a' as int + k) as char;
    }
  }

  lemma {:induction false} PathsBound(mounts: seq<Mount>)
    ensures |Paths(mounts).Keys| <= |mounts|
    ensures forall k :: 0 <= k < |mounts| ==> mounts[k].reference in Paths(mounts)
  {
    if mounts != [] {
      var init, last := mounts[..|mounts| - 1], mounts[|mounts| - 1];
      PathsBound(init);
      assert Paths(mounts).Keys == Paths(init).Keys + {last.reference};
    }
  }

  lemma {:induction false} ReferencesApart(mounts: seq<Mount>, j: nat, k: nat)
    requires j < k < |mounts| && |Paths(mounts).Keys| == |mounts|
    ensures mounts[j].reference != mounts[k].reference
  {
    var init, last := mounts[..|mounts| - 1], mounts[|mounts| - 1];
    PathsBound(init);
    assert Paths(mounts).Keys == Paths(init).Keys + {last.reference};
    if k < |init| {
      ReferencesApart(init, j, k);
    } else {
      assert init[j].reference in Paths(init);
    }
  }

  lemma PathOfEach(mounts: seq<Mount>, k: nat)
    requires k < |mounts| && |Paths(mounts).Keys| == |mounts| && mounts[k].reference in Paths(mounts)
    ensures Paths(mounts)[mounts[k].reference] == mounts[k].path
  {
    hide Paths;
    PathsFrom(mounts);
    var i :| 0 <= i < |mounts| && mounts[i].reference == mounts[k].reference
             && mounts[i].path == Paths(mounts)[mounts[k].reference];
    if i < k {
      ReferencesApart(mounts, i, k);
    } else if k < i {
      ReferencesApart(mounts, k, i);
    }
  }

  /** Main result: the disk mounted for a reference is that of the stage it names, which must
      have been built before, or of a pulled image when it names none. */
  lemma DiskIsNamed(recipe: Recipe, stage: nat, images: set<string>, instructions: seq<Instruction>, k: nat)
    requires Sources(recipe, stage, images, instructions).Ok?
    requires k < |Sources(recipe, stage, images, instructions).value|
    ensures var mount := Sources(recipe, stage, images, instructions).value[k];
      && (forall source: nat :: NamesStage(recipe, mount.reference, source) ==>
            mount.disk == StageDisk(source) && source < stage)
      && ((forall source: nat :: !NamesStage(recipe, mount.reference, source)) ==>
            mount.disk == ImageDisk(mount.reference) && mount.reference in images)
      && k < 23 && mount.device == "/dev/vd" + ["defghijklmnopqrstuvwxyz"[k]]
      && mount.path == "/mnt/nanoeval-source-" + Decimal(k)
  {
    hide NamesStage, ResolveStage, References, Paths, Sources;
    var mounts := Sources(recipe, stage, images, instructions).value;
    MountedOnce(recipe, stage, images, instructions);
    var resolved := ResolveStage(recipe, mounts[k].reference);
    assert MountAt(recipe, stage, images, mounts[k].reference, k) == Ok(mounts[k]);
    if resolved.Some? {
      ResolvesToNamed(recipe, mounts[k].reference, resolved.value);
    }
    forall source: nat
      ensures NamesStage(recipe, mounts[k].reference, source) <==> resolved == Some(source)
    {
      ResolvesToNamed(recipe, mounts[k].reference, source);
    }
    DeviceLetter(k);
  }

  lemma DeviceLetter(k: nat)
    ensures BlockDevice(k + 3).Ok? <==> k < 23
    ensures k < 23 ==> BlockDevice(k + 3).value == "/dev/vd" + ["defghijklmnopqrstuvwxyz"[k]]
  {
  }

  /** With the images a recipe needs, only a stage that is not built yet is unknown. */
  lemma UnknownIsLaterStage(recipe: Recipe, stage: nat, images: set<string>)
    requires stage < |recipe| && forall reference :: reference in images <==> Needed(recipe, reference)
    ensures recipe[stage].baseImage in images
    ensures forall r :: r in References(recipe[stage].instructions) ==>
      (Usable(recipe, stage, images, r)
       <==> (ResolveStage(recipe, r).Some? ==> ResolveStage(recipe, r).value < stage))
  {
    hide ResolveStage, References;
    assert Needed(recipe, recipe[stage].baseImage);
    forall r | r in References(recipe[stage].instructions) && ResolveStage(recipe, r).None?
      ensures r in images
    {
      assert Needed(recipe, r);
    }
  }
}
