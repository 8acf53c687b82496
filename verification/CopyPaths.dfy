/** The paths COPY reads and writes: how a source is put below its root, and where the
    path that gives leads when its components are walked one by one. */
module CopyPaths {
  import opened Common
  import opened Text
  import opened Dockerfile

  // ------------------------------------------------------------------
  // The paths of a command
  // ------------------------------------------------------------------

  function TrimDotSlash(s: string): string {
    if |s| >= 2 && s[0] == '.' && s[1] == '/' then TrimDotSlash(s[2..]) else s
  }

  function TrimSlashes(s: string): string {
    if s != "" && s[0] == '/' then TrimSlashes(s[1..]) else s
  }

  predicate Absolute(path: string) {
    path != "" && path[0] == '/'
  }

  /** `Path::join`: an absolute path replaces, and a separator is added where the
      base does not end with one. */
  function JoinPath(base: string, path: string): string {
    if Absolute(path) then path
    else if base != "" && base[|base| - 1] != '/' then base + "/" + path
    else base + path
  }

  const CONTEXT_ROOT := "/mnt/nanoeval-context/context"

  /** A source of COPY: from the context only below it, from a mount without leading
      separators. */
  function SourcePath(root: Option<string>, source: string): Result<string, ImageError> {
    match root
    case None =>
      var relative := TrimDotSlash(source);
      if Absolute(relative) || ".." in Segments(relative) then Err(MissingSource(source))
      else Ok(JoinPath(CONTEXT_ROOT, relative))
    case Some(mount) => Ok(JoinPath(mount, TrimSlashes(source)))
  }

  function SourcePaths(root: Option<string>, sources: seq<string>): Result<seq<string>, ImageError> {
    if sources == [] then Ok([])
    else
      match SourcePaths(root, sources[..|sources| - 1])
      case Err(error) => Err(error)
      case Ok(paths) =>
        match SourcePath(root, sources[|sources| - 1])
        case Err(error) => Err(error)
        case Ok(path) => Ok(paths + [path])
  }

  lemma {:induction false} FailedPaths(root: Option<string>, sources: seq<string>, n: nat)
    requires n <= |sources| && SourcePaths(root, sources[..n]).Err?
    ensures SourcePaths(root, sources) == SourcePaths(root, sources[..n])
    decreases |sources|
  {
    hide SourcePath;
    if n == |sources| {
      assert sources[..n] == sources;
    } else {
      var init := sources[..|sources| - 1];
      assert init[..n] == sources[..n];
      FailedPaths(root, init, n);
    }
  }

  // ------------------------------------------------------------------
  // Components
  // ------------------------------------------------------------------

  lemma SegmentsAt(a: string, b: string)
    requires forall i :: 0 <= i < |a| ==> a[i] != '/'
    ensures Segments(a + "/" + b) == [a] + Segments(b)
  {
    var s := a + "/" + b;
    FindExact(s, '/', |a|);
    assert s[..|a|] == a && s[|a| + 1..] == b;
  }

  lemma SegmentsAlone(a: string)
    requires forall i :: 0 <= i < |a| ==> a[i] != '/'
    ensures Segments(a) == [a]
  {
    FindExact(a, '/', |a|);
  }

  lemma {:induction false} SegmentsJoin(a: string, b: string)
    ensures Segments(a + "/" + b) == Segments(a) + Segments(b)
    decreases |a|
  {
    hide Segments;
    var n := Find(a, '/');
    if n == |a| {
      SegmentsAt(a, b);
      SegmentsAlone(a);
    } else {
      var head, rest := a[..n], a[n + 1..];
      SegmentsJoin(rest, b);
      SegmentsAt(head, rest + "/" + b);
      SegmentsAt(head, rest);
      assert a == head + "/" + rest && a + "/" + b == head + "/" + (rest + "/" + b);
    }
  }

  // ------------------------------------------------------------------
  // Walking a path
  // ------------------------------------------------------------------

  predicate IsName(component: string) {
    component != "" && component != "." && component != ".."
  }

  /** One component further: `..` goes back one name, and stays where there is none. */
  function Stepped(at: seq<string>, component: string): seq<string> {
    if IsName(component) then at + [component]
    else if component == ".." && at != [] then at[..|at| - 1]
    else at
  }

  /** Where components lead from the root, no component being a link. */
  function Resolved(components: seq<string>): seq<string> {
    if components == [] then []
    else Stepped(Resolved(components[..|components| - 1]), components[|components| - 1])
  }

  /** How many `..` find no name to go back. */
  function Climb(components: seq<string>): nat {
    if components == [] then 0
    else
      var init, last := components[..|components| - 1], components[|components| - 1];
      Climb(init) + if last == ".." && Resolved(init) == [] then 1 else 0
  }

  function Names(components: seq<string>): nat {
    if components == [] then 0
    else Names(components[..|components| - 1]) + if IsName(components[|components| - 1]) then 1 else 0
  }

  function Ups(components: seq<string>): nat {
    if components == [] then 0
    else Ups(components[..|components| - 1]) + if components[|components| - 1] == ".." then 1 else 0
  }

  /** At no point have there been more `..` than names. */
  predicate NeverClimbs(components: seq<string>) {
    forall k :: 0 <= k <= |components| ==> Ups(components[..k]) <= Names(components[..k])
  }

  predicate Stays(path: string) {
    NeverClimbs(Segments(path))
  }

  lemma {:induction false} NamesLessUps(components: seq<string>)
    ensures Names(components) - Ups(components) == |Resolved(components)| - Climb(components)
  {
    if components != [] {
      NamesLessUps(components[..|components| - 1]);
    }
  }

  lemma {:induction false} CountsAppend(a: seq<string>, b: seq<string>)
    ensures Names(a + b) == Names(a) + Names(b) && Ups(a + b) == Ups(a) + Ups(b)
  {
    if b == [] {
      assert a + b == a;
    } else {
      assert (a + b)[..|a + b| - 1] == a + b[..|b| - 1];
      CountsAppend(a, b[..|b| - 1]);
    }
  }

  /** `n` names back from `at`, or all the way. */
  function Back(at: seq<string>, n: nat): seq<string> {
    at[..|at| - Min(n, |at|)]
  }

  lemma SteppedBack(at: seq<string>, n: nat, down: seq<string>, component: string)
    ensures Stepped(Back(at, n) + down, component)
         == if component == ".." && down == [] then Back(at, n + 1) else Back(at, n) + Stepped(down, component)
  {
    var from := Back(at, n);
    if IsName(component) {
      assert from + down + [component] == from + (down + [component]);
    } else if component == ".." && down != [] {
      assert (from + down)[..|from + down| - 1] == from + down[..|down| - 1];
    } else if component == ".." {
      assert from + down == from;
    }
  }

  /** Walking on goes back as many names as the rest climbs, and then down its names. */
  lemma {:induction false} ResolvedAppend(a: seq<string>, b: seq<string>)
    ensures Resolved(a + b) == Back(Resolved(a), Climb(b)) + Resolved(b)
  {
    hide Stepped, IsName;
    if b == [] {
      assert a + b == a;
      assert Back(Resolved(a), 0) == Resolved(a);
    } else {
      hide Back;
      var init, last := b[..|b| - 1], b[|b| - 1];
      assert (a + b)[..|a + b| - 1] == a + init;
      ResolvedAppend(a, init);
      SteppedBack(Resolved(a), Climb(init), Resolved(init), last);
      SteppedNothing(last);
    }
  }

  lemma SteppedNothing(component: string)
    ensures component == ".." ==> Stepped([], component) == []
    ensures forall s: seq<string> :: s + [] == s
  {
  }

  lemma {:induction false} ClimbGrows(components: seq<string>, k: nat)
    requires k <= |components|
    ensures Climb(components[..k]) <= Climb(components)
    decreases |components|
  {
    if k == |components| {
      assert components[..k] == components;
    } else {
      var init := components[..|components| - 1];
      assert init[..k] == components[..k];
      ClimbGrows(init, k);
    }
  }

  lemma {:induction false} NoClimbExactly(components: seq<string>)
    ensures NeverClimbs(components) <==> Climb(components) == 0
  {
    if Climb(components) == 0 {
      forall k | 0 <= k <= |components|
        ensures Ups(components[..k]) <= Names(components[..k])
      {
        ClimbGrows(components, k);
        NamesLessUps(components[..k]);
      }
    } else {
      var init := components[..|components| - 1];
      NamesLessUps(components);
      NamesLessUps(init);
      if Climb(init) == 0 {
        assert components[..|components|] == components;
      } else {
        NoClimbExactly(init);
        var k :| 0 <= k <= |init| && Ups(init[..k]) > Names(init[..k]);
        assert components[..k] == init[..k];
      }
    }
  }

  /** The path begins with `root`, and no walk along it from there leaves `root`. */
  predicate StaysOn(root: string, path: string) {
    var (r, p) := (Segments(root), Segments(path));
    r <= p && forall k :: |r| <= k <= |p| ==> Resolved(r) <= Resolved(p[..k])
  }

  predicate EndsOn(root: string, path: string) {
    Resolved(Segments(root)) <= Resolved(Segments(path))
  }

  /** After climbing, a source goes down the same names again. */
  predicate Returns(root: string, source: string) {
    var r := Resolved(Segments(root));
    r[|r| - Min(Climb(Segments(source)), |r|)..] <= Resolved(Segments(source))
  }

  /** A directory other than the root, without a separator at its end. */
  predicate Mountpoint(path: string) {
    path != "" && path[|path| - 1] != '/' && Resolved(Segments(path)) != []
  }

  lemma {:induction false} FirstClimb(components: seq<string>) returns (k: nat)
    requires Climb(components) > 0
    ensures k <= |components| && Climb(components[..k]) == 1 && Resolved(components[..k]) == []
  {
    var init := components[..|components| - 1];
    if Climb(init) == 0 {
      k := |components|;
      assert components[..k] == components;
    } else {
      k := FirstClimb(init);
      assert components[..k] == init[..k];
    }
  }

  /** A walk from somewhere below the root keeps what lies above it exactly when it never climbs. */
  lemma {:induction false} WalkStays(from: seq<string>, walk: seq<string>)
    requires Resolved(from) != []
    ensures (forall k :: 0 <= k <= |walk| ==> Resolved(from) <= Resolved(from + walk[..k])) <==> NeverClimbs(walk)
  {
    NoClimbExactly(walk);
    if Climb(walk) == 0 {
      forall k | 0 <= k <= |walk|
        ensures Resolved(from) <= Resolved(from + walk[..k])
      {
        ClimbGrows(walk, k);
        ResolvedAppend(from, walk[..k]);
      }
    } else {
      var k := FirstClimb(walk);
      ResolvedAppend(from, walk[..k]);
      assert |Resolved(from + walk[..k])| < |Resolved(from)|;
    }
  }

  lemma PrefixCancels<T>(whole: seq<T>, n: nat, rest: seq<T>)
    requires n <= |whole|
    ensures whole <= whole[..n] + rest <==> whole[n..] <= rest
  {
    var all := whole[..n] + rest;
    if whole <= all {
      assert forall i :: 0 <= i < |whole| - n ==> whole[n..][i] == whole[n + i] == all[n + i] == rest[i];
    }
    if whole[n..] <= rest {
      assert forall i :: n <= i < |whole| ==> whole[i] == whole[n..][i - n] == rest[i - n] == all[i];
    }
  }

  lemma WalkEnds(from: seq<string>, walk: seq<string>)
    ensures var r := Resolved(from);
      r <= Resolved(from + walk) <==> r[|r| - Min(Climb(walk), |r|)..] <= Resolved(walk)
  {
    hide Resolved, Climb;
    var r := Resolved(from);
    ResolvedAppend(from, walk);
    PrefixCancels(r, |r| - Min(Climb(walk), |r|), Resolved(walk));
  }

  /** Two paths walk alike: from anywhere, to one place, climbing as often. */
  predicate Alike(a: string, b: string) {
    var (s, t) := (Segments(a), Segments(b));
    Resolved(s) == Resolved(t) && Climb(s) == Climb(t) && (".." in s <==> ".." in t)
  }

  lemma SkippedComponent(component: string, rest: string)
    requires component == "" || component == "."
    ensures Alike(component + "/" + rest, rest)
  {
    hide Segments;
    SegmentsAt(component, rest);
    var one, b := [component], Segments(rest);
    assert one[..|one| - 1] == [];
    ResolvedAppend(one, b);
    CountsAppend(one, b);
    NamesLessUps(one + b);
    NamesLessUps(b);
  }

  lemma {:induction false} SlashesSkipped(s: string)
    ensures Alike(s, TrimSlashes(s)) && !Absolute(TrimSlashes(s))
  {
    hide Alike;
    AlikeItself(s);
    if s != "" && s[0] == '/' {
      SlashesSkipped(s[1..]);
      SkippedComponent("", s[1..]);
      assert s == "" + "/" + s[1..];
      AlikeChains(s, s[1..], TrimSlashes(s[1..]));
    }
  }

  lemma {:induction false} DotSlashSkipped(s: string)
    ensures Alike(s, TrimDotSlash(s))
  {
    hide Alike;
    AlikeItself(s);
    if |s| >= 2 && s[0] == '.' && s[1] == '/' {
      DotSlashSkipped(s[2..]);
      SkippedComponent(".", s[2..]);
      assert s == "." + "/" + s[2..];
      AlikeChains(s, s[2..], TrimDotSlash(s[2..]));
    }
  }

  lemma AlikeItself(s: string)
    ensures Alike(s, s)
  {
  }

  lemma AlikeChains(a: string, b: string, c: string)
    requires Alike(a, b) && Alike(b, c)
    ensures Alike(a, c)
  {
  }

  lemma {:induction false} NoUpsNoClimb(components: seq<string>)
    requires ".." !in components
    ensures Climb(components) == 0
  {
    if components != [] {
      NoUpsNoClimb(components[..|components| - 1]);
    }
  }

  // ------------------------------------------------------------------
  // Where sources and destinations lead
  // ------------------------------------------------------------------

  /** `path` leads where `relative` leads when walked from `root`. */
  predicate LeadsTo(root: string, relative: string, path: string) {
    Resolved(Segments(path)) == Resolved(Segments(root) + Segments(relative))
  }

  lemma JoinedExact(root: string, source: string, relative: string)
    requires Mountpoint(root) && Alike(source, relative) && !Absolute(relative)
    ensures var path := JoinPath(root, relative);
      && LeadsTo(root, source, path)
      && (StaysOn(root, path) <==> Stays(source))
      && (EndsOn(root, path) <==> Returns(root, source))
  {
    hide Segments, Resolved, Climb, NeverClimbs;
    var r, s, b, path := Segments(root), Segments(source), Segments(relative), JoinPath(root, relative);
    SegmentsJoin(root, relative);
    assert Segments(path) == r + b;
    ResolvedAppend(r, s);
    ResolvedAppend(r, b);
    WalkEnds(r, s);
    WalkStays(r, b);
    NoClimbExactly(s);
    NoClimbExactly(b);
    assert r <= r + b;
    assert forall k :: 0 <= k <= |b| ==> (r + b)[..|r| + k] == r + b[..k];
    forall k | |r| <= k <= |r + b|
      ensures (r + b)[..k] == r + b[..k - |r|]
    {
    }
  }

  lemma EndsInName(base: string, name: string)
    requires IsName(name) && forall i :: 0 <= i < |name| ==> name[i] != '/'
    ensures Resolved(Segments(base + "/" + name)) == Resolved(Segments(base)) + [name]
    ensures Mountpoint(base + "/" + name)
  {
    hide Segments;
    var path := base + "/" + name;
    SegmentsJoin(base, name);
    SegmentsAlone(name);
    assert (Segments(base) + [name])[..|Segments(base)|] == Segments(base);
    assert path[|path| - 1] == name[|name| - 1];
  }

  lemma ContextRootIsMountpoint()
    ensures Mountpoint(CONTEXT_ROOT)
  {
    hide Mountpoint;
    assert CONTEXT_ROOT == "/mnt/nanoeval-context" + "/" + "context";
    EndsInName("/mnt/nanoeval-context", "context");
  }

  /** Main result for a mounted source: its path leads where the source leads from the
      mount; it keeps to the mounted disk at every component exactly when the source
      never has more `..` than names, and ends there exactly when what it climbs it
      goes down again. */
  lemma MountSourceExact(mount: string, source: string)
    requires Mountpoint(mount)
    ensures SourcePath(Some(mount), source).Ok?
    ensures var path := SourcePath(Some(mount), source).value;
      && LeadsTo(mount, source, path)
      && (StaysOn(mount, path) <==> Stays(source))
      && (EndsOn(mount, path) <==> Returns(mount, source))
  {
    hide JoinPath, StaysOn, EndsOn, Returns, LeadsTo, Stays, Alike;
    SlashesSkipped(source);
    JoinedExact(mount, source, TrimSlashes(source));
  }

  function DotSlashes(n: nat): string {
    if n == 0 then "" else "./" + DotSlashes(n - 1)
  }

  /** A slash comes right after any number of leading `./`. */
  ghost predicate RootedBehindDots(source: string) {
    exists n: nat :: DotSlashes(n) + "/" <= source
  }

  lemma RootedDeeper(rest: string)
    ensures RootedBehindDots("./" + rest) <==> RootedBehindDots(rest)
  {
    var source := "./" + rest;
    assert source[2..] == rest;
    if RootedBehindDots(rest) {
      var n: nat :| DotSlashes(n) + "/" <= rest;
      assert DotSlashes(n + 1) + "/" == "./" + (DotSlashes(n) + "/");
      assert DotSlashes(n + 1) + "/" <= source;
    }
    if RootedBehindDots(source) {
      var n: nat :| DotSlashes(n) + "/" <= source;
      assert (DotSlashes(n) + "/")[0] == source[0];
      var below := DotSlashes(n - 1) + "/";
      assert DotSlashes(n) + "/" == "./" + below;
      assert ("./" + below)[2..] == below && source[..|below| + 2][2..] == rest[..|below|];
      assert below <= rest;
    }
  }

  lemma RootedHere(source: string)
    requires !("./" <= source)
    ensures RootedBehindDots(source) <==> Absolute(source)
  {
    if Absolute(source) {
      assert DotSlashes(0) + "/" <= source;
    }
    if RootedBehindDots(source) {
      var n: nat :| DotSlashes(n) + "/" <= source;
      assert (DotSlashes(n) + "/")[0] == source[0];
    }
  }

  lemma {:induction false} TrimmedRooted(source: string)
    ensures Absolute(TrimDotSlash(source)) <==> RootedBehindDots(source)
  {
    hide RootedBehindDots;
    if |source| >= 2 && source[0] == '.' && source[1] == '/' {
      TrimmedRooted(source[2..]);
      RootedDeeper(source[2..]);
      assert source == "./" + source[2..];
    } else {
      RootedHere(source);
    }
  }

  /** A source in the context is refused exactly when it is absolute behind its leading
      `./` or has a `..`; otherwise its path stays below the context. */
  lemma ContextSourceExact(source: string)
    ensures var r := SourcePath(None, source);
      && (r.Ok? <==> !RootedBehindDots(source) && ".." !in Segments(source))
      && (r.Ok? ==> LeadsTo(CONTEXT_ROOT, source, r.value) && StaysOn(CONTEXT_ROOT, r.value))
  {
    hide Segments, JoinPath, StaysOn, EndsOn, Returns, LeadsTo, Climb, Resolved, RootedBehindDots;
    var relative := TrimDotSlash(source);
    TrimmedRooted(source);
    DotSlashSkipped(source);
    if SourcePath(None, source).Ok? {
      ContextRootIsMountpoint();
      JoinedExact(CONTEXT_ROOT, source, relative);
      NoUpsNoClimb(Segments(source));
      NoClimbExactly(Segments(source));
    }
  }

  lemma EmptyRoot(path: string)
    ensures LeadsTo("", path, path)
  {
    hide Segments;
    SegmentsAlone("");
    ResolvedAppend([""], Segments(path));
    assert [""][..0] == [];
  }

  lemma SlashAtEnd(base: string, path: string)
    ensures LeadsTo(base + "/", path, base + "/" + path)
  {
    hide Segments;
    SegmentsJoin(base, path);
    SegmentsJoin(base, "");
    SegmentsAlone("");
    var b := Segments(base);
    assert base + "/" + "" == base + "/" && (b + [""])[..|b|] == b;
    ResolvedAppend(b, Segments(path));
    ResolvedAppend(b + [""], Segments(path));
  }

  /** `JoinPath` leads where the path leads from the base, or by itself if absolute. */
  lemma JoinLeads(base: string, path: string)
    ensures LeadsTo(if Absolute(path) then "" else base, path, JoinPath(base, path))
  {
    hide LeadsTo;
    if Absolute(path) || base == "" {
      EmptyRoot(path);
      assert "" + path == path;
    } else if base[|base| - 1] == '/' {
      SlashAtEnd(base[..|base| - 1], path);
      assert base == base[..|base| - 1] + "/";
    } else {
      JoinedLeads(base, path);
    }
  }

  lemma JoinedLeads(base: string, path: string)
    ensures LeadsTo(base, path, base + "/" + path)
  {
    SegmentsJoin(base, path);
  }
}
