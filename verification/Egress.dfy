/** Merging egress leases: the environment, mounts and guards that independent
    providers contribute to one guest. Paths are compared as the source compares
    them, component by component, so a path here is its normal form. */
module Egress {
  import opened Common
  import opened Text

  datatype Network = Internet | Disabled | Proxied(address: string)

  datatype Mount = Mount(tag: string, hostPath: string, guestPath: string)

  /** A guard stands for the provider state it keeps alive. */
  datatype Lease = Lease(network: Network, environment: map<string, string>, mounts: map<string, Mount>,
                         guards: seq<nat>)

  datatype EgressError =
    | NetworkConflict
    | InvalidEnvironmentName(name: string)
    | EnvironmentConflict(name: string)
    | EmptyMountTag
    | MountTagConflict(tag: string)
    | GuestMountConflict(guestPath: string)

  /** No two tags are mounted at one guest path. */
  predicate PathsUnique(mounts: map<string, Mount>) {
    forall t, u :: t in mounts && u in mounts && mounts[t].guestPath == mounts[u].guestPath ==> t == u
  }

  predicate Tagged(mounts: map<string, Mount>) {
    forall t :: t in mounts ==> t != "" && mounts[t].tag == t
  }

  predicate Valid(l: Lease) {
    && (forall n :: n in l.environment ==> ValidName(n))
    && Tagged(l.mounts) && PathsUnique(l.mounts)
  }

  /** Whether a mount can join: its guest path and its tag are free or already its own. */
  predicate Admits(mounts: map<string, Mount>, m: Mount) {
    && (forall t :: t in mounts && mounts[t].guestPath == m.guestPath ==> mounts[t] == m)
    && (m.tag in mounts ==> mounts[m.tag] == m)
  }

  predicate Agree(a: map<string, string>, b: map<string, string>) {
    forall n :: n in a && n in b ==> a[n] == b[n]
  }

  predicate AdmitsAll(a: map<string, Mount>, b: map<string, Mount>) {
    forall t :: t in b ==> Admits(a, b[t])
  }

  predicate Compatible(a: Lease, b: Lease) {
    a.network == b.network && Agree(a.environment, b.environment) && AdmitsAll(a.mounts, b.mounts)
  }

  function Union(a: Lease, b: Lease): Lease {
    Lease(a.network, a.environment + b.environment, a.mounts + b.mounts, a.guards + b.guards)
  }

  // ------------------------------------------------------------------
  // The lease
  // ------------------------------------------------------------------

  class EgressLease {
    var network: Network
    var environment: map<string, string>
    var mounts: map<string, Mount>
    var guards: seq<nat>

    function Value(): Lease
      reads this
    {
      Lease(network, environment, mounts, guards)
    }

    constructor (network: Network)
      ensures Value() == Lease(network, map[], map[], []) && Valid(Value())
    {
      this.network, environment, mounts, guards := network, map[], map[], [];
    }

    constructor Clone(l: Lease)
      ensures Value() == l
    {
      network, environment, mounts, guards := l.network, l.environment, l.mounts, l.guards;
    }

    method InsertEnvironment(name: string, value: string) returns (r: Result<(), EgressError>)
      requires Valid(Value())
      modifies `environment
      ensures Valid(Value())
      ensures r == Err(InvalidEnvironmentName(name)) <==> !ValidName(name)
      ensures r.Ok? <==> ValidName(name) && (name in old(environment) ==> old(environment)[name] == value)
      ensures r.Err? ==> environment == old(environment)
      ensures r.Err? ==> r.error in {InvalidEnvironmentName(name), EnvironmentConflict(name)}
      ensures r.Ok? ==> environment == old(environment)[name := value]
    {
      if !ValidName(name) {
        return Err(InvalidEnvironmentName(name));
      }
      if name in environment && environment[name] != value {
        return Err(EnvironmentConflict(name));
      }
      environment := environment[name := value];
      return Ok(());
    }

    method InsertMount(mount: Mount) returns (r: Result<(), EgressError>)
      requires Valid(Value())
      modifies `mounts
      ensures Valid(Value())
      ensures r == Err(EmptyMountTag) <==> mount.tag == ""
      ensures r.Ok? <==> mount.tag != "" && Admits(old(mounts), mount)
      ensures r == Err(GuestMountConflict(mount.guestPath)) <==>
        mount.tag != ""
        && exists t :: t in old(mounts) && old(mounts)[t].guestPath == mount.guestPath && old(mounts)[t] != mount
      ensures r.Err? && mount.tag != "" ==>
        r.error in {GuestMountConflict(mount.guestPath), MountTagConflict(mount.tag)}
      ensures r.Err? ==> mounts == old(mounts)
      ensures r.Ok? ==> mounts == old(mounts)[mount.tag := mount]
    {
      if mount.tag == "" {
        return Err(EmptyMountTag);
      }
      if exists t :: t in mounts && mounts[t].guestPath == mount.guestPath && mounts[t] != mount {
        return Err(GuestMountConflict(mount.guestPath));
      }
      if mount.tag in mounts && mounts[mount.tag] != mount {
        return Err(MountTagConflict(mount.tag));
      }
      MountJoins(mounts, mount);
      mounts := mounts[mount.tag := mount];
      return Ok(());
    }

    /** `retain`: as if a lease of nothing but the guard were merged. */
    method Retain(guard: nat)
      modifies `guards
      ensures Value() == Union(old(Value()), Lease(network, map[], map[], [guard]))
    {
      guards := guards + [guard];
      assert environment + map[] == environment && mounts + map[] == mounts;
    }

    /** `merge`: it succeeds exactly on compatible leases and changes nothing otherwise. */
    method Merge(other: Lease) returns (r: Result<(), EgressError>)
      requires Valid(Value()) && Valid(other)
      modifies this
      ensures Valid(Value())
      ensures r.Ok? <==> Compatible(old(Value()), other)
      ensures r.Ok? ==> Value() == Union(old(Value()), other)
      ensures r.Err? ==> Value() == old(Value())
      ensures r == Err(NetworkConflict) <==> old(network) != other.network
    {
      if network != other.network {
        return Err(NetworkConflict);
      }
      var merged := new EgressLease.Clone(Value());
      var e := MergeEnvironment(merged, other.environment);
      if e.Err? {
        return e;
      }
      var m := MergeMounts(merged, other.mounts);
      if m.Err? {
        return m;
      }
      merged.guards := merged.guards + other.guards;
      network, environment, mounts, guards := merged.network, merged.environment, merged.mounts, merged.guards;
      return Ok(());
    }
  }

  lemma MountJoins(mounts: map<string, Mount>, m: Mount)
    requires Tagged(mounts) && PathsUnique(mounts) && m.tag != "" && Admits(mounts, m)
    ensures Tagged(mounts[m.tag := m]) && PathsUnique(mounts[m.tag := m])
  {
  }

  /** `done` is the part of `more` whose keys are not waiting. */
  predicate PartDone<T(==)>(done: map<string, T>, more: map<string, T>, waiting: set<string>) {
    && waiting <= more.Keys && done.Keys == more.Keys - waiting
    && forall k :: k in done ==> done[k] == more[k]
  }

  lemma PartNext<T>(done: map<string, T>, more: map<string, T>, waiting: set<string>, key: string)
    requires PartDone(done, more, waiting) && key in waiting
    ensures key !in done && PartDone(done[key := more[key]], more, waiting - {key})
  {
  }

  lemma AllDone<T>(done: map<string, T>, more: map<string, T>)
    requires PartDone(done, more, {})
    ensures done == more
  {
  }

  lemma AgreeOneMore(a: map<string, string>, done: map<string, string>, more: map<string, string>, n: string)
    requires Agree(a, done) && n !in done && n in more
    ensures Agree(a, done[n := more[n]]) <==> (n in a + done ==> (a + done)[n] == more[n])
    ensures n in a + done && (a + done)[n] != more[n] ==> !Agree(a, more)
    ensures (a + done)[n := more[n]] == a + done[n := more[n]]
  {
  }

  /** The first loop of `merge`. */
  method MergeEnvironment(merged: EgressLease, more: map<string, string>) returns (r: Result<(), EgressError>)
    requires Valid(merged.Value()) && forall n :: n in more ==> ValidName(n)
    modifies merged`environment
    ensures Valid(merged.Value())
    ensures r.Ok? <==> Agree(old(merged.environment), more)
    ensures r.Ok? ==> merged.environment == old(merged.environment) + more
    ensures r.Err? ==> r.error.EnvironmentConflict?
  {
    hide Agree, PartDone, Valid, ValidName;
    ghost var before := merged.environment;
    ghost var done: map<string, string> := map[];
    var names := more.Keys;
    NothingDone(before, more);
    while names != {}
      invariant names <= more.Keys && Valid(merged.Value())
      invariant PartDone(done, more, names)
      invariant merged.environment == before + done && Agree(before, done)
      decreases |names|
    {
      var name :| name in names;
      PartNext(done, more, names, name);
      AgreeOneMore(before, done, more, name);
      var inserted := merged.InsertEnvironment(name, more[name]);
      if inserted.Err? {
        return inserted;
      }
      done := done[name := more[name]];
      names := names - {name};
    }
    AllDone(done, more);
    return Ok(());
  }

  lemma NothingDone(a: map<string, string>, more: map<string, string>)
    ensures PartDone(map[], more, more.Keys) && Agree(a, map[]) && a + map[] == a
  {
  }

  lemma NoMountsDone(a: map<string, Mount>, more: map<string, Mount>)
    ensures PartDone(map[], more, more.Keys) && AdmitsAll(a, map[]) && a + map[] == a
  {
  }

  lemma AdmitsOneMore(a: map<string, Mount>, b: map<string, Mount>, m: Mount)
    requires Tagged(b) && AdmitsAll(a, b)
    requires forall t :: t in b ==> t != m.tag && b[t].guestPath != m.guestPath
    ensures Admits(a + b, m) <==> Admits(a, m)
  {
  }

  lemma MountsOneMore(a: map<string, Mount>, done: map<string, Mount>, more: map<string, Mount>, waiting: set<string>,
      tag: string)
    requires Tagged(more) && PathsUnique(more) && PartDone(done, more, waiting) && tag in waiting
    requires AdmitsAll(a, done)
    ensures tag in more && more[tag].tag == tag && tag != ""
    ensures Admits(a + done, more[tag]) <==> Admits(a, more[tag])
    ensures Admits(a, more[tag]) ==> AdmitsAll(a, done[tag := more[tag]])
    ensures !Admits(a, more[tag]) ==> !AdmitsAll(a, more)
    ensures (a + done)[tag := more[tag]] == a + done[tag := more[tag]]
  {
    hide Admits;
    AdmitsOneMore(a, done, more[tag]);
  }

  /** The second loop of `merge`. */
  method MergeMounts(merged: EgressLease, more: map<string, Mount>) returns (r: Result<(), EgressError>)
    requires Valid(merged.Value()) && Tagged(more) && PathsUnique(more)
    modifies merged`mounts
    ensures Valid(merged.Value())
    ensures r.Ok? <==> AdmitsAll(old(merged.mounts), more)
    ensures r.Ok? ==> merged.mounts == old(merged.mounts) + more
    ensures r.Err? ==> r.error.GuestMountConflict? || r.error.MountTagConflict?
  {
    hide Admits, AdmitsAll, PartDone, Valid, Tagged, PathsUnique;
    ghost var before := merged.mounts;
    ghost var done: map<string, Mount> := map[];
    var tags := more.Keys;
    NoMountsDone(before, more);
    while tags != {}
      invariant tags <= more.Keys && Valid(merged.Value())
      invariant PartDone(done, more, tags)
      invariant merged.mounts == before + done && AdmitsAll(before, done)
      decreases |tags|
    {
      var tag :| tag in tags;
      PartNext(done, more, tags, tag);
      MountsOneMore(before, done, more, tags, tag);
      var inserted := merged.InsertMount(more[tag]);
      if inserted.Err? {
        return inserted;
      }
      done := done[tag := more[tag]];
      tags := tags - {tag};
    }
    AllDone(done, more);
    return Ok(());
  }

  // ------------------------------------------------------------------
  // The algebra of merging
  // ------------------------------------------------------------------

  /** A lease without its guards. */
  function Configuration(l: Lease): Lease {
    l.(guards := [])
  }

  lemma MountsSymmetric(a: map<string, Mount>, b: map<string, Mount>)
    requires Tagged(a) && Tagged(b) && AdmitsAll(a, b)
    ensures AdmitsAll(b, a) && a + b == b + a
  {
  }

  /** Merging is commutative, guards aside, also in when it fails. */
  lemma MergeCommutes(a: Lease, b: Lease)
    requires Valid(a) && Valid(b)
    ensures Compatible(a, b) <==> Compatible(b, a)
    ensures Compatible(a, b) ==> Configuration(Union(a, b)) == Configuration(Union(b, a))
  {
    if AdmitsAll(a.mounts, b.mounts) {
      MountsSymmetric(a.mounts, b.mounts);
    }
    if AdmitsAll(b.mounts, a.mounts) {
      MountsSymmetric(b.mounts, a.mounts);
    }
    if Agree(a.environment, b.environment) {
      assert a.environment + b.environment == b.environment + a.environment;
    }
  }

  /** Guest paths stay unique across tags. */
  lemma UnionValid(a: Lease, b: Lease)
    requires Valid(a) && Valid(b) && Compatible(a, b)
    ensures Valid(Union(a, b))
  {
  }

  /** A third lease joins a union exactly when it joins both. */
  lemma UnionAdmits(a: map<string, Mount>, b: map<string, Mount>, m: Mount)
    requires Tagged(a) && Tagged(b) && AdmitsAll(a, b)
    ensures Admits(a + b, m) <==> Admits(a, m) && Admits(b, m)
  {
  }

  lemma UnionCompatible(a: Lease, b: Lease, c: Lease)
    requires Valid(a) && Valid(b) && Valid(c) && Compatible(a, b)
    ensures Compatible(Union(a, b), c) <==> Compatible(a, c) && Compatible(b, c)
  {
    hide Admits;
    forall m
      ensures Admits(a.mounts + b.mounts, m) <==> Admits(a.mounts, m) && Admits(b.mounts, m)
    {
      UnionAdmits(a.mounts, b.mounts, m);
    }
    var e := a.environment + b.environment;
    assert forall n :: n in a.environment ==> n in e && e[n] == a.environment[n];
    assert forall n :: n in b.environment ==> n in e && e[n] == b.environment[n];
  }

  /** Merging is associative: both groupings succeed together and give one lease. */
  lemma MergeAssociates(a: Lease, b: Lease, c: Lease)
    requires Valid(a) && Valid(b) && Valid(c)
    ensures Compatible(a, b) && Compatible(Union(a, b), c) <==> Compatible(b, c) && Compatible(a, Union(b, c))
    ensures Compatible(a, b) && Compatible(Union(a, b), c) ==> Union(Union(a, b), c) == Union(a, Union(b, c))
  {
    hide Compatible, Valid;
    MergeCommutes(a, b);
    MergeCommutes(a, c);
    MergeCommutes(b, c);
    if Compatible(a, b) {
      UnionCompatible(a, b, c);
    }
    if Compatible(b, c) {
      UnionValid(b, c);
      UnionCompatible(b, c, a);
      MergeCommutes(a, Union(b, c));
    }
    assert a.environment + b.environment + c.environment == a.environment + (b.environment + c.environment);
    assert a.mounts + b.mounts + c.mounts == a.mounts + (b.mounts + c.mounts);
    assert a.guards + b.guards + c.guards == a.guards + (b.guards + c.guards);
  }

  lemma MergeIdempotent(a: Lease)
    requires Valid(a)
    ensures Compatible(a, a) && Configuration(Union(a, a)) == Configuration(a)
  {
    assert a.environment + a.environment == a.environment;
    assert a.mounts + a.mounts == a.mounts;
  }

  // ------------------------------------------------------------------
  // Merging any number of leases
  // ------------------------------------------------------------------

  /** One merge after another, stopping at the first that fails. */
  function MergeAll(first: Lease, others: seq<Lease>): Option<Lease> {
    if others == [] then Some(first)
    else
      match MergeAll(first, others[..|others| - 1])
      case None => None
      case Some(merged) =>
        var last := others[|others| - 1];
        if Compatible(merged, last) then Some(Union(merged, last)) else None
  }

  ghost predicate AllValid(leases: seq<Lease>) {
    forall i :: 0 <= i < |leases| ==> Valid(leases[i])
  }

  ghost predicate AllCompatible(leases: seq<Lease>) {
    forall i, j :: 0 <= i < |leases| && 0 <= j < |leases| ==> Compatible(leases[i], leases[j])
  }

  ghost predicate FitsAll(leases: seq<Lease>, l: Lease) {
    forall i :: 0 <= i < |leases| ==> Compatible(leases[i], l)
  }

  lemma AllCompatibleNext(leases: seq<Lease>, l: Lease)
    requires AllValid(leases) && Valid(l)
    ensures AllCompatible(leases + [l]) <==> AllCompatible(leases) && FitsAll(leases, l)
  {
    hide Compatible, Valid;
    var all := leases + [l];
    assert all[|leases|] == l && forall i :: 0 <= i < |leases| ==> all[i] == leases[i];
    MergeIdempotent(l);
    forall i | 0 <= i < |leases|
      ensures Compatible(leases[i], l) <==> Compatible(l, leases[i])
    {
      MergeCommutes(leases[i], l);
    }
  }

  /** Merging succeeds exactly when every two of the leases are compatible, and then
      any further lease joins exactly when it is compatible with each. */
  lemma {:induction false} MergeAllExact(first: Lease, others: seq<Lease>)
    requires AllValid([first] + others)
    ensures MergeAll(first, others).Some? <==> AllCompatible([first] + others)
    ensures MergeAll(first, others).Some? ==>
      && Valid(MergeAll(first, others).value)
      && forall l :: Valid(l) ==> (Compatible(MergeAll(first, others).value, l) <==> FitsAll([first] + others, l))
  {
    hide Compatible, Valid, Union;
    var all := [first] + others;
    if others == [] {
      assert |all| == 1 && all[0] == first;
      MergeIdempotent(first);
    } else {
      var init, last := others[..|others| - 1], others[|others| - 1];
      assert all == ([first] + init) + [last];
      assert forall i :: 0 <= i < |[first] + init| ==> ([first] + init)[i] == all[i];
      assert all[|all| - 1] == last;
      MergeAllExact(first, init);
      AllCompatibleNext([first] + init, last);
      var merged := MergeAll(first, init);
      if merged.Some? && Compatible(merged.value, last) {
        UnionValid(merged.value, last);
        forall l | Valid(l)
          ensures Compatible(Union(merged.value, last), l) <==> FitsAll(all, l)
        {
          UnionCompatible(merged.value, last, l);
          FitsAllNext([first] + init, last, l);
        }
      }
    }
  }

  lemma FitsAllNext(leases: seq<Lease>, last: Lease, l: Lease)
    ensures FitsAll(leases + [last], l) <==> FitsAll(leases, l) && Compatible(last, l)
  {
    hide Compatible;
    var all := leases + [last];
    assert all[|leases|] == last && forall i :: 0 <= i < |leases| ==> all[i] == leases[i];
  }

  predicate Assigns(l: Lease, n: string, v: string) {
    n in l.environment && l.environment[n] == v
  }

  predicate Mounts(l: Lease, t: string, m: Mount) {
    t in l.mounts && l.mounts[t] == m
  }

  lemma UnionHolds(a: Lease, b: Lease, n: string, v: string, t: string, m: Mount)
    requires Valid(a) && Valid(b) && Compatible(a, b)
    ensures Assigns(Union(a, b), n, v) <==> Assigns(a, n, v) || Assigns(b, n, v)
    ensures Mounts(Union(a, b), t, m) <==> Mounts(a, t, m) || Mounts(b, t, m)
  {
  }

  ghost predicate SomeAssigns(leases: seq<Lease>, n: string, v: string) {
    exists i :: 0 <= i < |leases| && Assigns(leases[i], n, v)
  }

  ghost predicate SomeMounts(leases: seq<Lease>, t: string, m: Mount) {
    exists i :: 0 <= i < |leases| && Mounts(leases[i], t, m)
  }

  lemma SomeNext(leases: seq<Lease>, last: Lease, n: string, v: string, t: string, m: Mount)
    ensures SomeAssigns(leases + [last], n, v) <==> SomeAssigns(leases, n, v) || Assigns(last, n, v)
    ensures SomeMounts(leases + [last], t, m) <==> SomeMounts(leases, t, m) || Mounts(last, t, m)
  {
    hide Assigns, Mounts;
    var all := leases + [last];
    assert all[|leases|] == last && forall i :: 0 <= i < |leases| ==> all[i] == leases[i];
  }

  /** The merged lease holds what some lease holds, and nothing else. */
  lemma {:induction false} MergedHolds(first: Lease, others: seq<Lease>, n: string, v: string, t: string, m: Mount)
    requires AllValid([first] + others) && MergeAll(first, others).Some?
    ensures var merged := MergeAll(first, others).value;
      && (Assigns(merged, n, v) <==> SomeAssigns([first] + others, n, v))
      && (Mounts(merged, t, m) <==> SomeMounts([first] + others, t, m))
      && merged.network == first.network
  {
    hide Compatible, Valid, Assigns, Mounts;
    var all := [first] + others;
    if others == [] {
      assert |all| == 1 && all[0] == first;
    } else {
      var init, last := others[..|others| - 1], others[|others| - 1];
      assert all == ([first] + init) + [last] && all[|all| - 1] == last;
      assert forall i :: 0 <= i < |[first] + init| ==> ([first] + init)[i] == all[i];
      MergedHolds(first, init, n, v, t, m);
      MergeAllExact(first, init);
      SomeNext([first] + init, last, n, v, t, m);
      UnionHolds(MergeAll(first, init).value, last, n, v, t, m);
    }
  }

  function AllGuards(leases: seq<Lease>): seq<nat> {
    if leases == [] then [] else AllGuards(leases[..|leases| - 1]) + leases[|leases| - 1].guards
  }

  /** Merging drops no guard: the merged lease keeps those of every lease, in order. */
  lemma {:induction false} GuardsKept(first: Lease, others: seq<Lease>)
    ensures MergeAll(first, others).Some? ==> MergeAll(first, others).value.guards == AllGuards([first] + others)
  {
    hide Compatible;
    var all := [first] + others;
    if others == [] {
      assert all[..0] == [] && AllGuards(all[..0]) == [];
    } else {
      var init := others[..|others| - 1];
      assert all[..|all| - 1] == [first] + init;
      GuardsKept(first, init);
    }
  }

  lemma SameLeases(a: seq<Lease>, b: seq<Lease>, n: string, v: string, t: string, m: Mount)
    requires multiset(a) == multiset(b)
    ensures SomeAssigns(a, n, v) ==> SomeAssigns(b, n, v)
    ensures SomeMounts(a, t, m) ==> SomeMounts(b, t, m)
  {
    hide Assigns, Mounts;
    assert forall i :: 0 <= i < |a| ==> a[i] in multiset(b);
  }

  lemma SameCompatible(a: seq<Lease>, b: seq<Lease>)
    requires multiset(a) == multiset(b) && AllCompatible(a)
    ensures AllCompatible(b)
  {
    hide Compatible;
    forall i, j | 0 <= i < |b| && 0 <= j < |b|
      ensures Compatible(b[i], b[j])
    {
      assert b[i] in multiset(a) && b[j] in multiset(a);
      var k, l :| 0 <= k < |a| && 0 <= l < |a| && a[k] == b[i] && a[l] == b[j];
    }
  }

  lemma SameHoldings(first: Lease, others: seq<Lease>, first': Lease, others': seq<Lease>,
      n: string, v: string, t: string, m: Mount)
    requires multiset([first] + others) == multiset([first'] + others') && AllValid([first] + others)
    requires AllValid([first'] + others')
    requires MergeAll(first, others).Some? && MergeAll(first', others').Some?
    ensures var l, r := MergeAll(first, others).value, MergeAll(first', others').value;
      && (Assigns(l, n, v) <==> Assigns(r, n, v)) && (Mounts(l, t, m) <==> Mounts(r, t, m))
      && l.network == r.network
  {
    hide Compatible, Valid, MergeAll, AllCompatible, SomeAssigns, SomeMounts, Assigns, Mounts;
    var a, b := [first] + others, [first'] + others';
    MergeAllExact(first, others);
    MergedHolds(first, others, n, v, t, m);
    MergedHolds(first', others', n, v, t, m);
    SameLeases(a, b, n, v, t, m);
    SameLeases(b, a, n, v, t, m);
    SameNetwork(a, b);
  }

  /** Main result: providers can be merged in any order; it fails in all orders or
      gives the same configuration in all. */
  lemma MergeAllIgnoresOrder(first: Lease, others: seq<Lease>, first': Lease, others': seq<Lease>)
    requires multiset([first] + others) == multiset([first'] + others') && AllValid([first] + others)
    requires AllValid([first'] + others')
    ensures MergeAll(first, others).Some? <==> MergeAll(first', others').Some?
    ensures MergeAll(first, others).Some? && MergeAll(first', others').Some? ==>
      Configuration(MergeAll(first, others).value) == Configuration(MergeAll(first', others').value)
  {
    hide Compatible, Valid, MergeAll, AllCompatible, SomeAssigns, SomeMounts;
    var a, b := [first] + others, [first'] + others';
    MergeAllExact(first, others);
    MergeAllExact(first', others');
    if AllCompatible(a) {
      SameCompatible(a, b);
    }
    if AllCompatible(b) {
      SameCompatible(b, a);
    }
    if MergeAll(first, others).Some? {
      var l, r := MergeAll(first, others).value, MergeAll(first', others').value;
      var any := Mount("", "", "");
      SameHoldings(first, others, first', others', "", "", "", any);
      forall n, v
        ensures Assigns(l, n, v) <==> Assigns(r, n, v)
      {
        SameHoldings(first, others, first', others', n, v, "", any);
      }
      forall t, m
        ensures Mounts(l, t, m) <==> Mounts(r, t, m)
      {
        SameHoldings(first, others, first', others', "", "", t, m);
      }
      SameMaps(l, r);
    }
  }

  lemma SameNetwork(a: seq<Lease>, b: seq<Lease>)
    requires a != [] && b != [] && multiset(a) == multiset(b) && AllCompatible(a)
    ensures a[0].network == b[0].network
  {
    assert b[0] in multiset(a);
    var k :| 0 <= k < |a| && a[k] == b[0];
    assert Compatible(a[0], a[k]);
  }

  lemma SameMaps(l: Lease, r: Lease)
    requires forall n, v :: Assigns(l, n, v) <==> Assigns(r, n, v)
    requires forall t, m :: Mounts(l, t, m) <==> Mounts(r, t, m)
    requires l.network == r.network
    ensures Configuration(l) == Configuration(r)
  {
    forall n
      ensures n in l.environment <==> n in r.environment
      ensures n in l.environment && n in r.environment ==> l.environment[n] == r.environment[n]
    {
      if n in l.environment {
        assert Assigns(l, n, l.environment[n]);
      }
      if n in r.environment {
        assert Assigns(r, n, r.environment[n]);
      }
    }
    forall t
      ensures t in l.mounts <==> t in r.mounts
      ensures t in l.mounts && t in r.mounts ==> l.mounts[t] == r.mounts[t]
    {
      if t in l.mounts {
        assert Mounts(l, t, l.mounts[t]);
      }
      if t in r.mounts {
        assert Mounts(r, t, r.mounts[t]);
      }
    }
    assert l.environment == r.environment && l.mounts == r.mounts;
  }
}
