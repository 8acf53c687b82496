/** Harbor's two content hashes. Text is modelled as the bytes it is encoded in,
    one character a byte, and SHA-256 in hexadecimal is any function `h` whose
    values have 64 characters and no NUL. */
module Checksum {
  import opened Common
  import opened Sorting

  type Hash = string -> string

  ghost predicate IsDigest(h: Hash) {
    forall s :: |h(s)| == 64 && NulFree(h(s))
  }

  predicate NulFree(s: string) {
    forall i :: 0 <= i < |s| ==> s[i] != '\0'
  }

  /** No two of the strings that were hashed share a digest. */
  ghost predicate NoCollision(h: Hash, hashed: set<string>) {
    forall a, b :: a in hashed && b in hashed && h(a) == h(b) ==> a == b
  }

  /** What lies at a path, links resolved; `Other` is neither file nor directory.
      Entries are in the order the directory is read. */
  datatype Node = File(data: string) | Dir(entries: seq<Entry>) | Other

  datatype Entry = Entry(name: string, node: Node)

  ghost predicate ValidName(name: string) {
    name != "" && NulFree(name)
  }

  ghost predicate ValidEntries(entries: seq<Entry>)
    decreases entries
  {
    && (forall i :: 0 <= i < |entries| ==> ValidName(entries[i].name))
    && (forall i, j :: 0 <= i < j < |entries| ==> entries[i].name != entries[j].name)
    && (forall i :: 0 <= i < |entries| && entries[i].node.Dir? ==> ValidEntries(entries[i].node.entries))
  }

  // ------------------------------------------------------------------
  // directory_hash
  // ------------------------------------------------------------------

  function FileLine(digest: string, name: string): string {
    "data:" + digest + "\0name:" + name
  }

  function DirLine(digest: string, name: string): string {
    "dirhash:" + digest + "\0name:" + name
  }

  /** `descriptors.join("\0\0")` */
  function Join(lines: seq<string>): string {
    if lines == [] then ""
    else if |lines| == 1 then lines[0]
    else lines[0] + "\0\0" + Join(lines[1..])
  }

  function Digest(h: Hash, lines: seq<string>): Option<string> {
    if lines == [] then None else Some(h(Join(Sort(Before, lines))))
  }

  /** The descriptor of one entry, when it has one. */
  function Line(h: Hash, e: Entry): Option<string>
    decreases e, 0
  {
    match e.node
    case File(data) => Some(FileLine(h(data), e.name))
    case Dir(sub) =>
      (match Digest(h, Lines(h, sub))
       case None => None
       case Some(digest) => Some(DirLine(digest, e.name)))
    case Other => None
  }

  function Lines(h: Hash, entries: seq<Entry>): seq<string>
    decreases entries
  {
    if entries == [] then []
    else
      var line := Line(h, entries[0]);
      (if line.Some? then [line.value] else []) + Lines(h, entries[1..])
  }

  /** `hash_directory`: None for a directory with no file below it. */
  function HashDirectory(h: Hash, entries: seq<Entry>): Option<string> {
    Digest(h, Lines(h, entries))
  }

  lemma LinesFrom(h: Hash, entries: seq<Entry>, n: nat)
    requires n < |entries|
    ensures Lines(h, entries[n..]) == Pushed([], Line(h, entries[n])) + Lines(h, entries[n + 1..])
  {
    assert entries[n..][1..] == entries[n + 1..];
  }

  function Pushed(descriptors: seq<string>, line: Option<string>): seq<string> {
    if line.Some? then descriptors + [line.value] else descriptors
  }

  lemma PushedFirst(descriptors: seq<string>, line: Option<string>, rest: seq<string>)
    ensures Pushed(descriptors, line) + rest == descriptors + (Pushed([], line) + rest)
  {
  }

  /** The recursion of `hash_directory`, one directory's loop at a time. */
  method ComputeHash(h: Hash, entries: seq<Entry>) returns (r: Option<string>)
    ensures r == HashDirectory(h, entries)
    decreases entries
  {
    var descriptors: seq<string> := [];
    for n := 0 to |entries|
      invariant descriptors + Lines(h, entries[n..]) == Lines(h, entries)
    {
      LinesFrom(h, entries, n);
      PushedFirst(descriptors, Line(h, entries[n]), Lines(h, entries[n + 1..]));
      match entries[n].node {
        case Dir(sub) =>
          var hash := ComputeHash(h, sub);
          if hash.Some? {
            descriptors := descriptors + [DirLine(hash.value, entries[n].name)];
          }
        case File(data) =>
          descriptors := descriptors + [FileLine(h(data), entries[n].name)];
        case Other =>
      }
    }
    assert descriptors == Lines(h, entries);
    if descriptors == [] {
      return None;
    }
    return Some(h(Join(Sort(Before, descriptors))));
  }

  // ------------------------------------------------------------------
  // What the hash should identify
  // ------------------------------------------------------------------

  /** A directory without its read order, and without directories that hold no file. */
  datatype Tree = Leaf(data: string) | Branch(children: map<string, Tree>)

  function Pruned(e: Entry): Option<Tree>
    decreases e, 0
  {
    match e.node
    case File(data) => Some(Leaf(data))
    case Dir(sub) =>
      var children := Content(sub);
      if children == map[] then None else Some(Branch(children))
    case Other => None
  }

  function Content(entries: seq<Entry>): map<string, Tree>
    decreases entries
  {
    if entries == [] then map[]
    else
      var tree, rest := Pruned(entries[0]), Content(entries[1..]);
      if tree.Some? then rest[entries[0].name := tree.value] else rest
  }

  /** Every string the computation feeds to the hash. */
  function Hashed(h: Hash, entries: seq<Entry>): set<string>
    decreases entries
  {
    if entries == [] then {}
    else Hashed(h, entries[1..]) + HashedBelow(h, entries[0])
  }

  function HashedBelow(h: Hash, e: Entry): set<string>
    decreases e, 0
  {
    match e.node
    case File(data) => {data}
    case Dir(sub) => {Join(Sort(Before, Lines(h, sub)))} + Hashed(h, sub)
    case Other => {}
  }

  function AllHashed(h: Hash, entries: seq<Entry>): set<string> {
    {Join(Sort(Before, Lines(h, entries)))} + Hashed(h, entries)
  }

  // ------------------------------------------------------------------
  // Lines and content, entry by entry
  // ------------------------------------------------------------------

  lemma {:induction false} LineExists(h: Hash, entries: seq<Entry>, i: nat)
    requires i < |entries| && Line(h, entries[i]).Some?
    ensures Line(h, entries[i]).value in Lines(h, entries)
  {
    if i > 0 {
      LineExists(h, entries[1..], i - 1);
    }
  }

  lemma {:induction false} LineSource(h: Hash, entries: seq<Entry>, d: string) returns (i: nat)
    requires d in Lines(h, entries)
    ensures i < |entries| && Line(h, entries[i]) == Some(d)
  {
    if Line(h, entries[0]) == Some(d) {
      return 0;
    }
    i := LineSource(h, entries[1..], d);
    return i + 1;
  }

  lemma {:induction false} ContentExists(entries: seq<Entry>, i: nat)
    requires ValidEntries(entries) && i < |entries| && Pruned(entries[i]).Some?
    ensures entries[i].name in Content(entries) && Content(entries)[entries[i].name] == Pruned(entries[i]).value
  {
    if i > 0 {
      ContentExists(entries[1..], i - 1);
      assert entries[0].name != entries[i].name;
    }
  }

  lemma {:induction false} ContentSource(entries: seq<Entry>, name: string) returns (i: nat)
    requires name in Content(entries)
    ensures i < |entries| && entries[i].name == name && Pruned(entries[i]) == Some(Content(entries)[name])
  {
    if entries[0].name == name && Pruned(entries[0]).Some? {
      return 0;
    }
    i := ContentSource(entries[1..], name);
    return i + 1;
  }

  lemma {:induction false} HashedExists(h: Hash, entries: seq<Entry>, i: nat)
    requires i < |entries|
    ensures HashedBelow(h, entries[i]) <= Hashed(h, entries)
  {
    if i > 0 {
      HashedExists(h, entries[1..], i - 1);
    }
  }

  /** A directory hashes to None exactly when pruning removes it. */
  lemma {:induction false} EmptyTogether(h: Hash, entries: seq<Entry>)
    requires ValidEntries(entries)
    ensures Lines(h, entries) == [] <==> Content(entries) == map[]
    decreases entries
  {
    if entries != [] {
      EntryTogether(h, entries[0]);
      EmptyTogether(h, entries[1..]);
      if Pruned(entries[0]).Some? {
        ContentExists(entries, 0);
      }
    }
  }

  lemma EntryTogether(h: Hash, e: Entry)
    requires e.node.Dir? ==> ValidEntries(e.node.entries)
    ensures Line(h, e).Some? <==> Pruned(e).Some?
    decreases e, 0
  {
    if e.node.Dir? {
      EmptyTogether(h, e.node.entries);
    }
  }

  // ------------------------------------------------------------------
  // The encoding can be read back
  // ------------------------------------------------------------------

  lemma TailEqual(prefix: string, a: string, b: string, middle: string, x: string, y: string)
    requires |a| == |b| && prefix + a + middle + x == prefix + b + middle + y
    ensures a == b && x == y
  {
    var l, r := prefix + a + middle + x, prefix + b + middle + y;
    assert a == l[|prefix|..|prefix| + |a|] && b == r[|prefix|..|prefix| + |b|];
    assert x == l[|prefix| + |a| + |middle|..] && y == r[|prefix| + |b| + |middle|..];
  }

  lemma KindsDiffer(digest: string, name: string, digest': string, name': string)
    ensures FileLine(digest, name) != DirLine(digest', name')
  {
    assert FileLine(digest, name)[1] == 'a' && DirLine(digest', name')[1] == 'i';
  }

  /** A line determines the kind, the digest and the name of its entry. */
  lemma LineReadsBack(h: Hash, a: Entry, b: Entry)
    requires IsDigest(h) && Line(h, a).Some? && Line(h, a) == Line(h, b)
    ensures a.name == b.name
    ensures a.node.File? && b.node.File? ==> h(a.node.data) == h(b.node.data)
    ensures a.node.Dir? && b.node.Dir? ==> HashDirectory(h, a.node.entries) == HashDirectory(h, b.node.entries)
    ensures (a.node.File? && b.node.File?) || (a.node.Dir? && b.node.Dir?)
  {
    match (a.node, b.node)
    case (File(d), File(d')) => TailEqual("data:", h(d), h(d'), "\0name:", a.name, b.name);
    case (Dir(s), Dir(s')) =>
      TailEqual("dirhash:", HashDirectory(h, s).value, HashDirectory(h, s').value, "\0name:", a.name, b.name);
    case (File(d), Dir(s)) => KindsDiffer(h(d), a.name, HashDirectory(h, s).value, b.name);
    case (Dir(s), File(d)) => KindsDiffer(h(d), b.name, HashDirectory(h, s).value, a.name);
  }

  /** Neither starts nor ends with NUL and has no two in a row. */
  ghost predicate Plain(line: string) {
    && line != "" && line[0] != '\0' && line[|line| - 1] != '\0'
    && forall i :: 0 <= i < |line| - 1 ==> line[i] != '\0' || line[i + 1] != '\0'
  }

  lemma LineIsPlain(h: Hash, e: Entry)
    requires IsDigest(h) && ValidName(e.name) && Line(h, e).Some?
    ensures Plain(Line(h, e).value)
  {
  }

  lemma {:induction false} JoinReadsBack(a: seq<string>, b: seq<string>)
    requires (forall i :: 0 <= i < |a| ==> Plain(a[i])) && (forall i :: 0 <= i < |b| ==> Plain(b[i]))
    requires Join(a) == Join(b)
    ensures a == b
  {
    if a != [] && b != [] {
      FirstLineNoLonger(a, b);
      FirstLineNoLonger(b, a);
      assert a[0] == Join(a)[..|a[0]|] && b[0] == Join(b)[..|b[0]|];
      if |a| > 1 && |b| > 1 {
        assert Join(a)[|a[0]| + 2..] == Join(a[1..]) && Join(b)[|b[0]| + 2..] == Join(b[1..]);
        JoinReadsBack(a[1..], b[1..]);
        assert a == [a[0]] + a[1..] && b == [b[0]] + b[1..];
      }
    }
  }

  lemma FirstLineNoLonger(a: seq<string>, b: seq<string>)
    requires a != [] && b != [] && Plain(a[0]) && Plain(b[0]) && Join(a) == Join(b)
    ensures |a[0]| <= |b[0]|
  {
    var n := |b[0]|;
    assert |b| == 1 ==> |Join(b)| == n;
    assert |b| > 1 ==> Join(b)[n] == '\0' && Join(b)[n + 1] == '\0';
    assert forall i :: 0 <= i < |a[0]| ==> Join(a)[i] == a[0][i];
  }

  // ------------------------------------------------------------------
  // directory_hash identifies the pruned tree
  // ------------------------------------------------------------------

  lemma LinesDistinct(h: Hash, entries: seq<Entry>, i: nat, j: nat)
    requires IsDigest(h) && ValidEntries(entries) && i < j < |entries|
    requires Line(h, entries[i]).Some?
    ensures Line(h, entries[i]) != Line(h, entries[j])
  {
    if Line(h, entries[i]) == Line(h, entries[j]) {
      LineReadsBack(h, entries[i], entries[j]);
    }
  }

  lemma {:induction false} LinesComparable(h: Hash, entries: seq<Entry>)
    requires IsDigest(h) && ValidEntries(entries)
    ensures Comparable(Before, Lines(h, entries))
  {
    if entries != [] {
      var first, rest := Line(h, entries[0]), Lines(h, entries[1..]);
      LinesComparable(h, entries[1..]);
      if first.Some? {
        forall j | 0 <= j < |rest|
          ensures Before(first.value, rest[j]) || Before(rest[j], first.value)
        {
          var k := LineSource(h, entries[1..], rest[j]);
          LinesDistinct(h, entries, 0, k + 1);
          BeforeTotal(first.value, rest[j]);
        }
      }
    }
  }

  lemma LinesPlain(h: Hash, entries: seq<Entry>)
    requires IsDigest(h) && ValidEntries(entries)
    ensures forall d :: d in Sort(Before, Lines(h, entries)) ==> Plain(d)
    ensures SameElements(Sort(Before, Lines(h, entries)), Lines(h, entries))
  {
    BeforeIsOrder();
    LinesComparable(h, entries);
    SortAscends(Before, Lines(h, entries));
    forall d | d in Lines(h, entries)
      ensures Plain(d)
    {
      var i := LineSource(h, entries, d);
      LineIsPlain(h, entries[i]);
    }
  }

  /** Equal digests, and no collision, mean equal sets of lines. */
  lemma EqualHashEqualLines(h: Hash, a: seq<Entry>, b: seq<Entry>, hashed: set<string>)
    requires IsDigest(h) && ValidEntries(a) && ValidEntries(b)
    requires NoCollision(h, hashed) && AllHashed(h, a) + AllHashed(h, b) <= hashed
    requires HashDirectory(h, a) == HashDirectory(h, b)
    ensures SameElements(Lines(h, a), Lines(h, b))
  {
    if Lines(h, a) != [] {
      var x, y := Sort(Before, Lines(h, a)), Sort(Before, Lines(h, b));
      LinesPlain(h, a);
      LinesPlain(h, b);
      assert Join(x) in AllHashed(h, a) && Join(y) in AllHashed(h, b);
      assert h(Join(x)) == h(Join(y));
      assert forall i :: 0 <= i < |x| ==> x[i] in x;
      assert forall i :: 0 <= i < |y| ==> y[i] in y;
      JoinReadsBack(x, y);
    }
  }

  lemma HashedWithin(h: Hash, entries: seq<Entry>, i: nat)
    requires i < |entries|
    ensures entries[i].node.File? ==> entries[i].node.data in AllHashed(h, entries)
    ensures entries[i].node.Dir? ==> AllHashed(h, entries[i].node.entries) <= AllHashed(h, entries)
  {
    HashedExists(h, entries, i);
  }

  lemma EqualLineEqualContent(h: Hash, a: seq<Entry>, b: seq<Entry>, hashed: set<string>, i: nat, j: nat)
    requires IsDigest(h) && ValidEntries(a) && ValidEntries(b)
    requires NoCollision(h, hashed) && AllHashed(h, a) + AllHashed(h, b) <= hashed
    requires i < |a| && j < |b| && Line(h, a[i]).Some? && Line(h, a[i]) == Line(h, b[j])
    ensures a[i].name == b[j].name && Pruned(a[i]) == Pruned(b[j])
    decreases a, 0
  {
    LineReadsBack(h, a[i], b[j]);
    HashedWithin(h, a, i);
    HashedWithin(h, b, j);
    if a[i].node.Dir? {
      EqualHashEqualContent(h, a[i].node.entries, b[j].node.entries, hashed);
    }
  }

  lemma {:induction false} EqualHashEqualContent(h: Hash, a: seq<Entry>, b: seq<Entry>, hashed: set<string>)
    requires IsDigest(h) && ValidEntries(a) && ValidEntries(b)
    requires NoCollision(h, hashed) && AllHashed(h, a) + AllHashed(h, b) <= hashed
    requires HashDirectory(h, a) == HashDirectory(h, b)
    ensures Content(a) == Content(b)
    decreases a, 1
  {
    EqualHashEqualLines(h, a, b, hashed);
    forall name | name in Content(a)
      ensures name in Content(b) && Content(a)[name] == Content(b)[name]
    {
      var i := ContentSource(a, name);
      EntryTogether(h, a[i]);
      LineExists(h, a, i);
      var j := LineSource(h, b, Line(h, a[i]).value);
      EqualLineEqualContent(h, a, b, hashed, i, j);
      ContentExists(b, j);
    }
    forall name | name in Content(b)
      ensures name in Content(a)
    {
      var j := ContentSource(b, name);
      EntryTogether(h, b[j]);
      LineExists(h, b, j);
      var i := LineSource(h, a, Line(h, b[j]).value);
      EqualLineEqualContent(h, a, b, hashed, i, j);
      ContentExists(a, i);
    }
  }

  /** Two entries with the same pruned content have the same line. */
  lemma EqualContentEqualLine(h: Hash, a: Entry, b: Entry)
    requires IsDigest(h) && a.name == b.name && Pruned(a).Some? && Pruned(a) == Pruned(b)
    requires a.node.Dir? ==> ValidEntries(a.node.entries)
    requires b.node.Dir? ==> ValidEntries(b.node.entries)
    ensures Line(h, a).Some? && Line(h, a) == Line(h, b)
    decreases a, 0
  {
    EntryTogether(h, a);
    if a.node.Dir? {
      EqualContentEqualHash(h, a.node.entries, b.node.entries);
    }
  }

  lemma {:induction false} EqualContentEqualHash(h: Hash, a: seq<Entry>, b: seq<Entry>)
    requires IsDigest(h) && ValidEntries(a) && ValidEntries(b) && Content(a) == Content(b)
    ensures HashDirectory(h, a) == HashDirectory(h, b)
    decreases a
  {
    forall d | d in Lines(h, a)
      ensures d in Lines(h, b)
    {
      var i := LineSource(h, a, d);
      EntryTogether(h, a[i]);
      ContentExists(a, i);
      var j := ContentSource(b, a[i].name);
      EqualContentEqualLine(h, a[i], b[j]);
      LineExists(h, b, j);
    }
    forall d | d in Lines(h, b)
      ensures d in Lines(h, a)
    {
      var j := LineSource(h, b, d);
      EntryTogether(h, b[j]);
      ContentExists(b, j);
      var i := ContentSource(a, b[j].name);
      EqualContentEqualLine(h, a[i], b[j]);
      LineExists(h, a, i);
    }
    EmptyTogether(h, a);
    EmptyTogether(h, b);
    BeforeIsOrder();
    LinesComparable(h, a);
    LinesComparable(h, b);
    SortIgnoresOrder(Before, Lines(h, a), Lines(h, b));
  }

  /** Walking the names through directories from `entries` ends at a file with this content. */
  ghost predicate Reaches(entries: seq<Entry>, names: seq<string>, data: string)
    decreases |names|
  {
    && names != []
    && exists e :: e in entries && e.name == names[0]
         && if |names| == 1 then e.node == File(data)
            else e.node.Dir? && Reaches(e.node.entries, names[1..], data)
  }

  /** The same walk, in what pruning leaves. */
  ghost predicate Holds(t: Tree, names: seq<string>, data: string)
    decreases |names|
  {
    match t
    case Leaf(own) => names == [] && own == data
    case Branch(children) => names != [] && names[0] in children && Holds(children[names[0]], names[1..], data)
  }

  lemma {:induction false} ReachedHeld(entries: seq<Entry>, names: seq<string>, data: string)
    requires ValidEntries(entries) && Reaches(entries, names, data)
    ensures Holds(Branch(Content(entries)), names, data)
    decreases |names|
  {
    hide Content;
    var i :| 0 <= i < |entries| && entries[i].name == names[0]
         && if |names| == 1 then entries[i].node == File(data)
            else entries[i].node.Dir? && Reaches(entries[i].node.entries, names[1..], data);
    if |names| > 1 {
      ReachedHeld(entries[i].node.entries, names[1..], data);
    } else {
      assert names[1..] == [];
    }
    ContentExists(entries, i);
  }

  lemma {:induction false} HeldReached(entries: seq<Entry>, names: seq<string>, data: string)
    requires ValidEntries(entries) && Holds(Branch(Content(entries)), names, data)
    ensures Reaches(entries, names, data)
    decreases |names|
  {
    hide Content;
    var i := ContentSource(entries, names[0]);
    assert entries[i] in entries;
    if entries[i].node.Dir? {
      HeldReached(entries[i].node.entries, names[1..], data);
    }
  }

  /** No branch is empty. */
  ghost predicate Full(t: Tree) {
    t.Branch? ==> t.children != map[] && forall name :: name in t.children ==> Full(t.children[name])
  }

  lemma {:induction false} ContentFull(entries: seq<Entry>)
    ensures forall name :: name in Content(entries) ==> Full(Content(entries)[name])
    decreases entries
  {
    if entries != [] {
      if entries[0].node.Dir? {
        var below := Content(entries[0].node.entries);
        ContentFull(entries[0].node.entries);
        assert below != map[] ==> Full(Branch(below));
      }
      ContentFull(entries[1..]);
    }
  }

  lemma {:induction false} SomethingHeld(t: Tree)
    requires Full(t)
    ensures exists names, data :: Holds(t, names, data)
  {
    match t
    case Leaf(data) =>
      assert Holds(t, [], data);
    case Branch(children) =>
      var name :| name in children;
      SomethingHeld(children[name]);
      var names, data :| Holds(children[name], names, data);
      assert ([name] + names)[1..] == names;
      assert Holds(t, [name] + names, data);
  }

  ghost predicate HoldSame(s: Tree, t: Tree) {
    forall names, data :: Holds(s, names, data) <==> Holds(t, names, data)
  }

  lemma HoldSameBelow(s: Tree, t: Tree, name: string)
    requires s.Branch? && t.Branch? && HoldSame(s, t) && name in s.children && Full(s.children[name])
    ensures name in t.children && HoldSame(s.children[name], t.children[name])
  {
    SomethingHeld(s.children[name]);
    var names, data :| Holds(s.children[name], names, data);
    HeldBelow(s, name, names, data);
    assert Holds(t, [name] + names, data);
    forall names, data
      ensures Holds(s.children[name], names, data) <==> Holds(t.children[name], names, data)
    {
      HeldBelow(s, name, names, data);
      HeldBelow(t, name, names, data);
    }
  }

  lemma HeldBelow(t: Tree, name: string, names: seq<string>, data: string)
    requires t.Branch? && name in t.children
    ensures Holds(t, [name] + names, data) <==> Holds(t.children[name], names, data)
  {
    assert ([name] + names)[1..] == names;
  }

  /** What a full tree holds determines it. */
  lemma {:induction false} HeldDetermines(s: Tree, t: Tree)
    requires Full(s) && Full(t) && HoldSame(s, t)
    ensures s == t
    decreases s, 1
  {
    match s
    case Leaf(data) =>
      assert Holds(s, [], data);
    case Branch(children) =>
      if t.Leaf? {
        assert Holds(t, [], t.data);
      } else {
        ChildrenDetermined(s, t);
      }
  }

  lemma {:induction false} ChildrenDetermined(s: Tree, t: Tree)
    requires s.Branch? && t.Branch? && HoldSame(s, t)
    requires forall name :: name in s.children ==> Full(s.children[name])
    requires forall name :: name in t.children ==> Full(t.children[name])
    ensures s == t
    decreases s, 0
  {
    hide Holds, HoldSame, Full;
    forall name | name in s.children
      ensures name in t.children && s.children[name] == t.children[name]
    {
      HoldSameBelow(s, t, name);
      HeldDetermines(s.children[name], t.children[name]);
    }
    forall name | name in t.children
      ensures name in s.children
    {
      HoldSameSwap(s, t);
      HoldSameBelow(t, s, name);
    }
  }

  lemma HoldSameSwap(s: Tree, t: Tree)
    requires HoldSame(s, t)
    ensures HoldSame(t, s)
  {
  }

  /** Two directories have the same files: the same names lead to the same data. */
  ghost predicate SameFiles(a: seq<Entry>, b: seq<Entry>) {
    forall names, data :: Reaches(a, names, data) <==> Reaches(b, names, data)
  }

  lemma ContentIsFiles(a: seq<Entry>, b: seq<Entry>)
    requires ValidEntries(a) && ValidEntries(b)
    ensures Content(a) == Content(b) <==> SameFiles(a, b)
  {
    hide Content, Reaches, Holds, ValidEntries;
    var s, t := Branch(Content(a)), Branch(Content(b));
    forall names, data
      ensures Reaches(a, names, data) <==> Holds(s, names, data)
      ensures Reaches(b, names, data) <==> Holds(t, names, data)
    {
      ReachIsHeld(a, names, data);
      ReachIsHeld(b, names, data);
    }
    if SameFiles(a, b) {
      ContentFull(a);
      ContentFull(b);
      ChildrenDetermined(s, t);
    }
  }

  lemma ReachIsHeld(entries: seq<Entry>, names: seq<string>, data: string)
    requires ValidEntries(entries)
    ensures Reaches(entries, names, data) <==> Holds(Branch(Content(entries)), names, data)
  {
    hide Content;
    if Reaches(entries, names, data) {
      ReachedHeld(entries, names, data);
    }
    if Holds(Branch(Content(entries)), names, data) {
      HeldReached(entries, names, data);
    }
  }

  /** Main result for `directory_hash`: it identifies the files and where they lie, whatever
      the read order and the directories without any, unless two hashed strings collide. */
  lemma DirectoryHashExact(h: Hash, a: seq<Entry>, b: seq<Entry>)
    requires IsDigest(h) && ValidEntries(a) && ValidEntries(b)
    requires NoCollision(h, AllHashed(h, a) + AllHashed(h, b))
    ensures HashDirectory(h, a) == HashDirectory(h, b) <==> SameFiles(a, b)
  {
    ContentIsFiles(a, b);
    if Content(a) == Content(b) {
      EqualContentEqualHash(h, a, b);
    } else if HashDirectory(h, a) == HashDirectory(h, b) {
      EqualHashEqualContent(h, a, b, AllHashed(h, a) + AllHashed(h, b));
    }
  }

  // ------------------------------------------------------------------
  // package_content_hash
  // ------------------------------------------------------------------

  const PACKAGE_FILES: seq<string> := ["task.toml", "instruction.md", "README.md"]
  const PACKAGE_DIRECTORIES: seq<string> := ["environment", "tests", "solution", "steps"]

  /** Whether the ignore rules drop a relative path; the flag tells a directory. */
  type IgnoreRule = (string, bool) -> bool

  /** `collect_package_files`, which does not follow links: a link is `Other` here. */
  function Collected(ignored: IgnoreRule, prefix: string, entries: seq<Entry>): seq<(string, string)>
    decreases entries
  {
    if entries == [] then []
    else CollectedAt(ignored, prefix, entries[0]) + Collected(ignored, prefix, entries[1..])
  }

  function CollectedAt(ignored: IgnoreRule, prefix: string, e: Entry): seq<(string, string)>
    decreases e, 0
  {
    var path := prefix + e.name;
    if ignored(path, e.node.Dir?) then []
    else
      match e.node
      case File(data) => [(path, data)]
      case Dir(sub) => Collected(ignored, path + "/", sub)
      case Other => []
  }

  function Lookup(entries: seq<Entry>, name: string): Option<Node> {
    if entries == [] then None
    else if entries[0].name == name then Some(entries[0].node)
    else Lookup(entries[1..], name)
  }

  /** What one of the three top-level files contributes. */
  function TopFile(ignored: IgnoreRule, root: seq<Entry>, name: string): seq<(string, string)> {
    var node := Lookup(root, name);
    if node.Some? && node.value.File? && !ignored(name, false) then [(name, node.value.data)] else []
  }

  function TopFiles(ignored: IgnoreRule, root: seq<Entry>, names: seq<string>): seq<(string, string)> {
    if names == [] then [] else TopFile(ignored, root, names[0]) + TopFiles(ignored, root, names[1..])
  }

  /** What one of the four directories contributes. */
  function TopDirectory(ignored: IgnoreRule, root: seq<Entry>, name: string): seq<(string, string)> {
    var node := Lookup(root, name);
    if node.Some? && node.value.Dir? then Collected(ignored, name + "/", node.value.entries) else []
  }

  function TopDirectories(ignored: IgnoreRule, root: seq<Entry>, names: seq<string>): seq<(string, string)> {
    if names == [] then [] else TopDirectory(ignored, root, names[0]) + TopDirectories(ignored, root, names[1..])
  }

  /** The package's files, as (relative name, content). */
  function PackageFiles(ignored: IgnoreRule, root: seq<Entry>): seq<(string, string)> {
    TopFiles(ignored, root, PACKAGE_FILES) + TopDirectories(ignored, root, PACKAGE_DIRECTORIES)
  }

  predicate NameBefore(a: (string, string), b: (string, string)) {
    Before(a.0, b.0)
  }

  /** What the outer digest is fed: name, NUL, content digest, newline. */
  function Encode(h: Hash, files: seq<(string, string)>): string {
    if files == [] then ""
    else files[0].0 + "\0" + h(files[0].1) + "\n" + Encode(h, files[1..])
  }

  function PackageHash(h: Hash, ignored: IgnoreRule, root: seq<Entry>): string {
    h(Encode(h, Sort(NameBefore, PackageFiles(ignored, root))))
  }

  method CollectPackageFiles(ignored: IgnoreRule, prefix: string, entries: seq<Entry>, files: seq<(string, string)>)
    returns (r: seq<(string, string)>)
    ensures r == files + Collected(ignored, prefix, entries)
    decreases entries
  {
    r := files;
    for n := 0 to |entries|
      invariant r + Collected(ignored, prefix, entries[n..]) == files + Collected(ignored, prefix, entries)
    {
      var e := entries[n];
      ghost var before, rest := r, Collected(ignored, prefix, entries[n + 1..]);
      assert entries[n..][1..] == entries[n + 1..];
      assert before + (CollectedAt(ignored, prefix, e) + rest) == (before + CollectedAt(ignored, prefix, e)) + rest;
      var path := prefix + e.name;
      if !ignored(path, e.node.Dir?) {
        match e.node {
          case Dir(sub) => r := CollectPackageFiles(ignored, path + "/", sub, r);
          case File(data) => r := r + [(path, data)];
          case Other =>
        }
      }
    }
  }

  method AddPackageFiles(ignored: IgnoreRule, root: seq<Entry>, names: seq<string>)
    returns (files: seq<(string, string)>)
    ensures files == TopFiles(ignored, root, names)
  {
    hide TopFile;
    files := [];
    for n := 0 to |names|
      invariant files + TopFiles(ignored, root, names[n..]) == TopFiles(ignored, root, names)
    {
      ghost var before, rest := files, TopFiles(ignored, root, names[n + 1..]);
      assert names[n..][1..] == names[n + 1..];
      files := files + TopFile(ignored, root, names[n]);
      assert before + (TopFile(ignored, root, names[n]) + rest) == files + rest;
    }
  }

  method AddPackageDirectory(ignored: IgnoreRule, root: seq<Entry>, name: string, files: seq<(string, string)>)
    returns (r: seq<(string, string)>)
    ensures r == files + TopDirectory(ignored, root, name)
  {
    hide Collected;
    r := files;
    var node := Lookup(root, name);
    if node.Some? && node.value.Dir? {
      r := CollectPackageFiles(ignored, name + "/", node.value.entries, r);
    }
  }

  method AddPackageDirectories(ignored: IgnoreRule, root: seq<Entry>, names: seq<string>, files: seq<(string, string)>)
    returns (r: seq<(string, string)>)
    ensures r == files + TopDirectories(ignored, root, names)
  {
    hide TopDirectory;
    r := files;
    for n := 0 to |names|
      invariant r + TopDirectories(ignored, root, names[n..]) == files + TopDirectories(ignored, root, names)
    {
      ghost var before, rest := r, TopDirectories(ignored, root, names[n + 1..]);
      assert names[n..][1..] == names[n + 1..];
      r := AddPackageDirectory(ignored, root, names[n], r);
      assert before + (TopDirectory(ignored, root, names[n]) + rest) == r + rest;
    }
  }

  method UpdateDigest(h: Hash, files: seq<(string, string)>) returns (outer: string)
    ensures outer == Encode(h, files)
  {
    outer := "";
    for n := 0 to |files|
      invariant outer + Encode(h, files[n..]) == Encode(h, files)
    {
      assert files[n..][1..] == files[n + 1..];
      outer := outer + (files[n].0 + "\0" + h(files[n].1) + "\n");
    }
  }

  method ComputePackageHash(h: Hash, ignored: IgnoreRule, root: seq<Entry>) returns (r: string)
    ensures r == PackageHash(h, ignored, root)
  {
    var files := AddPackageFiles(ignored, root, PACKAGE_FILES);
    files := AddPackageDirectories(ignored, root, PACKAGE_DIRECTORIES, files);
    var outer := UpdateDigest(h, Sort(NameBefore, files));
    return h(outer);
  }

  // ------------------------------------------------------------------
  // Which files a package has
  // ------------------------------------------------------------------

  predicate SlashFree(s: string) {
    forall i :: 0 <= i < |s| ==> s[i] != '/'
  }

  /** Names as a file system gives them. */
  ghost predicate PathNames(entries: seq<Entry>)
    decreases entries
  {
    && (forall i :: 0 <= i < |entries| ==> SlashFree(entries[i].name) && NulFree(entries[i].name))
    && (forall i, j :: 0 <= i < j < |entries| ==> entries[i].name != entries[j].name)
    && (forall i :: 0 <= i < |entries| && entries[i].node.Dir? ==> PathNames(entries[i].node.entries))
  }

  /** Names joined by separators. */
  function PathOf(names: seq<string>): string
    requires names != []
  {
    if |names| == 1 then names[0] else names[0] + "/" + PathOf(names[1..])
  }

  /** No rule drops the file, or a directory on the way to it from `prefix`. */
  ghost predicate Kept(ignored: IgnoreRule, prefix: string, names: seq<string>)
    requires names != []
  {
    && !ignored(prefix + PathOf(names), false)
    && forall k :: 1 <= k < |names| ==> !ignored(prefix + PathOf(names[..k]), true)
  }

  lemma KeptDeeper(ignored: IgnoreRule, prefix: string, names: seq<string>)
    requires |names| > 1
    ensures Kept(ignored, prefix, names)
       <==> !ignored(prefix + names[0], true) && Kept(ignored, prefix + names[0] + "/", names[1..])
  {
    var deeper, rest := prefix + names[0] + "/", names[1..];
    assert prefix + PathOf(names) == deeper + PathOf(rest);
    assert names[..1] == [names[0]] && PathOf(names[..1]) == names[0];
    forall k | 1 <= k < |rest|
      ensures prefix + PathOf(names[..k + 1]) == deeper + PathOf(rest[..k])
    {
      assert names[..k + 1][1..] == rest[..k];
    }
    if Kept(ignored, deeper, rest) && !ignored(prefix + names[0], true) {
      forall k | 1 <= k < |names|
        ensures !ignored(prefix + PathOf(names[..k]), true)
      {
        if k > 1 {
          assert prefix + PathOf(names[..k - 1 + 1]) == deeper + PathOf(rest[..k - 1]);
        }
      }
    }
    if Kept(ignored, prefix, names) {
      assert !ignored(prefix + PathOf(names[..1]), true);
    }
  }

  lemma {:induction false} InCollected(ignored: IgnoreRule, prefix: string, entries: seq<Entry>, e: Entry,
      f: (string, string))
    requires e in entries && f in CollectedAt(ignored, prefix, e)
    ensures f in Collected(ignored, prefix, entries)
  {
    hide CollectedAt;
    if entries[0] != e {
      InCollected(ignored, prefix, entries[1..], e, f);
    }
  }

  /** Every file that can be reached and is kept is collected. */
  lemma {:induction false} CollectsAll(ignored: IgnoreRule, prefix: string, entries: seq<Entry>, names: seq<string>,
      data: string)
    requires Reaches(entries, names, data) && Kept(ignored, prefix, names)
    ensures (prefix + PathOf(names), data) in Collected(ignored, prefix, entries)
    decreases |names|
  {
    hide Collected, Kept;
    var e :| e in entries && e.name == names[0]
         && if |names| == 1 then e.node == File(data)
            else e.node.Dir? && Reaches(e.node.entries, names[1..], data);
    if |names| > 1 {
      KeptDeeper(ignored, prefix, names);
      CollectsAll(ignored, prefix + names[0] + "/", e.node.entries, names[1..], data);
      assert prefix + PathOf(names) == prefix + names[0] + "/" + PathOf(names[1..]);
    } else {
      KeptOne(ignored, prefix, names);
    }
    InCollected(ignored, prefix, entries, e, (prefix + PathOf(names), data));
  }

  lemma KeptOne(ignored: IgnoreRule, prefix: string, names: seq<string>)
    requires |names| == 1
    ensures Kept(ignored, prefix, names) <==> !ignored(prefix + names[0], false)
  {
  }

  /** And nothing else is. */
  lemma {:induction false} CollectsOnly(ignored: IgnoreRule, prefix: string, entries: seq<Entry>,
      f: (string, string)) returns (names: seq<string>)
    requires f in Collected(ignored, prefix, entries)
    ensures names != [] && f.0 == prefix + PathOf(names)
    ensures Reaches(entries, names, f.1) && Kept(ignored, prefix, names)
    decreases entries
  {
    hide Kept;
    var e := entries[0];
    if f in CollectedAt(ignored, prefix, e) {
      if e.node.File? {
        names := [e.name];
        KeptOne(ignored, prefix, names);
      } else {
        var rest := CollectsOnly(ignored, prefix + e.name + "/", e.node.entries, f);
        names := [e.name] + rest;
        assert names[1..] == rest;
        KeptDeeper(ignored, prefix, names);
        assert f.0 == prefix + (e.name + "/" + PathOf(rest));
      }
      assert e in entries;
    } else {
      names := CollectsOnly(ignored, prefix, entries[1..], f);
      ReachesMore(entries, names, f.1);
    }
  }

  lemma ReachesMore(entries: seq<Entry>, names: seq<string>, data: string)
    requires entries != [] && Reaches(entries[1..], names, data)
    ensures Reaches(entries, names, data)
  {
    var e :| e in entries[1..] && e.name == names[0]
         && if |names| == 1 then e.node == File(data)
            else e.node.Dir? && Reaches(e.node.entries, names[1..], data);
    assert e in entries;
  }

  /** A package's file: one of the three at the top, or below one of the four
      directories, where rules apply to everything but the directory itself. */
  ghost predicate InPackage(ignored: IgnoreRule, root: seq<Entry>, names: seq<string>, data: string) {
    && Reaches(root, names, data)
    && if |names| == 1 then names[0] in ["task.toml", "instruction.md", "README.md"] && !ignored(names[0], false)
       else names[0] in ["environment", "tests", "solution", "steps"] && Kept(ignored, names[0] + "/", names[1..])
  }

  ghost predicate HasFile(ignored: IgnoreRule, root: seq<Entry>, path: string, data: string) {
    exists names :: names != [] && path == PathOf(names) && InPackage(ignored, root, names, data)
  }

  lemma {:induction false} LookupExact(entries: seq<Entry>, name: string, node: Node)
    requires PathNames(entries)
    ensures Lookup(entries, name) == Some(node) <==> Entry(name, node) in entries
  {
    if entries != [] {
      var rest := entries[1..];
      assert PathNames(rest);
      LookupExact(rest, name, node);
      assert entries == [entries[0]] + rest;
      assert forall i :: 0 <= i < |rest| ==> rest[i] == entries[i + 1];
      assert forall i :: 0 <= i < |rest| ==> rest[i].name != entries[0].name;
    }
  }

  lemma {:induction false} InTopFiles(ignored: IgnoreRule, root: seq<Entry>, names: seq<string>, f: (string, string))
    ensures f in TopFiles(ignored, root, names) <==>
      exists name :: name in names && f in TopFile(ignored, root, name)
  {
    hide TopFile;
    if names != [] {
      InTopFiles(ignored, root, names[1..], f);
      assert names == [names[0]] + names[1..];
    }
  }

  lemma {:induction false} InTopDirectories(ignored: IgnoreRule, root: seq<Entry>, names: seq<string>,
      f: (string, string))
    ensures f in TopDirectories(ignored, root, names) <==>
      exists name :: name in names && f in TopDirectory(ignored, root, name)
  {
    hide TopDirectory;
    if names != [] {
      InTopDirectories(ignored, root, names[1..], f);
      assert names == [names[0]] + names[1..];
    }
  }

  lemma TopFileHas(ignored: IgnoreRule, root: seq<Entry>, name: string, f: (string, string))
    requires PathNames(root)
    ensures f in TopFile(ignored, root, name) <==>
      f.0 == name && Entry(name, File(f.1)) in root && !ignored(name, false)
  {
    hide PathNames, Lookup;
    LookupExact(root, name, File(f.1));
  }

  lemma {:induction false} TopDirectoryHas(ignored: IgnoreRule, root: seq<Entry>, name: string, f: (string, string))
    requires PathNames(root)
    ensures f in TopDirectory(ignored, root, name) ==>
      exists rest :: rest != [] && f.0 == PathOf([name] + rest)
                     && Reaches(root, [name] + rest, f.1) && Kept(ignored, name + "/", rest)
  {
    hide PathNames, Lookup, Collected, Kept;
    if f in TopDirectory(ignored, root, name) {
      var sub := Lookup(root, name).value.entries;
      LookupExact(root, name, Dir(sub));
      var rest := CollectsOnly(ignored, name + "/", sub, f);
      var names := [name] + rest;
      assert names[1..] == rest && names[0] == name;
      assert Entry(name, Dir(sub)) in root;
      assert f.0 == PathOf(names) && Reaches(root, names, f.1);
    }
  }

  lemma TopDirectoryTakes(ignored: IgnoreRule, root: seq<Entry>, names: seq<string>, data: string)
    requires PathNames(root) && |names| > 1 && Reaches(root, names, data)
    requires Kept(ignored, names[0] + "/", names[1..])
    ensures (PathOf(names), data) in TopDirectory(ignored, root, names[0])
  {
    hide PathNames, Lookup, Collected, Kept;
    var e :| e in root && e.name == names[0] && e.node.Dir? && Reaches(e.node.entries, names[1..], data);
    LookupExact(root, names[0], e.node);
    CollectsAll(ignored, names[0] + "/", e.node.entries, names[1..], data);
  }

  /** Main result: the listing holds exactly the package's files, each with its content. */
  lemma ListingExact(ignored: IgnoreRule, root: seq<Entry>, path: string, data: string)
    requires PathNames(root)
    ensures (path, data) in PackageFiles(ignored, root) <==> HasFile(ignored, root, path, data)
  {
    hide PathNames, TopFile, TopDirectory, Kept, TopFiles, TopDirectories;
    var f := (path, data);
    InTopFiles(ignored, root, PACKAGE_FILES, f);
    InTopDirectories(ignored, root, PACKAGE_DIRECTORIES, f);
    if f in TopFiles(ignored, root, PACKAGE_FILES) {
      var name :| name in PACKAGE_FILES && f in TopFile(ignored, root, name);
      TopFileHas(ignored, root, name, f);
      assert InPackage(ignored, root, [name], data) && path == PathOf([name]);
    }
    if f in TopDirectories(ignored, root, PACKAGE_DIRECTORIES) {
      var name :| name in PACKAGE_DIRECTORIES && f in TopDirectory(ignored, root, name);
      TopDirectoryHas(ignored, root, name, f);
      var rest :| rest != [] && path == PathOf([name] + rest)
        && Reaches(root, [name] + rest, data) && Kept(ignored, name + "/", rest);
      assert ([name] + rest)[1..] == rest;
      assert InPackage(ignored, root, [name] + rest, data);
    }
    if HasFile(ignored, root, path, data) {
      var names :| names != [] && path == PathOf(names) && InPackage(ignored, root, names, data);
      if |names| == 1 {
        TopFileHas(ignored, root, names[0], f);
      } else {
        TopDirectoryTakes(ignored, root, names, data);
      }
    }
  }

  // ------------------------------------------------------------------
  // package_content_hash identifies the listing
  // ------------------------------------------------------------------

  /** `path` is `prefix`, then the segment `name`, then nothing or a deeper path. */
  ghost predicate Under(prefix: string, name: string, path: string) {
    && prefix + name <= path
    && (|path| > |prefix + name| ==> path[|prefix + name|] == '/')
  }

  lemma SegmentNoLonger(prefix: string, name: string, name': string, path: string)
    requires SlashFree(name) && Under(prefix, name, path) && Under(prefix, name', path)
    ensures |name| <= |name'|
  {
  }

  lemma SegmentReadsBack(prefix: string, name: string, name': string, path: string)
    requires SlashFree(name) && SlashFree(name')
    requires Under(prefix, name, path) && Under(prefix, name', path)
    ensures name == name'
  {
    SegmentNoLonger(prefix, name, name', path);
    SegmentNoLonger(prefix, name', name, path);
    assert name == path[|prefix|..|prefix + name|] && name' == path[|prefix|..|prefix + name'|];
  }

  ghost predicate PathsDistinct(files: seq<(string, string)>) {
    forall i, j :: 0 <= i < j < |files| ==> files[i].0 != files[j].0
  }

  ghost predicate PathsNulFree(files: seq<(string, string)>) {
    forall i :: 0 <= i < |files| ==> NulFree(files[i].0)
  }

  ghost predicate AllUnder(prefix: string, name: string, files: seq<(string, string)>) {
    forall i :: 0 <= i < |files| ==> Under(prefix, name, files[i].0)
  }

  ghost predicate UnderOne(prefix: string, names: seq<string>, path: string) {
    exists name :: name in names && Under(prefix, name, path)
  }

  /** Every file is below one of `names`. */
  ghost predicate Spread(prefix: string, names: seq<string>, files: seq<(string, string)>) {
    forall i :: 0 <= i < |files| ==> UnderOne(prefix, names, files[i].0)
  }

  lemma DifferentSegments(prefix: string, name: string, names: seq<string>, path: string, path': string)
    requires SlashFree(name) && (forall other :: other in names ==> SlashFree(other) && other != name)
    requires Under(prefix, name, path) && UnderOne(prefix, names, path')
    ensures path != path'
  {
    var other :| other in names && Under(prefix, other, path');
    if path == path' {
      SegmentReadsBack(prefix, name, other, path);
    }
  }

  /** Files below one segment, next to files below other segments. */
  lemma DistinctAcross(prefix: string, name: string, names: seq<string>, a: seq<(string, string)>,
      b: seq<(string, string)>)
    requires SlashFree(name) && (forall other :: other in names ==> SlashFree(other) && other != name)
    requires PathsDistinct(a) && PathsDistinct(b) && AllUnder(prefix, name, a) && Spread(prefix, names, b)
    ensures PathsDistinct(a + b)
  {
    forall i, j | 0 <= i < |a| && 0 <= j < |b|
      ensures a[i].0 != b[j].0
    {
      DifferentSegments(prefix, name, names, a[i].0, b[j].0);
    }
  }

  lemma SpreadAcross(prefix: string, name: string, names: seq<string>, a: seq<(string, string)>,
      b: seq<(string, string)>)
    requires AllUnder(prefix, name, a) && Spread(prefix, names, b)
    ensures Spread(prefix, [name] + names, a + b)
  {
  }

  lemma UnderDeeper(prefix: string, name: string, names: seq<string>, files: seq<(string, string)>)
    requires Spread(prefix + name + "/", names, files)
    ensures AllUnder(prefix, name, files)
  {
  }

  function Names(entries: seq<Entry>): (r: seq<string>)
    ensures |r| == |entries| && forall i :: 0 <= i < |r| ==> r[i] == entries[i].name
  {
    seq(|entries|, i requires 0 <= i < |entries| => entries[i].name)
  }

  lemma {:induction false} CollectedExact(ignored: IgnoreRule, prefix: string, entries: seq<Entry>)
    requires PathNames(entries) && NulFree(prefix)
    ensures PathsDistinct(Collected(ignored, prefix, entries))
    ensures PathsNulFree(Collected(ignored, prefix, entries))
    ensures Spread(prefix, Names(entries), Collected(ignored, prefix, entries))
    decreases entries
  {
    if entries != [] {
      var rest := entries[1..];
      CollectedExact(ignored, prefix, rest);
      CollectedAtExact(ignored, prefix, entries[0]);
      var a, b := CollectedAt(ignored, prefix, entries[0]), Collected(ignored, prefix, rest);
      DistinctAcross(prefix, entries[0].name, Names(rest), a, b);
      SpreadAcross(prefix, entries[0].name, Names(rest), a, b);
      assert Names(entries) == [entries[0].name] + Names(rest);
    }
  }

  lemma CollectedAtExact(ignored: IgnoreRule, prefix: string, e: Entry)
    requires SlashFree(e.name) && NulFree(e.name) && NulFree(prefix)
    requires e.node.Dir? ==> PathNames(e.node.entries)
    ensures PathsDistinct(CollectedAt(ignored, prefix, e))
    ensures PathsNulFree(CollectedAt(ignored, prefix, e))
    ensures AllUnder(prefix, e.name, CollectedAt(ignored, prefix, e))
    decreases e, 0
  {
    if e.node.Dir? {
      var sub := e.node.entries;
      CollectedExact(ignored, prefix + e.name + "/", sub);
      UnderDeeper(prefix, e.name, Names(sub), Collected(ignored, prefix + e.name + "/", sub));
    }
  }

  ghost predicate Segments(names: seq<string>) {
    && (forall n :: 0 <= n < |names| ==> SlashFree(names[n]) && NulFree(names[n]))
    && (forall m, n :: 0 <= m < n < |names| ==> names[m] != names[n])
  }

  lemma {:induction false} LookupPathNames(entries: seq<Entry>, name: string)
    requires PathNames(entries)
    ensures var node := Lookup(entries, name); node.Some? && node.value.Dir? ==> PathNames(node.value.entries)
  {
    if entries != [] && entries[0].name != name {
      LookupPathNames(entries[1..], name);
    }
  }

  lemma TopDirectoryExact(ignored: IgnoreRule, root: seq<Entry>, name: string)
    requires PathNames(root) && NulFree(name)
    ensures PathsDistinct(TopDirectory(ignored, root, name))
    ensures PathsNulFree(TopDirectory(ignored, root, name))
    ensures AllUnder("", name, TopDirectory(ignored, root, name))
  {
    LookupPathNames(root, name);
    var node := Lookup(root, name);
    if node.Some? && node.value.Dir? {
      CollectedExact(ignored, name + "/", node.value.entries);
      assert "" + name + "/" == name + "/";
      UnderDeeper("", name, Names(node.value.entries), TopDirectory(ignored, root, name));
    }
  }

  lemma {:induction false} TopDirectoriesExact(ignored: IgnoreRule, root: seq<Entry>, names: seq<string>)
    requires PathNames(root) && Segments(names)
    ensures PathsDistinct(TopDirectories(ignored, root, names))
    ensures PathsNulFree(TopDirectories(ignored, root, names))
    ensures Spread("", names, TopDirectories(ignored, root, names))
  {
    if names != [] {
      var first, later := TopDirectory(ignored, root, names[0]), TopDirectories(ignored, root, names[1..]);
      SegmentsTail(names);
      TopDirectoriesExact(ignored, root, names[1..]);
      TopDirectoryExact(ignored, root, names[0]);
      DistinctAcross("", names[0], names[1..], first, later);
      SpreadAcross("", names[0], names[1..], first, later);
    }
  }

  lemma SegmentsTail(names: seq<string>)
    requires Segments(names) && names != []
    ensures Segments(names[1..]) && names == [names[0]] + names[1..]
    ensures SlashFree(names[0]) && forall other :: other in names[1..] ==> SlashFree(other) && other != names[0]
  {
  }

  lemma TopFileExact(ignored: IgnoreRule, root: seq<Entry>, name: string)
    requires NulFree(name)
    ensures PathsDistinct(TopFile(ignored, root, name)) && PathsNulFree(TopFile(ignored, root, name))
    ensures AllUnder("", name, TopFile(ignored, root, name))
  {
    hide Lookup, NulFree;
  }

  lemma NulFreeAcross(a: seq<(string, string)>, b: seq<(string, string)>)
    requires PathsNulFree(a) && PathsNulFree(b)
    ensures PathsNulFree(a + b)
  {
    hide NulFree;
  }

  lemma {:induction false} TopFilesExact(ignored: IgnoreRule, root: seq<Entry>, names: seq<string>,
      others: seq<string>, tail: seq<(string, string)>)
    requires Segments(names + others) && PathsDistinct(tail) && PathsNulFree(tail) && Spread("", others, tail)
    ensures PathsDistinct(TopFiles(ignored, root, names) + tail)
    ensures PathsNulFree(TopFiles(ignored, root, names) + tail)
    ensures Spread("", names + others, TopFiles(ignored, root, names) + tail)
  {
    hide TopFile, PathsDistinct, PathsNulFree, AllUnder, Spread, SlashFree;
    if names == [] {
      assert names + others == others;
      assert TopFiles(ignored, root, names) + tail == tail;
    } else {
      var name, rest := names[0], names[1..] + others;
      assert (names + others)[1..] == rest && (names + others)[0] == name;
      SegmentsTail(names + others);
      TopFilesExact(ignored, root, names[1..], others, tail);
      TopFileExact(ignored, root, name);
      var first, later := TopFile(ignored, root, name), TopFiles(ignored, root, names[1..]) + tail;
      DistinctAcross("", name, rest, first, later);
      NulFreeAcross(first, later);
      SpreadAcross("", name, rest, first, later);
      assert TopFiles(ignored, root, names) + tail == first + later;
    }
  }

  lemma AddSegment(name: string, rest: seq<string>)
    requires SlashFree(name) && NulFree(name) && Segments(rest)
    requires |name| > 1 && forall n :: 0 <= n < |rest| ==>
      |rest[n]| > 1 && (|rest[n]| != |name| || rest[n][1] != name[1])
    ensures Segments([name] + rest)
  {
  }

  lemma DirectoryNamesAreSegments()
    ensures Segments(PACKAGE_DIRECTORIES)
  {
    AddSegment("steps", []);
    AddSegment("solution", ["steps"]);
    AddSegment("tests", ["solution", "steps"]);
    AddSegment("environment", ["tests", "solution", "steps"]);
    assert ["environment"] + ["tests", "solution", "steps"] == PACKAGE_DIRECTORIES;
  }

  lemma PackageNamesAreSegments()
    ensures Segments(PACKAGE_FILES + PACKAGE_DIRECTORIES) && Segments(PACKAGE_DIRECTORIES)
  {
    DirectoryNamesAreSegments();
    AddSegment("README.md", PACKAGE_DIRECTORIES);
    AddSegment("instruction.md", ["README.md"] + PACKAGE_DIRECTORIES);
    AddSegment("task.toml", ["instruction.md"] + (["README.md"] + PACKAGE_DIRECTORIES));
    assert ["task.toml"] + (["instruction.md"] + (["README.md"] + PACKAGE_DIRECTORIES))
        == PACKAGE_FILES + PACKAGE_DIRECTORIES;
  }

  lemma PackageFilesExact(ignored: IgnoreRule, root: seq<Entry>)
    requires PathNames(root)
    ensures PathsDistinct(PackageFiles(ignored, root)) && PathsNulFree(PackageFiles(ignored, root))
  {
    PackageNamesAreSegments();
    TopDirectoriesExact(ignored, root, PACKAGE_DIRECTORIES);
    TopFilesExact(ignored, root, PACKAGE_FILES, PACKAGE_DIRECTORIES,
                  TopDirectories(ignored, root, PACKAGE_DIRECTORIES));
  }

  lemma NameBeforeIsOrder()
    ensures Order(NameBefore)
  {
    BeforeIsOrder();
  }

  lemma SortedFiles(files: seq<(string, string)>)
    requires PathsDistinct(files)
    ensures Comparable(NameBefore, files)
    ensures SameElements(Sort(NameBefore, files), files)
  {
    forall i, j | 0 <= i < j < |files|
      ensures NameBefore(files[i], files[j]) || NameBefore(files[j], files[i])
    {
      BeforeTotal(files[i].0, files[j].0);
    }
    NameBeforeIsOrder();
    SortAscends(NameBefore, files);
  }

  lemma FirstNul(p: string, x: string, q: string, y: string)
    requires NulFree(p) && NulFree(q) && p + "\0" + x == q + "\0" + y
    ensures p == q && x == y
  {
    var l, r := p + "\0" + x, q + "\0" + y;
    assert l[|p|] == '\0' && r[|q|] == '\0';
    assert forall i :: 0 <= i < |p| ==> l[i] == p[i];
    assert forall i :: 0 <= i < |q| ==> r[i] == q[i];
    assert |p| == |q|;
    assert p == l[..|p|] && q == r[..|q|] && x == l[|p| + 1..] && y == r[|q| + 1..];
  }

  function Contents(files: seq<(string, string)>): set<string> {
    set f | f in files :: f.1
  }

  lemma EncodeHead(h: Hash, a: seq<(string, string)>, b: seq<(string, string)>)
    requires IsDigest(h) && a != [] && b != [] && NulFree(a[0].0) && NulFree(b[0].0)
    requires Encode(h, a) == Encode(h, b)
    ensures a[0].0 == b[0].0 && h(a[0].1) == h(b[0].1) && Encode(h, a[1..]) == Encode(h, b[1..])
  {
    var p, q := h(a[0].1), h(b[0].1);
    var x, y := Encode(h, a[1..]), Encode(h, b[1..]);
    assert Encode(h, a) == a[0].0 + "\0" + (p + "\n" + x);
    assert Encode(h, b) == b[0].0 + "\0" + (q + "\n" + y);
    FirstNul(a[0].0, p + "\n" + x, b[0].0, q + "\n" + y);
    assert "" + p + "\n" + x == p + "\n" + x && "" + q + "\n" + y == q + "\n" + y;
    TailEqual("", p, q, "\n", x, y);
  }

  lemma {:induction false} EncodeReadsBack(h: Hash, a: seq<(string, string)>, b: seq<(string, string)>,
      hashed: set<string>)
    requires IsDigest(h) && PathsNulFree(a) && PathsNulFree(b)
    requires NoCollision(h, hashed) && Contents(a) + Contents(b) <= hashed
    requires Encode(h, a) == Encode(h, b)
    ensures a == b
  {
    if a != [] && b != [] {
      EncodeHead(h, a, b);
      assert a[0].1 in Contents(a) && b[0].1 in Contents(b);
      assert Contents(a[1..]) <= Contents(a) && Contents(b[1..]) <= Contents(b);
      EncodeReadsBack(h, a[1..], b[1..], hashed);
      assert a == [a[0]] + a[1..] && b == [b[0]] + b[1..];
    }
  }

  /** Every string `package_content_hash` feeds to the hash. */
  function PackageHashed(h: Hash, ignored: IgnoreRule, root: seq<Entry>): set<string> {
    {Encode(h, Sort(NameBefore, PackageFiles(ignored, root)))} + Contents(PackageFiles(ignored, root))
  }

  lemma SameListing(ia: IgnoreRule, a: seq<Entry>, ib: IgnoreRule, b: seq<Entry>)
    requires PathNames(a) && PathNames(b)
    ensures SameElements(PackageFiles(ia, a), PackageFiles(ib, b))
      <==> forall path, data :: HasFile(ia, a, path, data) <==> HasFile(ib, b, path, data)
  {
    hide PathNames, PackageFiles, HasFile;
    forall path, data
      ensures (path, data) in PackageFiles(ia, a) <==> HasFile(ia, a, path, data)
      ensures (path, data) in PackageFiles(ib, b) <==> HasFile(ib, b, path, data)
    {
      ListingExact(ia, a, path, data);
      ListingExact(ib, b, path, data);
    }
    if forall path, data :: HasFile(ia, a, path, data) <==> HasFile(ib, b, path, data) {
      forall f
        ensures f in PackageFiles(ia, a) <==> f in PackageFiles(ib, b)
      {
        assert f == (f.0, f.1);
        assert HasFile(ia, a, f.0, f.1) <==> HasFile(ib, b, f.0, f.1);
      }
    }
  }

  /** Main result for `package_content_hash`: unless two hashed strings collide, two
      packages have one hash exactly when they have the same files, at the same paths
      and with the same contents, whatever order the directories are read in and
      whatever ignore rules each package brings along. */
  lemma PackageHashExact(h: Hash, ia: IgnoreRule, a: seq<Entry>, ib: IgnoreRule, b: seq<Entry>)
    requires IsDigest(h) && PathNames(a) && PathNames(b)
    requires NoCollision(h, PackageHashed(h, ia, a) + PackageHashed(h, ib, b))
    ensures PackageHash(h, ia, a) == PackageHash(h, ib, b)
      <==> forall path, data :: HasFile(ia, a, path, data) <==> HasFile(ib, b, path, data)
  {
    hide HasFile;
    SameListing(ia, a, ib, b);
    var x, y := PackageFiles(ia, a), PackageFiles(ib, b);
    PackageFilesExact(ia, a);
    PackageFilesExact(ib, b);
    SortedFiles(x);
    SortedFiles(y);
    var sx, sy := Sort(NameBefore, x), Sort(NameBefore, y);
    NameBeforeIsOrder();
    if SameElements(x, y) {
      SortIgnoresOrder(NameBefore, x, y);
    } else if PackageHash(h, ia, a) == PackageHash(h, ib, b) {
      var hashed := PackageHashed(h, ia, a) + PackageHashed(h, ib, b);
      assert Encode(h, sx) in hashed && Encode(h, sy) in hashed;
      assert Contents(sx) == Contents(x) && Contents(sy) == Contents(y);
      SortedNulFree(x);
      SortedNulFree(y);
      EncodeReadsBack(h, sx, sy, hashed);
    }
  }

  lemma SortedNulFree(files: seq<(string, string)>)
    requires PathsDistinct(files) && PathsNulFree(files)
    ensures PathsNulFree(Sort(NameBefore, files))
  {
    SortedFiles(files);
    var sorted := Sort(NameBefore, files);
    forall i | 0 <= i < |sorted|
      ensures NulFree(sorted[i].0)
    {
      assert sorted[i] in files;
    }
  }

  // ------------------------------------------------------------------
  // What is digested
  // ------------------------------------------------------------------

  /** Each name with NUL, the digest of its content and a line feed. */
  function FileTexts(h: Hash, files: seq<(string, string)>): seq<string> {
    seq(|files|, i requires 0 <= i < |files| => files[i].0 + "\0" + h(files[i].1) + "\n")
  }

  lemma {:induction false} EncodeIsTexts(h: Hash, files: seq<(string, string)>)
    ensures Encode(h, files) == Concat(FileTexts(h, files))
  {
    if files != [] {
      var rest := files[1..];
      EncodeIsTexts(h, rest);
      assert FileTexts(h, files) == [files[0].0 + "\0" + h(files[0].1) + "\n"] + FileTexts(h, rest);
      ConcatCons(files[0].0 + "\0" + h(files[0].1) + "\n", FileTexts(h, rest));
    }
  }

  /** The files of a package in ascending order of their names. */
  ghost predicate Lists(ignored: IgnoreRule, root: seq<Entry>, files: seq<(string, string)>) {
    && (forall i, j :: 0 <= i < j < |files| ==> Lexicographic(files[i].0, files[j].0))
    && (forall path, data :: (path, data) in files <==> HasFile(ignored, root, path, data))
  }

  /** Main result: the package hash is the digest of one line per file the package has, in
      ascending order of names. */
  lemma PackageHashText(h: Hash, ignored: IgnoreRule, root: seq<Entry>)
    requires PathNames(root)
    ensures exists files ::
      Lists(ignored, root, files) && PackageHash(h, ignored, root) == h(Concat(FileTexts(h, files)))
  {
    hide PathNames, HasFile, Encode, PackageFiles, PathsDistinct, Lexicographic, FileTexts, Before;
    var files := PackageFiles(ignored, root);
    var sorted := Sort(NameBefore, files);
    PackageFilesExact(ignored, root);
    SortedFiles(files);
    NameBeforeIsOrder();
    SortAscends(NameBefore, files);
    forall i, j | 0 <= i < j < |sorted|
      ensures Lexicographic(sorted[i].0, sorted[j].0)
    {
      BeforeIsLexicographic(sorted[i].0, sorted[j].0);
    }
    forall path, data
      ensures (path, data) in sorted <==> HasFile(ignored, root, path, data)
    {
      ListingExact(ignored, root, path, data);
    }
    EncodeIsTexts(h, sorted);
  }

  /** The line of a directory entry: a file's digest, or that of a directory with files. */
  ghost predicate Describes(h: Hash, e: Entry, line: string) {
    match e.node
    case File(data) => line == "data:" + h(data) + "\0name:" + e.name
    case Dir(sub) =>
      var digest := HashDirectory(h, sub);
      digest.Some? && line == "dirhash:" + digest.value + "\0name:" + e.name
    case Other => false
  }

  lemma DescribesLine(h: Hash, e: Entry, line: string)
    ensures Describes(h, e, line) <==> Line(h, e) == Some(line)
  {
  }

  /** The lines of a directory's entries, in ascending order. */
  ghost predicate Describe(h: Hash, entries: seq<Entry>, lines: seq<string>) {
    && (forall i, j :: 0 <= i < j < |lines| ==> Lexicographic(lines[i], lines[j]))
    && (forall line :: line in lines <==> exists i :: 0 <= i < |entries| && Describes(h, entries[i], line))
  }

  function Ended(lines: seq<string>): seq<string> {
    seq(|lines|, i requires 0 <= i < |lines| => lines[i] + "\0\0")
  }

  lemma {:induction false} JoinIsTexts(lines: seq<string>)
    requires lines != []
    ensures Join(lines) + "\0\0" == Concat(Ended(lines))
  {
    var rest := lines[1..];
    assert Ended(lines) == [lines[0] + "\0\0"] + Ended(rest);
    ConcatCons(lines[0] + "\0\0", Ended(rest));
    if rest != [] {
      JoinIsTexts(rest);
      assert Join(lines) + "\0\0" == (lines[0] + "\0\0") + (Join(rest) + "\0\0");
    }
  }

  lemma LinesDescribe(h: Hash, entries: seq<Entry>, line: string)
    ensures line in Lines(h, entries) <==> exists i :: 0 <= i < |entries| && Describes(h, entries[i], line)
  {
    hide Lines, Line, Describes;
    if line in Lines(h, entries) {
      var i := LineSource(h, entries, line);
      DescribesLine(h, entries[i], line);
    }
    if i :| 0 <= i < |entries| && Describes(h, entries[i], line) {
      DescribesLine(h, entries[i], line);
      LineExists(h, entries, i);
    }
  }

  /** Main result: a directory with a file below it hashes to the digest of its entries'
      lines in ascending order, with two NULs between them; any other has no hash. */
  lemma DirectoryHashText(h: Hash, entries: seq<Entry>)
    requires IsDigest(h) && ValidEntries(entries)
    ensures HashDirectory(h, entries).Some? <==> exists names, data :: Reaches(entries, names, data)
    ensures HashDirectory(h, entries).Some? ==> exists lines, text ::
      Describe(h, entries, lines) && text + "\0\0" == Concat(Ended(lines)) && HashDirectory(h, entries) == Some(h(text))
  {
    hide Lines, Describes, Reaches, Lexicographic, Ended, Before, ValidEntries, Join;
    var sorted := Sort(Before, Lines(h, entries));
    HashedWithFiles(h, entries);
    if Lines(h, entries) != [] {
      LinesPlain(h, entries);
      LinesComparable(h, entries);
      BeforeIsOrder();
      SortAscends(Before, Lines(h, entries));
      forall i, j | 0 <= i < j < |sorted|
        ensures Lexicographic(sorted[i], sorted[j])
      {
        BeforeIsLexicographic(sorted[i], sorted[j]);
      }
      forall line
        ensures line in sorted <==> exists i :: 0 <= i < |entries| && Describes(h, entries[i], line)
      {
        LinesDescribe(h, entries, line);
      }
      assert Lines(h, entries)[0] in sorted;
      JoinIsTexts(sorted);
      assert Describe(h, entries, sorted);
    }
  }

  lemma HashedWithFiles(h: Hash, entries: seq<Entry>)
    requires ValidEntries(entries)
    ensures Lines(h, entries) != [] <==> exists names, data :: Reaches(entries, names, data)
  {
    hide Lines, Content, Reaches, Holds, ValidEntries;
    EmptyTogether(h, entries);
    if Lines(h, entries) != [] {
      ContentFull(entries);
      SomethingHeld(Branch(Content(entries)));
      var names, data :| Holds(Branch(Content(entries)), names, data);
      ReachIsHeld(entries, names, data);
    }
    if names, data :| Reaches(entries, names, data) {
      ReachIsHeld(entries, names, data);
      SomeContent(Content(entries), names, data);
    }
  }

  lemma SomeContent(content: map<string, Tree>, names: seq<string>, data: string)
    requires Holds(Branch(content), names, data)
    ensures content != map[]
  {
  }
}
