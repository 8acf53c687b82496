/** The key a built disk is cached under. Characters stand for the bytes that encode
    them, which determine them; raw bytes are characters below 256. */
module BuildCache {
  import opened Common
  import opened Text
  import opened Dockerfile
  import opened BuildSources
  import opened DockerfileSuffix
  import Checksum
  import Sorting

  datatype Pulled = Pulled(reference: string, digest: string)

  /** `images` in the order of its references, as a sorted map yields them. */
  datatype BuildInput = BuildInput(dockerfile: string, contextDigest: string, recipe: Recipe, images: seq<Pulled>,
                                   diskBytes: nat)

  function LittleEndian(n: nat, size: nat): string {
    if size == 0 then "" else [(n % 256) as char] + LittleEndian(n / 256, size - 1)
  }

  const TAG := "nanoeval-task-build\0"
  const CACHE_VERSION: nat := 3
  const PLATFORM := "linux\0arm64\0"

  function DigestOf(images: seq<Pulled>, reference: string): Option<string> {
    if images == [] then None
    else if images[0].reference == reference then Some(images[0].digest)
    else DigestOf(images[1..], reference)
  }

  function Field(text: string): string {
    "\0" + text
  }

  function StageText(stage: Stage, images: seq<Pulled>): string {
    var digest := DigestOf(images, stage.baseImage);
    Field(stage.baseImage) + if digest.Some? then Field(digest.value) else ""
  }

  function StagesText(stages: Recipe, images: seq<Pulled>): string {
    if stages == [] then ""
    else StageText(stages[0], images) + StagesText(stages[1..], images)
  }

  function PairsText(images: seq<Pulled>): string {
    if images == [] then ""
    else Field(images[0].reference) + Field(images[0].digest) + PairsText(images[1..])
  }

  function Header(diskBytes: nat, contextDigest: string): string {
    TAG + LittleEndian(CACHE_VERSION, 4) + PLATFORM + LittleEndian(diskBytes, 8) + contextDigest + "\0"
  }

  function KeyText(i: BuildInput): string {
    Header(i.diskBytes, i.contextDigest) + i.dockerfile + StagesText(i.recipe, i.images) + PairsText(i.images)
  }

  lemma StagesNext(fed: string, stages: Recipe, images: seq<Pulled>, k: nat)
    requires k < |stages|
    ensures fed + StagesText(stages[k..], images)
         == fed + StageText(stages[k], images) + StagesText(stages[k + 1..], images)
  {
    assert stages[k..][1..] == stages[k + 1..];
  }

  lemma PairsNext(fed: string, images: seq<Pulled>, k: nat)
    requires k < |images|
    ensures fed + PairsText(images[k..])
         == fed + (Field(images[k].reference) + Field(images[k].digest)) + PairsText(images[k + 1..])
  {
    assert images[k..][1..] == images[k + 1..];
  }

  /** The first loop of `build_cache_key`. */
  method FeedStages(fed: string, stages: Recipe, images: seq<Pulled>) returns (more: string)
    ensures more == fed + StagesText(stages, images)
  {
    hide DigestOf, StagesText;
    more := fed;
    for k := 0 to |stages|
      invariant more + StagesText(stages[k..], images) == fed + StagesText(stages, images)
    {
      StagesNext(more, stages, images, k);
      ghost var before := more;
      more := more + "\0" + stages[k].baseImage;
      var digest := DigestOf(images, stages[k].baseImage);
      if digest.Some? {
        more := more + "\0" + digest.value;
      }
      assert more == before + StageText(stages[k], images);
    }
    assert stages[|stages|..] == [];
    NothingToFeed(more, images);
  }

  lemma NothingToFeed(fed: string, images: seq<Pulled>)
    ensures fed + StagesText([], images) == fed && fed + PairsText([]) == fed
  {
  }

  /** The second loop of `build_cache_key`. */
  method FeedImages(fed: string, images: seq<Pulled>) returns (more: string)
    ensures more == fed + PairsText(images)
  {
    hide PairsText;
    more := fed;
    for k := 0 to |images|
      invariant more + PairsText(images[k..]) == fed + PairsText(images)
    {
      PairsNext(more, images, k);
      ghost var before := more;
      more := more + "\0" + images[k].reference + "\0" + images[k].digest;
      assert more == before + (Field(images[k].reference) + Field(images[k].digest));
    }
    assert images[|images|..] == [];
    NothingToFeed(more, images);
  }

  /** `build_cache_key`: the running digest is that of everything fed to it. */
  method BuildCacheKey(h: Checksum.Hash, i: BuildInput) returns (key: string)
    ensures key == h(KeyText(i))
  {
    hide LittleEndian, StagesText, PairsText;
    var fed := TAG + LittleEndian(CACHE_VERSION, 4) + PLATFORM + LittleEndian(i.diskBytes, 8);
    fed := fed + i.contextDigest + "\0" + i.dockerfile;
    fed := FeedStages(fed, i.recipe, i.images);
    fed := FeedImages(fed, i.images);
    return h(fed);
  }

  // ------------------------------------------------------------------
  // Reading a key's text back
  // ------------------------------------------------------------------

  function ImageNames(images: seq<Pulled>): seq<string> {
    seq(|images|, k requires 0 <= k < |images| => images[k].reference)
  }

  predicate PlainText(s: string) {
    Checksum.NulFree(s) && Unspaced(s)
  }

  /** What a build is prepared with: the recipe of its Dockerfile, and the images that
      needs. An image is pulled only under a reference without control characters and
      blanks, and its digest is an algorithm's name and hexadecimal digits. */
  ghost predicate Prepared(i: BuildInput) {
    && Parsing(i.dockerfile) == Ok(i.recipe)
    && |i.contextDigest| == 64 && i.diskBytes < U64
    && Sorting.Ascending(Sorting.Before, ImageNames(i.images))
    && (forall reference :: reference in ImageNames(i.images) <==> Needed(i.recipe, reference))
    && (forall k :: 0 <= k < |i.images| ==> PlainText(i.images[k].reference) && PlainText(i.images[k].digest))
  }

  function Limit(size: nat): nat {
    if size == 0 then 1 else 256 * Limit(size - 1)
  }

  lemma {:induction false} LittleEndianReadsBack(a: nat, b: nat, size: nat)
    requires a < Limit(size) && b < Limit(size) && LittleEndian(a, size) == LittleEndian(b, size)
    ensures a == b
    decreases size
  {
    if size > 0 {
      var x, y := LittleEndian(a, size), LittleEndian(b, size);
      assert x[0] == y[0] && x[1..] == y[1..];
      assert x[1..] == LittleEndian(a / 256, size - 1) && y[1..] == LittleEndian(b / 256, size - 1);
      assert (a % 256) as char == (b % 256) as char;
      LittleEndianReadsBack(a / 256, b / 256, size - 1);
    }
  }

  lemma {:induction false} LittleEndianLength(n: nat, size: nat)
    ensures |LittleEndian(n, size)| == size
    decreases size
  {
    if size > 0 {
      LittleEndianLength(n / 256, size - 1);
    }
  }

  lemma LimitOfEight()
    ensures Limit(8) == U64
  {
    assert Limit(2) == 0x1_0000;
    assert Limit(4) == 0x1_0000_0000;
    assert Limit(6) == 0x1_0000_0000_0000;
  }

  /** A header has one length and tells disk size and context digest. */
  lemma HeaderReadsBack(a: BuildInput, b: BuildInput, restA: string, restB: string)
    requires Prepared(a) && Prepared(b)
    requires Header(a.diskBytes, a.contextDigest) + restA == Header(b.diskBytes, b.contextDigest) + restB
    ensures a.diskBytes == b.diskBytes && a.contextDigest == b.contextDigest && restA == restB
  {
    hide LittleEndian, Prepared, Limit;
    assert a.diskBytes < U64 && b.diskBytes < U64 && |a.contextDigest| == |b.contextDigest| == 64 by {
      PreparedSizes(a);
      PreparedSizes(b);
    }
    var fixed := TAG + LittleEndian(CACHE_VERSION, 4) + PLATFORM;
    var x, y := LittleEndian(a.diskBytes, 8), LittleEndian(b.diskBytes, 8);
    LittleEndianLength(a.diskBytes, 8);
    LittleEndianLength(b.diskBytes, 8);
    Cancel(fixed, x + a.contextDigest + "\0" + restA, y + b.contextDigest + "\0" + restB,
           Header(a.diskBytes, a.contextDigest) + restA, Header(b.diskBytes, b.contextDigest) + restB);
    var afterA, afterB := a.contextDigest + ("\0" + restA), b.contextDigest + ("\0" + restB);
    assert x + a.contextDigest + "\0" + restA == x + afterA && y + b.contextDigest + "\0" + restB == y + afterB;
    SameLengthParts(x, y, afterA, afterB);
    SameLengthParts(a.contextDigest, b.contextDigest, "\0" + restA, "\0" + restB);
    SameLengthParts("\0", "\0", restA, restB);
    LimitOfEight();
    LittleEndianReadsBack(a.diskBytes, b.diskBytes, 8);
  }

  lemma PreparedSizes(i: BuildInput)
    requires Prepared(i)
    ensures i.diskBytes < U64 && |i.contextDigest| == 64
  {
  }

  lemma Cancel(fixed: string, x: string, y: string, wholeX: string, wholeY: string)
    requires wholeX == wholeY && wholeX == fixed + x && wholeY == fixed + y
    ensures x == y
  {
    assert wholeX[|fixed|..] == x && wholeY[|fixed|..] == y;
  }

  lemma SameLengthParts(x: string, y: string, restX: string, restY: string)
    requires |x| == |y| && x + restX == y + restY
    ensures x == y && restX == restY
  {
    assert (x + restX)[..|x|] == x && (y + restY)[..|y|] == y;
    assert (x + restX)[|x|..] == restX && (y + restY)[|y|..] == restY;
  }

  /** Texts without NUL end at the first one. */
  lemma NulEnds(a: string, b: string, restA: string, restB: string)
    requires Checksum.NulFree(a) && Checksum.NulFree(b) && a + restA == b + restB
    requires (restA == "" || restA[0] == '\0') && (restB == "" || restB[0] == '\0')
    ensures a == b && restA == restB
  {
    var whole := a + restA;
    assert whole == b + restB;
    assert forall i :: 0 <= i < |a| ==> whole[i] == a[i];
    assert forall i :: 0 <= i < |b| ==> whole[i] == b[i];
    assert restA != "" ==> whole[|a|] == '\0';
    assert restB != "" ==> whole[|b|] == '\0';
    SameLengthParts(a, b, restA, restB);
  }

  /** The stages and then the images as one list of names and digests. */
  function StagePairs(stages: Recipe, images: seq<Pulled>): seq<Pulled> {
    if stages == [] then []
    else
      var digest := DigestOf(images, stages[0].baseImage);
      [Pulled(stages[0].baseImage, if digest.Some? then digest.value else "")] + StagePairs(stages[1..], images)
  }

  lemma {:induction false} DigestListed(images: seq<Pulled>, reference: string)
    requires reference in ImageNames(images)
    ensures DigestOf(images, reference).Some?
    ensures Pulled(reference, DigestOf(images, reference).value) in images
  {
    if images[0].reference != reference {
      var k :| 0 <= k < |images| && ImageNames(images)[k] == reference;
      assert ImageNames(images[1..])[k - 1] == reference;
      DigestListed(images[1..], reference);
    }
  }

  lemma {:induction false} StagesArePairs(stages: Recipe, images: seq<Pulled>)
    requires forall s :: 0 <= s < |stages| ==> stages[s].baseImage in ImageNames(images)
    ensures StagesText(stages, images) == PairsText(StagePairs(stages, images))
    ensures forall k :: 0 <= k < |StagePairs(stages, images)| ==> StagePairs(stages, images)[k] in images
  {
    if stages != [] {
      assert stages[0].baseImage in ImageNames(images);
      DigestListed(images, stages[0].baseImage);
      StagesArePairs(stages[1..], images);
    }
  }

  function Bases(stages: Recipe): seq<string> {
    seq(|stages|, k requires 0 <= k < |stages| => stages[k].baseImage)
  }

  lemma {:induction false} StagePairNames(stages: Recipe, images: seq<Pulled>)
    ensures ImageNames(StagePairs(stages, images)) == Bases(stages)
  {
    if stages != [] {
      var rest := StagePairs(stages[1..], images);
      StagePairNames(stages[1..], images);
      assert ImageNames(StagePairs(stages, images)) == [stages[0].baseImage] + ImageNames(rest);
      assert Bases(stages) == [stages[0].baseImage] + Bases(stages[1..]);
    }
  }

  lemma {:induction false} PairsAppend(a: seq<Pulled>, b: seq<Pulled>)
    ensures PairsText(a + b) == PairsText(a) + PairsText(b)
  {
    if a == [] {
      assert a + b == b;
    } else {
      assert (a + b)[1..] == a[1..] + b;
      PairsAppend(a[1..], b);
    }
  }

  predicate PlainPairs(images: seq<Pulled>) {
    forall k :: 0 <= k < |images| ==> PlainText(images[k].reference) && PlainText(images[k].digest)
  }

  /** One list of names and one text leave one list of digests. */
  lemma {:induction false} PairsReadBack(a: seq<Pulled>, b: seq<Pulled>)
    requires ImageNames(a) == ImageNames(b) && PlainPairs(a) && PlainPairs(b)
    requires PairsText(a) == PairsText(b)
    ensures a == b
  {
    assert |a| == |ImageNames(a)| == |ImageNames(b)| == |b|;
    if a != [] {
      assert ImageNames(a)[0] == ImageNames(b)[0];
      var head, restA, restB := Field(a[0].reference), PairsText(a[1..]), PairsText(b[1..]);
      Cancel(head + "\0", a[0].digest + restA, b[0].digest + restB, PairsText(a), PairsText(b));
      NulEnds(a[0].digest, b[0].digest, restA, restB);
      assert forall k :: 0 <= k < |a| - 1 ==> ImageNames(a[1..])[k] == ImageNames(a)[k + 1];
      assert forall k :: 0 <= k < |b| - 1 ==> ImageNames(b[1..])[k] == ImageNames(b)[k + 1];
      assert ImageNames(a[1..]) == ImageNames(b[1..]);
      PairsReadBack(a[1..], b[1..]);
      assert a == [a[0]] + a[1..] && b == [b[0]] + b[1..];
    }
  }

  /** All that follows the Dockerfile, as one list. */
  function AllPairs(i: BuildInput): seq<Pulled> {
    StagePairs(i.recipe, i.images) + i.images
  }

  lemma BasesListed(i: BuildInput)
    requires Prepared(i)
    ensures forall s :: 0 <= s < |i.recipe| ==> i.recipe[s].baseImage in ImageNames(i.images)
    ensures PlainPairs(i.images)
  {
    hide Parsing, ResolveStage;
    forall s | 0 <= s < |i.recipe|
      ensures i.recipe[s].baseImage in ImageNames(i.images)
    {
      assert Needed(i.recipe, i.recipe[s].baseImage);
    }
  }

  lemma TailIsPairs(i: BuildInput)
    requires Prepared(i)
    ensures StagesText(i.recipe, i.images) + PairsText(i.images) == PairsText(AllPairs(i))
    ensures PlainPairs(AllPairs(i)) && ImageNames(AllPairs(i)) == Bases(i.recipe) + ImageNames(i.images)
  {
    hide Prepared, StagesText, PairsText, StagePairs;
    var stagePairs := StagePairs(i.recipe, i.images);
    BasesListed(i);
    StagesArePairs(i.recipe, i.images);
    StagePairNames(i.recipe, i.images);
    PairsAppend(stagePairs, i.images);
    assert ImageNames(stagePairs + i.images) == ImageNames(stagePairs) + ImageNames(i.images);
  }

  lemma RecipeNotEmpty(i: BuildInput)
    requires Prepared(i)
    ensures i.recipe != [] && StagesText(i.recipe, i.images) != "" && StagesText(i.recipe, i.images)[0] == '\0'
  {
    hide ParseLines, LogicalFrom, DigestOf;
  }

  lemma SameNames(a: BuildInput, b: BuildInput)
    requires Prepared(a) && Prepared(b) && a.recipe == b.recipe
    ensures ImageNames(a.images) == ImageNames(b.images)
  {
    hide Parsing, Needed;
    Sorting.BeforeIsOrder();
    Sorting.AscendingUnique(Sorting.Before, ImageNames(a.images), ImageNames(b.images));
  }

  lemma SameTail(a: BuildInput, b: BuildInput)
    requires Prepared(a) && Prepared(b) && a.recipe == b.recipe
    requires StagesText(a.recipe, a.images) + PairsText(a.images)
          == StagesText(b.recipe, b.images) + PairsText(b.images)
    ensures a.images == b.images
  {
    hide Prepared, StagesText, PairsText, PlainPairs;
    TailIsPairs(a);
    TailIsPairs(b);
    SameNames(a, b);
    PairsReadBack(AllPairs(a), AllPairs(b));
    var x, y := StagePairs(a.recipe, a.images), StagePairs(b.recipe, b.images);
    StagePairNames(a.recipe, a.images);
    StagePairNames(b.recipe, b.images);
    assert |x| == |ImageNames(x)| == |ImageNames(y)| == |y|;
    assert (x + a.images)[|x|..] == a.images && (y + b.images)[|y|..] == b.images;
  }

  lemma SameParse(a: BuildInput, b: BuildInput)
    requires Prepared(a) && Prepared(b) && a.dockerfile == b.dockerfile
    ensures a.recipe == b.recipe
  {
    hide Parsing;
  }

  // ------------------------------------------------------------------
  // Where the Dockerfile ends
  // ------------------------------------------------------------------

  function Nuls(s: string): nat {
    if s == "" then 0 else Nuls(s[..|s| - 1]) + if s[|s| - 1] == '\0' then 1 else 0
  }

  lemma {:induction false} NulsAppend(a: string, b: string)
    ensures Nuls(a + b) == Nuls(a) + Nuls(b)
  {
    if b == "" {
      assert a + b == a;
    } else {
      assert (a + b)[..|a + b| - 1] == a + b[..|b| - 1];
      NulsAppend(a, b[..|b| - 1]);
    }
  }

  lemma {:induction false} NoNuls(s: string)
    requires Checksum.NulFree(s)
    ensures Nuls(s) == 0
  {
    if s != "" {
      NoNuls(s[..|s| - 1]);
    }
  }

  lemma FieldNuls(text: string)
    requires PlainText(text)
    ensures Nuls(Field(text)) == 1 && Unspaced(Field(text))
  {
    NulsAppend("\0", text);
    NoNuls(text);
    assert "\0"[..0] == "" && Nuls("\0") == 1;
  }

  /** A list of names and digests has two NULs for each entry, and no whitespace. */
  lemma {:induction false} PairsNuls(images: seq<Pulled>)
    requires PlainPairs(images)
    ensures Nuls(PairsText(images)) == 2 * |images| && Unspaced(PairsText(images))
  {
    hide PlainText, Field, Nuls;
    if images == [] {
      NoNuls("");
    } else {
      var name, digest, rest := Field(images[0].reference), Field(images[0].digest), PairsText(images[1..]);
      PairsNuls(images[1..]);
      FieldNuls(images[0].reference);
      FieldNuls(images[0].digest);
      NulsAppend(name, digest);
      NulsAppend(name + digest, rest);
    }
  }

  function Tail(i: BuildInput): string {
    StagesText(i.recipe, i.images) + PairsText(i.images)
  }

  lemma TailNuls(i: BuildInput)
    requires Prepared(i)
    ensures Nuls(Tail(i)) == 2 * (|i.recipe| + |i.images|) && Unspaced(Tail(i))
  {
    hide Prepared, StagesText, PairsText, Nuls, PlainPairs, StagePairs;
    TailIsPairs(i);
    PairsNuls(AllPairs(i));
    StagePairNames(i.recipe, i.images);
    assert |StagePairs(i.recipe, i.images)| == |ImageNames(StagePairs(i.recipe, i.images))| == |i.recipe|;
  }

  lemma SameFroms(s: seq<Instruction>, t: seq<Instruction>)
    requires |s| == |t| && forall k :: 0 <= k < |s| ==> FromOf(s[k]) == FromOf(t[k])
    ensures References(s) <= References(t)
  {
    forall r | r in References(s)
      ensures r in References(t)
    {
      var i :| i in s && i.CopyFiles? && i.copy.from == Some(r);
      var k :| 0 <= k < |s| && s[k] == i;
      assert FromOf(t[k]) == Some(r) && t[k] in t;
    }
  }

  lemma StageStays(a: Recipe, b: Recipe, s: nat)
    requires SameRecipe(a, b) && s < |a| && Checksum.NulFree(b[s].baseImage)
    ensures a[s].baseImage == b[s].baseImage && References(a[s].instructions) <= References(b[s].instructions)
  {
    hide References;
    assert SameStage(a[s], b[s]);
    SameFroms(a[s].instructions, b[s].instructions);
  }

  /** No stage answers to a reference without NUL that none answered to before. */
  lemma StillUnresolved(a: Recipe, b: Recipe, reference: string)
    requires SameRecipe(a, b) && Checksum.NulFree(reference) && ResolveStage(a, reference).None?
    ensures ResolveStage(b, reference).None?
  {
    hide StageNumber;
    forall s | 0 <= s < |b|
      ensures b[s].name != Some(reference)
    {
      assert SameStage(a[s], b[s]) && a[s].name != Some(reference);
    }
  }

  lemma StillNeeded(a: BuildInput, b: BuildInput, reference: string)
    requires Prepared(a) && Prepared(b) && SameRecipe(a.recipe, b.recipe) && Needed(a.recipe, reference)
    ensures Needed(b.recipe, reference)
  {
    hide Parsing, ResolveStage, References, SameRecipe;
    assert |a.recipe| == |b.recipe| by {
      SameLength(a.recipe, b.recipe);
    }
    assert Checksum.NulFree(reference) by {
      ReferencePlain(a, reference);
    }
    if s :| 0 <= s < |a.recipe| && a.recipe[s].baseImage == reference {
      BasePlain(b, s);
      StageStays(a.recipe, b.recipe, s);
    } else {
      var s :| 0 <= s < |a.recipe| && reference in References(a.recipe[s].instructions);
      BasePlain(b, s);
      StageStays(a.recipe, b.recipe, s);
      StillUnresolved(a.recipe, b.recipe, reference);
    }
  }

  lemma SameLength(a: Recipe, b: Recipe)
    requires SameRecipe(a, b)
    ensures |a| == |b|
  {
  }

  lemma ReferencePlain(i: BuildInput, reference: string)
    requires Prepared(i) && Needed(i.recipe, reference)
    ensures Checksum.NulFree(reference)
  {
    hide Parsing, Needed;
    assert reference in ImageNames(i.images);
    var k :| 0 <= k < |i.images| && ImageNames(i.images)[k] == reference;
    assert PlainText(i.images[k].reference);
  }

  lemma BasePlain(i: BuildInput, s: nat)
    requires Prepared(i) && s < |i.recipe|
    ensures Checksum.NulFree(i.recipe[s].baseImage)
  {
    hide Prepared, ResolveStage;
    assert Needed(i.recipe, i.recipe[s].baseImage);
    ReferencePlain(i, i.recipe[s].baseImage);
  }

  lemma ListingNoLonger(a: seq<string>, b: seq<string>)
    requires Sorting.Ascending(Sorting.Before, a) && forall r :: r in a ==> r in b
    ensures |a| <= |b|
  {
    hide Sorting.Before;
    Sorting.BeforeIsOrder();
    var x, y := set r | r in a, set r | r in b;
    AscendingSize(a);
    ElementsBound(b);
    SubsetSize(x, y);
  }

  lemma {:induction false} AscendingSize(a: seq<string>)
    requires Sorting.Ascending(Sorting.Before, a) && Sorting.Order(Sorting.Before)
    ensures |set r | r in a| == |a|
  {
    hide Sorting.Before;
    if a != [] {
      var rest := a[1..];
      AscendingSize(rest);
      assert a[0] !in rest;
      assert (set r | r in a) == (set r | r in rest) + {a[0]};
    }
  }

  lemma {:induction false} ElementsBound(b: seq<string>)
    ensures |set r | r in b| <= |b|
  {
    if b != [] {
      ElementsBound(b[1..]);
      assert (set r | r in b) == (set r | r in b[1..]) + {b[0]};
    }
  }

  /** A Dockerfile with a suffix has as many stages and needs no fewer images. */
  lemma SuffixNeedsNoFewer(a: BuildInput, b: BuildInput, p: string)
    requires Prepared(a) && Prepared(b) && Suffix(p) && b.dockerfile == a.dockerfile + p
    ensures |a.recipe| == |b.recipe| && |a.images| <= |b.images|
  {
    hide Parsing, Needed, SameRecipe, Sorting.Before, Suffix, Sorting.Ascending;
    ParsingGrows(a.dockerfile, p);
    SameLength(a.recipe, b.recipe);
    forall r | r in ImageNames(a.images)
      ensures r in ImageNames(b.images)
    {
      StillNeeded(a, b, r);
    }
    ListingNoLonger(ImageNames(a.images), ImageNames(b.images));
  }

  lemma TailBegins(i: BuildInput)
    requires Prepared(i)
    ensures Tail(i) != "" && Tail(i)[0] == '\0'
  {
    hide Prepared, StagesText, PairsText;
    RecipeNotEmpty(i);
  }

  /** Of two texts that agree behind the header, none has the shorter Dockerfile. */
  lemma NotShorter(a: BuildInput, b: BuildInput)
    requires Prepared(a) && Prepared(b) && a.dockerfile + Tail(a) == b.dockerfile + Tail(b)
    ensures |a.dockerfile| >= |b.dockerfile|
  {
    hide Prepared, Tail, Nuls, Suffix;
    TailNuls(a);
    TailNuls(b);
    TailBegins(a);
    if |a.dockerfile| < |b.dockerfile| {
      var p := Between(a.dockerfile, b.dockerfile, Tail(a), Tail(b));
      SuffixNeedsNoFewer(a, b, p);
      NulsAppend(p, Tail(b));
      SuffixNuls(p);
    }
  }

  lemma Between(a: string, b: string, restA: string, restB: string) returns (p: string)
    requires |a| < |b| && a + restA == b + restB && restA != "" && restA[0] == '\0' && Unspaced(restA)
    ensures Suffix(p) && b == a + p && restA == p + restB
  {
    var whole := a + restA;
    p := b[|a|..];
    assert whole[..|a|] == a && (b + restB)[..|a|] == b[..|a|];
    assert b == a + p;
    assert whole[|a|..] == restA && (b + restB)[|a|..] == p + restB;
    assert p[0] == restA[0] && forall i :: 0 <= i < |p| ==> p[i] == restA[i];
  }

  lemma SuffixNuls(p: string)
    requires Suffix(p)
    ensures Nuls(p) > 0
  {
    assert p == "\0" + p[1..];
    NulsAppend("\0", p[1..]);
    assert "\0"[..0] == "" && Nuls("\0") == 1;
  }

  lemma KeyTextReadsBack(a: BuildInput, b: BuildInput)
    requires Prepared(a) && Prepared(b) && KeyText(a) == KeyText(b)
    ensures a == b
  {
    hide Prepared, Header, StagesText, PairsText;
    assert KeyText(a) == Header(a.diskBytes, a.contextDigest) + (a.dockerfile + Tail(a));
    assert KeyText(b) == Header(b.diskBytes, b.contextDigest) + (b.dockerfile + Tail(b));
    HeaderReadsBack(a, b, a.dockerfile + Tail(a), b.dockerfile + Tail(b));
    NotShorter(a, b);
    NotShorter(b, a);
    SameLengthParts(a.dockerfile, b.dockerfile, Tail(a), Tail(b));
    SameParse(a, b);
    SameTail(a, b);
  }

  /** Main result: without a collision, two builds have one key exactly when disk size,
      context, Dockerfile and every image's digest are the same, whatever the Dockerfiles
      hold: what follows a Dockerfile is never read as part of one. */
  lemma KeyExact(h: Checksum.Hash, a: BuildInput, b: BuildInput)
    requires Prepared(a) && Prepared(b)
    requires Checksum.NoCollision(h, {KeyText(a), KeyText(b)})
    ensures h(KeyText(a)) == h(KeyText(b))
      <==> a.diskBytes == b.diskBytes && a.contextDigest == b.contextDigest && a.dockerfile == b.dockerfile
           && a.images == b.images
  {
    hide Prepared, KeyText;
    if h(KeyText(a)) == h(KeyText(b)) {
      KeyTextReadsBack(a, b);
    }
    if a.dockerfile == b.dockerfile {
      SameParse(a, b);
    }
  }
}
