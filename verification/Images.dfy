/** Listing images and the order they have in a listing. */
module Images {
  import opened Common
  import opened Sorting

  type Id = nat

  datatype Status = Pending | Processing | Ready | Failed
  datatype Size = Small | Medium | Large

  /** Storage keys: an upload's own file and the three thumbnail paths of an image. */
  datatype Key = Original(image: Id) | Thumb(image: Id, size: Size)

  datatype Error =
    | MaxImagesExceeded | InvalidDetails | InvalidPosition | DuplicateIds | NotAPermutation | IndexViolated

  const ALL_SIZES: set<Size> := {Small, Medium, Large}
  const MAX_IMAGES := 10

  /** What is only checked: no later operation changes it. */
  datatype Details = Details(filename: string, contentType: string, size: int)

  predicate Acceptable(d: Details)
  {
    d.filename != "" && d.contentType != "" && d.size >= 0
  }

  /** `thumbs` are the sizes whose keys are recorded; attempts only ever count up from zero. */
  datatype Image = Image(
    id: Id,
    listing: Id,
    details: Details,
    position: int,
    createdAt: int,
    thumbs: set<Size>,
    status: Status,
    error: bool,
    attempts: nat)

  /** The status follows the thumbnails, and a ready image has no error. */
  function Settled(i: Image): Image
  {
    var complete := i.thumbs == ALL_SIZES;
    var status :=
      if i.status == Pending && complete then Ready
      else if i.status == Ready && !complete then Pending
      else i.status;
    i.(status := status, error := i.error && status != Ready)
  }

  /** What every construction and every `replace` re-checks: bounds, then status coherence. */
  function Construct(i: Image): Option<Image>
  {
    if i.position < 1 || i.position > MAX_IMAGES || !Acceptable(i.details) then None else Some(Settled(i))
  }

  lemma ConstructIsStable(i: Image)
    ensures Construct(i).Some? ==> Construct(Construct(i).value) == Construct(i)
    ensures Construct(i).Some? ==>
      Construct(i).value == i.(status := Construct(i).value.status, error := Construct(i).value.error)
    ensures Construct(i).Some? && Construct(i).value.status == Ready ==>
              i.thumbs == ALL_SIZES && !Construct(i).value.error
  {
  }

  /** A new image is refused exactly for its details or its position. */
  lemma NewImageIff(i: Image)
    requires i.status == Pending && i.thumbs == {} && !i.error
    ensures Construct(i) == if 1 <= i.position <= MAX_IMAGES && Acceptable(i.details) then Some(i) else None
  {
  }

  // ---- Processing ----

  predicate Claimable(i: Image, maxAttempts: nat)
  {
    i.status != Ready && i.status != Processing && i.attempts < maxAttempts
  }

  function Claimed(i: Image): Image
  {
    Settled(i.(status := Processing, attempts := i.attempts + 1))
  }

  function MarkedReady(i: Image, thumbs: set<Size>): Image
  {
    Settled(i.(thumbs := thumbs, status := Ready, error := false))
  }

  function MarkedFailed(i: Image): Image
  {
    Settled(i.(status := Failed, error := true))
  }

  /** A claim, a finish and a failure: what may be claimed, and what each makes of an image. A finish that brings
      fewer than all thumbnails leaves the image PENDING. */
  lemma ProcessingIs(i: Image, thumbs: set<Size>, maxAttempts: nat)
    ensures Claimable(i, maxAttempts) <==> i.status in {Pending, Failed} && i.attempts < maxAttempts
    ensures Claimed(i) == i.(status := Processing, attempts := i.attempts + 1)
    ensures MarkedReady(i, thumbs) ==
            i.(thumbs := thumbs, error := false, status := if thumbs == {Small, Medium, Large} then Ready else Pending)
    ensures MarkedFailed(i) == i.(status := Failed, error := true)
  {
  }

  /** The status follows the thumbnails for PENDING and READY images alone; READY images have no error. */
  lemma SettledIs(i: Image)
    ensures Settled(i) == i.(status := Settled(i).status, error := Settled(i).error)
    ensures Settled(i).status == Ready <==> i.status in {Pending, Ready} && i.thumbs == {Small, Medium, Large}
    ensures Settled(i).status == Pending <==> i.status in {Pending, Ready} && i.thumbs != {Small, Medium, Large}
    ensures Settled(i).status != i.status ==> i.status in {Pending, Ready}
    ensures Settled(i).error <==> i.error && Settled(i).status != Ready
  {
  }

  /** Images by id, and the ids in insertion (or rowid) order. */
  ghost predicate Table(rows: map<Id, Image>, order: seq<Id>)
  {
    && Distinct(order)
    && (forall id :: id in order <==> id in rows)
    && (forall id :: id in rows ==> rows[id].id == id)
  }

  /** The images of one listing, in insertion order. */
  function Listed(rows: map<Id, Image>, order: seq<Id>, l: Id): seq<Image>
  {
    if order == [] then []
    else
      var id := order[|order| - 1];
      Listed(rows, order[..|order| - 1], l) +
      (if id in rows && rows[id].listing == l then [rows[id]] else [])
  }

  /** The order both repositories list images in; ties cannot occur between stored images. */
  predicate Before(a: Image, b: Image)
  {
    a.position <= b.position
  }

  function Ids(images: seq<Image>): seq<Id>
  {
    seq(|images|, i requires 0 <= i < |images| => images[i].id)
  }

  /** `ids` are exactly the images of listing `l`, at the positions 1, 2, 3, and so on. */
  ghost predicate View(rows: map<Id, Image>, l: Id, ids: seq<Id>)
  {
    && Distinct(ids)
    && (forall k :: 0 <= k < |ids| ==>
          ids[k] in rows && rows[ids[k]].listing == l && rows[ids[k]].position == k + 1)
    && (forall id :: id in rows && rows[id].listing == l ==> id in ids)
  }

  /** The abstract state: the sequence of image ids of every listing. */
  type Gallery = map<Id, seq<Id>>

  function Of(g: Gallery, l: Id): seq<Id>
  {
    if l in g then g[l] else []
  }

  ghost predicate Shows(rows: map<Id, Image>, g: Gallery, l: Id)
  {
    View(rows, l, Of(g, l)) && |Of(g, l)| <= MAX_IMAGES
  }

  /** Every listing is stored in its abstract order, and none has more than ten images. */
  ghost predicate Represents(rows: map<Id, Image>, g: Gallery)
  {
    forall l :: Shows(rows, g, l)
  }

  function Without(ids: seq<Id>, id: Id): seq<Id>
  {
    Filter(ids, x => x != id)
  }

  function Appended(g: Gallery, l: Id, id: Id): Gallery
  {
    g[l := Of(g, l) + [id]]
  }

  lemma AppendedIs(g: Gallery, l: Id, id: Id)
    ensures Appended(g, l, id) == g[l := Of(g, l) + [id]]
  {
  }

  function Removed(g: Gallery, l: Id, id: Id): Gallery
  {
    g[l := Without(Of(g, l), id)]
  }

  /** What `reorder_listing_images` accepts: every current image exactly once. */
  ghost predicate Permutes(current: seq<Id>, requested: seq<Id>)
  {
    Distinct(requested) && SameMembers(current, requested)
  }

  // ---- Sorting a listing ----

  lemma {:induction false} ListedIsExact(rows: map<Id, Image>, order: seq<Id>, l: Id)
    requires Distinct(order) && forall id :: id in rows ==> rows[id].id == id
    ensures forall k :: 0 <= k < |Listed(rows, order, l)| ==>
              && Listed(rows, order, l)[k].id in order && Listed(rows, order, l)[k].id in rows
              && Listed(rows, order, l)[k] == rows[Listed(rows, order, l)[k].id]
              && Listed(rows, order, l)[k].listing == l
    ensures forall id :: id in order && id in rows && rows[id].listing == l ==> rows[id] in Listed(rows, order, l)
    ensures Distinct(Listed(rows, order, l))
  {
    if order != [] {
      var prefix, last := order[..|order| - 1], order[|order| - 1];
      ListedIsExact(rows, prefix, l);
      assert order == prefix + [last] && last !in prefix;
    }
  }

  /** `images` are all stored images of the listing, each once. */
  ghost predicate Lists(rows: map<Id, Image>, images: seq<Image>, l: Id)
  {
    && Distinct(images)
    && (forall i :: i in images ==> i.id in rows && i == rows[i.id] && i.listing == l)
    && (forall id :: id in rows && rows[id].listing == l ==> rows[id] in images)
  }

  lemma ListedLists(rows: map<Id, Image>, order: seq<Id>, l: Id)
    requires Table(rows, order)
    ensures Lists(rows, Listed(rows, order, l), l)
  {
    ListedIsExact(rows, order, l);
  }

  lemma ListsEnumerates(rows: map<Id, Image>, s: seq<Image>, l: Id)
    requires (forall id :: id in rows ==> rows[id].id == id) && Lists(rows, s, l)
    ensures Enumerates(rows, s, l)
  {
    forall k | 0 <= k < |s| ensures s[k].id in rows && s[k] == rows[s[k].id] && s[k].listing == l {
      assert s[k] in s;
    }
    forall id | id in rows && rows[id].listing == l ensures id in Ids(s) {
      var k :| 0 <= k < |s| && s[k] == rows[id];
      assert Ids(s)[k] == id;
    }
    forall i, j | 0 <= i < j < |s| ensures Ids(s)[i] != Ids(s)[j] {
      assert s[i] != s[j];
    }
  }

  /** The images of a listing sorted by position: each once, and nothing else. */
  lemma SortedListing(rows: map<Id, Image>, order: seq<Id>, l: Id, le: (Image, Image) -> bool)
    requires Table(rows, order) && TotalPreorder(le)
    ensures var s := Sort(Listed(rows, order, l), le); SortedBy(s, le) && Enumerates(rows, s, l)
  {
    var listed := Listed(rows, order, l);
    hide Sort, Listed, SortedBy, TotalPreorder, Enumerates, Distinct;
    ListedLists(rows, order, l);
    SortSorts(listed, le);
    SortKeepsDistinct(listed, le);
    ListsEnumerates(rows, Sort(listed, le), l);
  }

  ghost predicate SameMembers(a: seq<Id>, b: seq<Id>)
  {
    forall id :: id in a <==> id in b
  }

  ghost predicate Increasing(rows: map<Id, Image>, s: seq<Id>)
  {
    && (forall i :: 0 <= i < |s| ==> s[i] in rows)
    && (forall i, j :: 0 <= i < j < |s| ==> rows[s[i]].position < rows[s[j]].position)
  }

  lemma LastIsLargest(rows: map<Id, Image>, s: seq<Id>, id: Id)
    requires Increasing(rows, s) && id in s
    ensures id in rows && s[|s| - 1] in rows
    ensures rows[id].position <= rows[s[|s| - 1]].position
    ensures rows[id].position == rows[s[|s| - 1]].position ==> id == s[|s| - 1]
  {
    var i :| 0 <= i < |s| && s[i] == id;
  }

  lemma SamePrefix(a: seq<Id>, b: seq<Id>, x: Id)
    requires SameMembers(a + [x], b + [x]) && x !in a && x !in b
    ensures SameMembers(a, b)
  {
    forall id ensures id in a <==> id in b {
      assert id in a + [x] <==> id in b + [x];
    }
  }

  lemma LastsAgree(rows: map<Id, Image>, a: seq<Id>, b: seq<Id>)
    requires SameMembers(a, b) && Increasing(rows, a) && Increasing(rows, b)
    ensures a == [] <==> b == []
    ensures a != [] && b != [] ==> a[|a| - 1] == b[|b| - 1]
  {
    assert a != [] ==> a[|a| - 1] in b;
    assert b != [] ==> b[|b| - 1] in a;
    if a != [] && b != [] {
      LastIsLargest(rows, a, b[|b| - 1]);
      LastIsLargest(rows, b, a[|a| - 1]);
    }
  }

  lemma IncreasingPrefix(rows: map<Id, Image>, a: seq<Id>)
    requires Increasing(rows, a) && a != []
    ensures Increasing(rows, a[..|a| - 1]) && a[|a| - 1] !in a[..|a| - 1]
    ensures a == a[..|a| - 1] + [a[|a| - 1]]
  {
  }

  /** Two enumerations of the same ids, both in strictly increasing position order, are equal. */
  lemma {:induction false} SameOrder(rows: map<Id, Image>, a: seq<Id>, b: seq<Id>)
    requires SameMembers(a, b) && Increasing(rows, a) && Increasing(rows, b)
    ensures a == b
  {
    LastsAgree(rows, a, b);
    if a != [] {
      IncreasingPrefix(rows, a);
      IncreasingPrefix(rows, b);
      hide SameMembers, Increasing;
      SamePrefix(a[..|a| - 1], b[..|b| - 1], a[|a| - 1]);
      SameOrder(rows, a[..|a| - 1], b[..|b| - 1]);
    }
  }

  /** `ids` are exactly the images of listing `l` in strictly increasing position order. */
  ghost predicate Ranked(rows: map<Id, Image>, l: Id, ids: seq<Id>)
  {
    && Increasing(rows, ids)
    && (forall k :: 0 <= k < |ids| ==> rows[ids[k]].listing == l)
    && (forall id :: id in rows && rows[id].listing == l ==> id in ids)
  }

  lemma ViewIsRanked(rows: map<Id, Image>, l: Id, ids: seq<Id>)
    requires View(rows, l, ids)
    ensures Ranked(rows, l, ids)
  {
  }

  /** Distinct images of a ranked listing have distinct positions. */
  lemma RankedPositions(rows: map<Id, Image>, l: Id, ids: seq<Id>, x: Id, y: Id)
    requires Ranked(rows, l, ids) && x in rows && y in rows && rows[x].listing == l && rows[y].listing == l && x != y
    ensures rows[x].position != rows[y].position
  {
    assert x in ids && y in ids;
  }

  /** A listing that is ranked as `ids` is listed as `ids`. */
  lemma ListedInOrder(rows: map<Id, Image>, order: seq<Id>, l: Id, ids: seq<Id>, le: (Image, Image) -> bool)
    requires Table(rows, order) && TotalPreorder(le) && Ranked(rows, l, ids)
    requires forall a, b :: le(a, b) ==> a.position <= b.position
    ensures Ids(Sort(Listed(rows, order, l), le)) == ids
  {
    var s := Sort(Listed(rows, order, l), le);
    SortedListing(rows, order, l, le);
    hide Sort, Listed, TotalPreorder;
    var found := Ids(s);
    forall i, j | 0 <= i < j < |found| ensures rows[found[i]].position < rows[found[j]].position {
      assert found[i] == s[i].id && found[j] == s[j].id && found[i] != found[j];
      assert le(s[i], s[j]);
      RankedPositions(rows, l, ids, found[i], found[j]);
    }
    forall id ensures id in found <==> id in ids {
      if id in found {
        var k :| 0 <= k < |found| && found[k] == id;
        assert rows[id].listing == l;
      }
    }
    SameOrder(rows, found, ids);
  }

  /** Taking one image out of a viewed listing leaves the others in their order. */
  lemma RemovedIsRanked(rows: map<Id, Image>, l: Id, ids: seq<Id>, id: Id)
    requires View(rows, l, ids)
    ensures Ranked(rows - {id}, l, Without(ids, id))
  {
    WithoutIncreases(rows, ids, id);
    WithoutKeeps(ids, id);
    var left := Without(ids, id);
    forall k | 0 <= k < |left| ensures left[k] in ids && left[k] != id {
      assert left[k] in left;
    }
  }

  lemma {:induction false} WithoutIncreases(rows: map<Id, Image>, ids: seq<Id>, id: Id)
    requires Increasing(rows, ids)
    ensures Increasing(rows, Without(ids, id))
  {
    if ids != [] {
      var prefix, last := ids[..|ids| - 1], ids[|ids| - 1];
      WithoutIncreases(rows, prefix, id);
      WithoutKeeps(prefix, id);
      assert Without(ids, id) == Without(prefix, id) + (if last != id then [last] else []);
      var left := Without(prefix, id);
      forall i | 0 <= i < |left| ensures rows[left[i]].position < rows[last].position {
        assert left[i] in left && left[i] in prefix;
        var j :| 0 <= j < |prefix| && ids[j] == left[i];
      }
    }
  }

  /** Putting a new image behind a viewed listing. */
  lemma AppendedIsView(rows: map<Id, Image>, l: Id, ids: seq<Id>, image: Image)
    requires View(rows, l, ids) && image.id !in rows && image.listing == l && image.position == |ids| + 1
    ensures View(rows[image.id := image], l, ids + [image.id])
  {
  }

  lemma {:induction false} WithoutLength(ids: seq<Id>, id: Id)
    requires Distinct(ids)
    ensures |Without(ids, id)| == |ids| - (if id in ids then 1 else 0)
  {
    if ids != [] {
      var prefix, last := ids[..|ids| - 1], ids[|ids| - 1];
      assert ids == prefix + [last] && last !in prefix;
      WithoutLength(prefix, id);
    }
  }

  // ---- Renumbering ----

  /** Every stored image passed its own checks. */
  ghost predicate Coherent(rows: map<Id, Image>)
  {
    forall id :: id in rows ==> Construct(rows[id]) == Some(rows[id])
  }

  /** The images of a listing as they are stored, each once and none missing. */
  ghost predicate Enumerates(rows: map<Id, Image>, images: seq<Image>, l: Id)
  {
    && Distinct(Ids(images))
    && (forall k :: 0 <= k < |images| ==>
          images[k].id in rows && images[k] == rows[images[k].id] && images[k].listing == l)
    && (forall id :: id in rows && rows[id].listing == l ==> id in Ids(images))
  }

  predicate Among(images: seq<Image>, k: nat, id: Id)
    requires k <= |images|
  {
    exists i :: 0 <= i < k && images[i].id == id
  }

  /** `rows` with the first `k` of `images` at the positions 1 to `k`, and nothing else changed. */
  ghost predicate Numbered(before: map<Id, Image>, rows: map<Id, Image>, images: seq<Image>, k: nat)
    requires k <= |images|
  {
    && rows.Keys == before.Keys
    && (forall i :: 0 <= i < k ==>
          images[i].id in rows && Some(rows[images[i].id]) == Construct(images[i].(position := i + 1)))
    && (forall id :: id in before && !Among(images, k, id) ==> rows[id] == before[id])
  }

  lemma NumberedOne(before: map<Id, Image>, rows: map<Id, Image>, images: seq<Image>, k: nat, next: Image)
    requires k < |images| && Numbered(before, rows, images, k) && Distinct(Ids(images))
    requires Construct(images[k].(position := k + 1)) == Some(next) && images[k].id in before
    ensures Numbered(before, rows[next.id := next], images, k + 1)
  {
    ConstructIsStable(images[k].(position := k + 1));
    hide Construct;
    DistinctIds(images, k);
    AmongOneMore(images, k);
  }

  lemma DistinctIds(images: seq<Image>, k: nat)
    requires k < |images| && Distinct(Ids(images))
    ensures forall i :: 0 <= i < |images| && i != k ==> images[i].id != images[k].id
  {
    forall i | 0 <= i < |images| && i != k ensures images[i].id != images[k].id {
      assert Ids(images)[i] != Ids(images)[k];
    }
  }

  lemma AmongOneMore(images: seq<Image>, k: nat)
    requires k < |images|
    ensures forall id :: Among(images, k + 1, id) <==> Among(images, k, id) || id == images[k].id
  {
    forall id | Among(images, k, id) || id == images[k].id ensures Among(images, k + 1, id) {
      assert id == images[k].id ==> images[k].id == id;
    }
  }

  /** Between `before` and `rows` only images of listing `l` came, went or changed. */
  ghost predicate OthersKept(before: map<Id, Image>, rows: map<Id, Image>, l: Id)
  {
    && (forall id :: id in before && before[id].listing != l ==> id in rows && rows[id] == before[id])
    && (forall id :: id in rows && rows[id].listing != l ==> id in before && rows[id] == before[id])
  }

  lemma NumberedKeeps(before: map<Id, Image>, rows: map<Id, Image>, order: seq<Id>, images: seq<Image>, l: Id, k: nat)
    requires k <= |images| && Numbered(before, rows, images, k) && Enumerates(before, images, l)
    requires Table(before, order) && Coherent(before)
    ensures Table(rows, order) && Coherent(rows) && OthersKept(before, rows, l)
  {
    forall id | id in rows
      ensures rows[id].id == id && Construct(rows[id]) == Some(rows[id])
      ensures rows[id].listing == before[id].listing && (before[id].listing != l ==> rows[id] == before[id])
    {
      if Among(images, k, id) {
        var i :| 0 <= i < k && images[i].id == id;
        ConstructIsStable(images[i].(position := i + 1));
      }
    }
  }

  /** Once all are numbered, the listing is in order. */
  lemma NumberedView(before: map<Id, Image>, rows: map<Id, Image>, images: seq<Image>, l: Id)
    requires Numbered(before, rows, images, |images|) && Enumerates(before, images, l)
    ensures View(rows, l, Ids(images))
  {
    forall id | id in rows ensures rows[id].listing == before[id].listing {
      if Among(images, |images|, id) {
        var i :| 0 <= i < |images| && images[i].id == id;
      }
    }
  }

  lemma Shown(rows: map<Id, Image>, g: Gallery, l: Id)
    requires Represents(rows, g)
    ensures View(rows, l, Of(g, l)) && |Of(g, l)| <= MAX_IMAGES && Distinct(Of(g, l))
  {
    assert Shows(rows, g, l);
  }

  lemma NewSequence(before: map<Id, Image>, g: Gallery, rows: map<Id, Image>, l: Id, ids: seq<Id>)
    requires Represents(before, g) && OthersKept(before, rows, l) && View(rows, l, ids) && |ids| <= MAX_IMAGES
    ensures Represents(rows, g[l := ids])
  {
    var h := g[l := ids];
    forall m ensures Shows(rows, h, m) {
      assert Shows(before, g, m);
    }
  }

  // ---- Comparing sequences of ids ----

  function IdSet(s: seq<Id>): set<Id>
  {
    set id | id in s
  }

  lemma {:induction false} DistinctBySize(s: seq<Id>)
    ensures |IdSet(s)| <= |s|
    ensures |IdSet(s)| == |s| <==> Distinct(s)
  {
    if s != [] {
      var prefix, last := s[..|s| - 1], s[|s| - 1];
      assert s == prefix + [last];
      DistinctBySize(prefix);
      assert IdSet(s) == IdSet(prefix) + {last};
      if last in prefix {
        assert IdSet(s) == IdSet(prefix);
        var i :| 0 <= i < |prefix| && prefix[i] == last;
        assert s[i] == s[|s| - 1];
      } else {
        assert |IdSet(s)| == |IdSet(prefix)| + 1;
      }
    }
  }

  lemma SameSets(a: seq<Id>, b: seq<Id>)
    ensures IdSet(a) == IdSet(b) <==> SameMembers(a, b)
  {
    if IdSet(a) == IdSet(b) {
      forall id ensures id in a <==> id in b {
        assert id in IdSet(a) <==> id in IdSet(b);
      }
    }
  }

  /** What comparing lengths and sets finds out. */
  lemma ComparedBySets(current: seq<Id>, requested: seq<Id>)
    requires Distinct(current)
    ensures |requested| != |IdSet(requested)| <==> !Distinct(requested)
    ensures Distinct(requested) ==>
      (|current| == |requested| && IdSet(current) == IdSet(requested) <==> Permutes(current, requested))
    ensures Permutes(current, requested) ==> Distinct(requested) && |current| == |requested|
  {
    hide Distinct;
    DistinctBySize(current);
    DistinctBySize(requested);
    SameSets(current, requested);
  }

  lemma {:induction false} WithoutKeeps(order: seq<Id>, id: Id)
    ensures forall x :: x in Without(order, id) <==> x in order && x != id
    ensures Distinct(order) ==> Distinct(Without(order, id))
  {
    if order != [] {
      var prefix, last := order[..|order| - 1], order[|order| - 1];
      assert order == prefix + [last];
      WithoutKeeps(prefix, id);
      assert Without(order, id) == Without(prefix, id) + (if last != id then [last] else []);
      assert Distinct(order) ==> last !in prefix;
    }
  }
}
