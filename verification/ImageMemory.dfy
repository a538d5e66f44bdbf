/** The in-memory image repository and the media service over it. */
module ImageMemory {
  import opened Common
  import opened Sorting
  import opened Images

  /** Position, then creation time, then id. */
  predicate MemoryOrder(a: Image, b: Image)
  {
    || a.position < b.position
    || (a.position == b.position &&
        (a.createdAt < b.createdAt || (a.createdAt == b.createdAt && a.id <= b.id)))
  }

  lemma MemoryOrderIsTotal()
    ensures TotalPreorder(MemoryOrder)
  {
  }

  function Ordered(rows: map<Id, Image>, order: seq<Id>, l: Id): seq<Image>
  {
    Sort(Listed(rows, order, l), MemoryOrder)
  }

  lemma OrderedIsExact(rows: map<Id, Image>, order: seq<Id>, l: Id)
    requires Table(rows, order)
    ensures Enumerates(rows, Ordered(rows, order, l), l)
  {
    MemoryOrderIsTotal();
    SortedListing(rows, order, l, MemoryOrder);
  }

  lemma OrderedIsRanked(rows: map<Id, Image>, order: seq<Id>, l: Id, ids: seq<Id>)
    requires Table(rows, order) && Ranked(rows, l, ids)
    ensures Ids(Ordered(rows, order, l)) == ids && |Ordered(rows, order, l)| == |ids|
  {
    MemoryOrderIsTotal();
    ListedInOrder(rows, order, l, ids, MemoryOrder);
  }

  class MemoryListingImageRepository {
    var store: map<Id, Image>
    var order: seq<Id>

    ghost predicate Valid()
      reads this
    {
      Table(store, order) && Coherent(store)
    }

    constructor ()
      ensures Valid() && store == map[]
    {
      store, order := map[], [];
    }

    method OrderedImages(l: Id) returns (images: seq<Image>)
      requires Valid()
      ensures images == Ordered(store, order, l)
    {
      images := [];
      for i := 0 to |order|
        invariant images == Listed(store, order[..i], l)
      {
        assert order[i] in order && order[..i + 1][..i] == order[..i];
        if store[order[i]].listing == l {
          images := images + [store[order[i]]];
        }
      }
      assert order[..|order|] == order;
      images := Sort(images, MemoryOrder);
    }

    /** Renumber a listing in its present order; raises at the eleventh image. */
    method CompactListing(l: Id) returns (ok: bool)
      requires Valid()
      modifies this
      ensures Valid() && order == old(order) && store.Keys == old(store).Keys && OthersKept(old(store), store, l)
      ensures ok <==> |Ordered(old(store), order, l)| <= MAX_IMAGES
      ensures ok ==> View(store, l, Ids(Ordered(old(store), order, l)))
    {
      hide Ordered, View, Enumerates, Numbered, OthersKept;
      var images := OrderedImages(l);
      OrderedIsExact(store, order, l);
      ghost var before := store;
      NothingNumbered(store, images);
      for k := 0 to |images|
        invariant order == old(order) && Numbered(before, store, images, k) && k <= MAX_IMAGES
      {
        AcceptableImage(before, images, k, l);
        var next := Construct(images[k].(position := k + 1));
        if next.None? {
          NumberedKeeps(before, store, order, images, l, k);
          NumberedKeys(before, store, images, k);
          return false;
        }
        NumberedOne(before, store, images, k, next.value);
        store := store[next.value.id := next.value];
      }
      NumberedKeeps(before, store, order, images, l, |images|);
      NumberedKeys(before, store, images, |images|);
      NumberedView(before, store, images, l);
      return true;
    }

    method StoreImage(image: Image) returns (ok: bool)
      requires Valid() && Construct(image) == Some(image)
      modifies this
      ensures Valid() && store.Keys == old(store).Keys + {image.id}
      ensures OthersKept(old(store)[image.id := image], store, image.listing)
      ensures order == if image.id in old(store) then old(order) else old(order) + [image.id]
      ensures var placed := Ordered(old(store)[image.id := image], order, image.listing);
              && (ok <==> |placed| <= MAX_IMAGES)
              && (ok ==> View(store, image.listing, Ids(placed)))
    {
      hide Ordered, View, OthersKept, Construct;
      if image.id !in store {
        order := order + [image.id];
      }
      store := store[image.id := image];
      ok := CompactListing(image.listing);
    }

    /** Whether there was such an image; raises when the others still do not fit. */
    method DeleteById(id: Id) returns (deleted: Result<bool, Error>)
      requires Valid()
      modifies this
      ensures Valid() && store.Keys == old(store).Keys - {id}
      ensures id !in old(store) ==> deleted == Ok(false) && store == old(store) && order == old(order)
      ensures id in old(store) ==>
        var l := old(store)[id].listing;
        var left := Ordered(old(store) - {id}, order, l);
        && Table(old(store) - {id}, order) && OthersKept(old(store) - {id}, store, l)
        && deleted == (if |left| <= MAX_IMAGES then Ok(true) else Err(InvalidPosition))
        && (deleted.Ok? ==> View(store, l, Ids(left)))
    {
      hide Ordered, View, OthersKept;
      if id !in store {
        return Ok(false);
      }
      var l := store[id].listing;
      WithoutKeeps(order, id);
      order := Without(order, id);
      store := store - {id};
      var ok := CompactListing(l);
      return if ok then Ok(true) else Err(InvalidPosition);
    }

    method CountByListing(l: Id) returns (count: nat)
      requires Valid()
      ensures count == |Ordered(store, order, l)|
    {
      var images := OrderedImages(l);
      return |images|;
    }

    /** The one check-and-set that decides which handler owns the image. */
    method ClaimForProcessing(id: Id, maxAttempts: nat) returns (claimed: Option<Image>)
      requires Valid()
      modifies this`store
      ensures Valid()
      ensures claimed == if id in old(store) && Claimable(old(store)[id], maxAttempts)
                         then Some(Claimed(old(store)[id])) else None
      ensures store == if claimed.Some? then old(store)[id := claimed.value] else old(store)
    {
      if id !in store {
        return None;
      }
      var image := store[id];
      if image.status == Ready || image.status == Processing || image.attempts >= maxAttempts {
        return None;
      }
      claimed := Construct(store[id].(status := Processing, attempts := store[id].attempts + 1));
      store := store[id := claimed.value];
    }

    method MarkReady(id: Id, thumbnails: set<Size>) returns (ready: Option<Image>)
      requires Valid()
      modifies this`store
      ensures Valid()
      ensures ready == if id in old(store) then Some(MarkedReady(old(store)[id], thumbnails)) else None
      ensures store == if ready.Some? then old(store)[id := ready.value] else old(store)
    {
      if id !in store {
        return None;
      }
      ready := Construct(store[id].(thumbs := thumbnails, status := Ready, error := false));
      store := store[id := ready.value];
    }

    method MarkFailed(id: Id) returns (failed: Option<Image>)
      requires Valid()
      modifies this`store
      ensures Valid()
      ensures failed == if id in old(store) then Some(MarkedFailed(old(store)[id])) else None
      ensures store == if failed.Some? then old(store)[id := failed.value] else old(store)
    {
      if id !in store {
        return None;
      }
      failed := Construct(store[id].(status := Failed, error := true));
      store := store[id := failed.value];
    }

    /** Install a permutation of the listing; anything else is refused. */
    method ReorderForListing(l: Id, requested: seq<Id>) returns (r: Result<seq<Image>, Error>)
      requires Valid()
      modifies this
      ensures Valid() && order == old(order) && store.Keys == old(store).Keys && OthersKept(old(store), store, l)
      ensures r.Err? ==> store == old(store) && r.error in {DuplicateIds, NotAPermutation, InvalidPosition}
      ensures var current := Ids(Ordered(old(store), order, l));
              && (r == Err(DuplicateIds) <==> !Distinct(requested))
              && (r == Err(NotAPermutation) <==> Distinct(requested) && !Permutes(current, requested))
              && (r == Err(InvalidPosition) <==> Permutes(current, requested) && |requested| > MAX_IMAGES)
              && (r.Ok? ==> View(store, l, requested) && r.value == Ordered(store, order, l))
    {
      hide Ordered, View, Enumerates, Numbered, OthersKept, Permutes, Construct;
      NothingElse(store, l);
      OrderedIsExact(store, order, l);
      EnumeratedOnce(store, Ordered(store, order, l), l);
      ComparedBySets(Ids(Ordered(store, order, l)), requested);
      if |requested| != |IdSet(requested)| {
        return Err(DuplicateIds);
      }
      var images := OrderedImages(l);
      var current := Ids(images);
      if |current| != |requested| || IdSet(current) != IdSet(requested) {
        return Err(NotAPermutation);
      }
      Stored(store, images, requested, l);
      var stored := store;
      var asked := seq(|requested|, i requires 0 <= i < |requested| && requested[i] in stored => stored[requested[i]]);
      Reenumerates(store, images, requested, asked, l);
      var updated: seq<Image> := [];
      for k := 0 to |requested|
        invariant |updated| == k && store == old(store) && order == old(order) && k <= MAX_IMAGES
        invariant forall i :: 0 <= i < k ==> Some(updated[i]) == Construct(asked[i].(position := i + 1))
      {
        AcceptableImage(store, asked, k, l);
        var next := Construct(asked[k].(position := k + 1));
        if next.None? {
          return Err(InvalidPosition);
        }
        updated := updated + [next.value];
      }
      ghost var before := store;
      NothingNumbered(store, asked);
      for k := 0 to |updated|
        invariant order == old(order) && Numbered(before, store, asked, k)
      {
        AcceptableImage(before, asked, k, l);
        NumberedOne(before, store, asked, k, updated[k]);
        store := store[updated[k].id := updated[k]];
      }
      NumberedKeeps(before, store, order, asked, l, |asked|);
      NumberedKeys(before, store, asked, |asked|);
      NumberedView(before, store, asked, l);
      var result := OrderedImages(l);
      return Ok(result);
    }
  }

  /** The media service over this repository; `gallery` is the abstract state it maintains. */
  class MemoryMediaService {
    const repo: MemoryListingImageRepository
    ghost var gallery: Gallery

    ghost predicate Valid()
      reads this, repo
    {
      repo.Valid() && Represents(repo.store, gallery)
    }

    constructor ()
      ensures Valid() && gallery == map[]
    {
      repo := new MemoryListingImageRepository();
      gallery := map[];
    }

    method UploadImage(l: Id, id: Id, details: Details, createdAt: int) returns (r: Result<Image, Error>)
      requires Valid() && id !in repo.store
      modifies this, repo
      ensures Valid()
      ensures r == Err(MaxImagesExceeded) <==> |Of(old(gallery), l)| >= 10
      ensures r == Err(InvalidDetails) <==> |Of(old(gallery), l)| < MAX_IMAGES && !Acceptable(details)
      ensures r.Err? ==> r.error in {MaxImagesExceeded, InvalidDetails} && gallery == old(gallery)
      ensures r.Ok? ==> gallery == Appended(old(gallery), l, id) && r.value.position == |Of(old(gallery), l)| + 1
    {
      hide Ordered, Represents, View, Construct, OthersKept, Acceptable, Appended;
      ghost var ids, before := Of(gallery, l), repo.store;
      Shown(repo.store, gallery, l);
      ViewIsRanked(repo.store, l, ids);
      OrderedIsRanked(repo.store, repo.order, l, ids);
      var count := repo.CountByListing(l);
      if count >= MAX_IMAGES {
        return Err(MaxImagesExceeded);
      }
      var existing := repo.OrderedImages(l);
      var image := Construct(Image(id, l, details, |existing| + 1, createdAt, {}, Pending, false, 0));
      NewImageIff(Image(id, l, details, |existing| + 1, createdAt, {}, Pending, false, 0));
      if image.None? {
        return Err(InvalidDetails);
      }
      AppendedIsView(before, l, ids, image.value);
      ViewIsRanked(before[id := image.value], l, ids + [id]);
      var ok := repo.StoreImage(image.value);
      PlacedLast(before, repo.order, repo.store, l, ids, image.value);
      NewSequence(before, gallery, repo.store, l, ids + [id]);
      AppendedIs(gallery, l, id);
      gallery := Appended(gallery, l, id);
      return Ok(image.value);
    }

    method DeleteImage(id: Id) returns (deleted: bool)
      requires Valid()
      modifies this, repo
      ensures Valid() && (deleted <==> id in old(repo.store))
      ensures gallery == if deleted then Removed(old(gallery), old(repo.store)[id].listing, id) else old(gallery)
    {
      hide Ordered;
      ghost var before := repo.store;
      var result := repo.DeleteById(id);
      if id in before {
        ghost var l := before[id].listing;
        assert Shows(before, gallery, l);
        RemovedIsRanked(before, l, Of(gallery, l), id);
        WithoutLength(Of(gallery, l), id);
        LeftInOrder(before, repo.order, repo.store, l, Of(gallery, l), id);
        NewSequence(before, gallery, repo.store, l, Without(Of(gallery, l), id));
        gallery := Removed(gallery, l, id);
      }
      deleted := result.Ok? && result.value;
    }

    method ReorderListingImages(l: Id, requested: seq<Id>) returns (r: Result<seq<Image>, Error>)
      requires Valid()
      modifies this, repo
      ensures Valid()
      ensures r.Ok? <==> Permutes(Of(old(gallery), l), requested)
      ensures r == Err(DuplicateIds) <==> !Distinct(requested)
      ensures r.Err? ==> r.error in {DuplicateIds, NotAPermutation} && gallery == old(gallery)
      ensures r.Ok? ==> gallery == old(gallery)[l := requested] && Ids(r.value) == requested
    {
      hide Ordered, Represents;
      ghost var ids, before := Of(gallery, l), repo.store;
      Shown(repo.store, gallery, l);
      ViewIsRanked(repo.store, l, ids);
      OrderedIsRanked(repo.store, repo.order, l, ids);
      ComparedBySets(ids, requested);
      var current := repo.OrderedImages(l);
      if |requested| != |IdSet(requested)| {
        return Err(DuplicateIds);
      }
      if |current| != |requested| || IdSet(Ids(current)) != IdSet(requested) {
        return Err(NotAPermutation);
      }
      r := repo.ReorderForListing(l, requested);
      NewSequence(before, gallery, repo.store, l, requested);
      ViewIsRanked(repo.store, l, requested);
      OrderedIsRanked(repo.store, repo.order, l, requested);
      gallery := gallery[l := requested];
    }
  }

  lemma PlacedLast(before: map<Id, Image>, order: seq<Id>, rows: map<Id, Image>, l: Id, ids: seq<Id>, image: Image)
    requires View(before, l, ids) && image.id !in before && image.listing == l && image.position == |ids| + 1
    requires Table(before[image.id := image], order) && OthersKept(before[image.id := image], rows, l)
    ensures Ids(Ordered(before[image.id := image], order, l)) == ids + [image.id]
    ensures |Ordered(before[image.id := image], order, l)| == |ids| + 1
    ensures OthersKept(before, rows, l)
  {
    AppendedIsView(before, l, ids, image);
    ViewIsRanked(before[image.id := image], l, ids + [image.id]);
    OrderedIsRanked(before[image.id := image], order, l, ids + [image.id]);
    hide Ordered;
    assert forall id :: id in before ==> id in before[image.id := image];
  }

  lemma LeftInOrder(before: map<Id, Image>, order: seq<Id>, rows: map<Id, Image>, l: Id, ids: seq<Id>, id: Id)
    requires id in before && before[id].listing == l && Ranked(before - {id}, l, Without(ids, id))
    requires Table(before - {id}, order) && OthersKept(before - {id}, rows, l)
    ensures Ids(Ordered(before - {id}, order, l)) == Without(ids, id)
    ensures |Ordered(before - {id}, order, l)| == |Without(ids, id)|
    ensures OthersKept(before, rows, l)
  {
    OrderedIsRanked(before - {id}, order, l, Without(ids, id));
    hide Ordered;
    assert forall x :: x in before && x != id ==> x in before - {id} && (before - {id})[x] == before[x];
  }

  lemma NothingNumbered(rows: map<Id, Image>, images: seq<Image>)
    ensures Numbered(rows, rows, images, 0)
  {
  }

  lemma NothingElse(rows: map<Id, Image>, l: Id)
    ensures OthersKept(rows, rows, l)
  {
  }

  lemma NumberedKeys(before: map<Id, Image>, rows: map<Id, Image>, images: seq<Image>, k: nat)
    requires k <= |images| && Numbered(before, rows, images, k)
    ensures rows.Keys == before.Keys
  {
  }

  lemma EnumeratedOnce(rows: map<Id, Image>, images: seq<Image>, l: Id)
    requires Enumerates(rows, images, l)
    ensures Distinct(Ids(images))
  {
  }

  /** A stored image can be renumbered exactly as far as the bound allows. */
  lemma AcceptableImage(rows: map<Id, Image>, images: seq<Image>, k: nat, l: Id)
    requires k < |images| && Enumerates(rows, images, l) && Coherent(rows)
    ensures Construct(images[k].(position := k + 1)).Some? <==> k < MAX_IMAGES
    ensures images[k].id in rows && Distinct(Ids(images))
  {
    assert Construct(rows[images[k].id]).Some?;
  }

  lemma Stored(rows: map<Id, Image>, images: seq<Image>, requested: seq<Id>, l: Id)
    requires Enumerates(rows, images, l) && Permutes(Ids(images), requested)
    ensures forall i :: 0 <= i < |requested| ==> requested[i] in rows && rows[requested[i]].listing == l
  {
    forall i | 0 <= i < |requested| ensures requested[i] in rows && rows[requested[i]].listing == l {
      assert requested[i] in Ids(images);
      var j :| 0 <= j < |images| && Ids(images)[j] == requested[i];
    }
  }

  lemma Reenumerates(rows: map<Id, Image>, images: seq<Image>, requested: seq<Id>, asked: seq<Image>, l: Id)
    requires Enumerates(rows, images, l) && Permutes(Ids(images), requested) && |asked| == |requested|
    requires forall id :: id in rows ==> rows[id].id == id
    requires forall i :: 0 <= i < |requested| ==>
               requested[i] in rows && rows[requested[i]].listing == l && asked[i] == rows[requested[i]]
    ensures Enumerates(rows, asked, l) && Ids(asked) == requested
  {
    assert Ids(asked) == requested;
  }
}
