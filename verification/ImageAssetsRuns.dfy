/** Concrete runs of the image machine in which something is left behind. */
module ImageAssetsRuns {
  import opened Common
  import opened Images
  import opened ImageAssets
  import opened ImageAssetsResults

  const PHOTO := Details("photo.jpg", "image/jpeg", 1)

  /** Every upload of the run has a filename, a content type and a size. */
  ghost predicate AllAcceptable(labels: seq<Label>)
  {
    forall i :: 0 <= i < |labels| && labels[i].CheckLimit? ==> Acceptable(labels[i].details)
  }

  /** One more step of a run. */
  lemma Then(w: World, labels: seq<Label>, l: Label) returns (next: World, more: seq<Label>)
    requires Execute(START, labels) == Some(w) && Enabled(w, l)
    requires AllAcceptable(labels) && (l.CheckLimit? ==> Acceptable(l.details))
    ensures next == After(w, l) && Execute(START, more) == Some(next) && AllAcceptable(more)
  {
    OneMore(w, labels, l);
    next, more := After(w, l), labels + [l];
  }

  /** One undisturbed upload into a listing that has room. */
  lemma UploadRun(labels: seq<Label>, id: Id, l: Id) returns (more: seq<Label>)
    requires Execute(START, labels).Some? && AllAcceptable(labels)
    requires id !in Execute(START, labels).value.used && !Full(Execute(START, labels).value.images, l)
    ensures Execute(START, more).Some? && AllAcceptable(more)
    ensures var v, w := Execute(START, labels).value, Execute(START, more).value;
            && w.used == v.used + {id} && w.abandoned == v.abandoned && w.leaked == v.leaked
            && w.storage == v.storage + {Original(id)}
            && id in w.images && w.images == v.images[id := w.images[id]]
            && NewImage(id, w.images[id]) && w.images[id].listing == l
            && w.handlers == v.handlers[id := Queued] && w.uploads == v.uploads - {id}
  {
    hide Execute, LiveOf;
    var v := Execute(START, labels).value;
    EntityIff(v.images, id, l, PHOTO, 0);
    var entity := Entity(v.images, id, l, PHOTO, 0);
    hide Entity;
    var w: World;
    w, more := Then(v, labels, CheckLimit(id, l, PHOTO));
    w, more := Then(w, more, SaveOriginal(id));
    w, more := Then(w, more, BuildEntity(id, 0));
    assert w.uploads[id] == Built(entity.value);
    w, more := Then(w, more, StoreMetadata(id, Accepted));
    w, more := Then(w, more, Schedule(id, true));
  }

  lemma OneMoreLives(v: map<Id, Image>, w: map<Id, Image>, id: Id, l: Id)
    requires id !in v && id in w && w == v[id := w[id]] && w[id].listing == l
    ensures LiveOf(w, l) == LiveOf(v, l) + {id} && |LiveOf(w, l)| == |LiveOf(v, l)| + 1
  {
    forall x ensures x in LiveOf(w, l) <==> x in LiveOf(v, l) + {id} {
    }
  }

  /** The ids below `n` were uploaded into listing `l`, and nothing else happened. */
  ghost predicate Filled(w: World, n: nat, l: Id)
  {
    && (forall id: nat :: id in w.used <==> id < n)
    && |LiveOf(w.images, l)| == n
    && AtRest(w) && w.abandoned == {} && w.leaked == {}
  }

  lemma NothingLives(w: World, l: Id)
    requires forall id :: id !in w.images
    ensures |LiveOf(w.images, l)| == 0
  {
    var live := LiveOf(w.images, l);
    assert live == {};
  }

  lemma NothingFilled(w: World, l: Id)
    requires w == START
    ensures Execute(START, []) == Some(w) && AllAcceptable([]) && Filled(w, 0, l)
  {
    NothingLives(w, l);
    hide LiveOf;
    assert w.used == {};
  }

  lemma OneMoreFilled(labels: seq<Label>, n: nat, l: Id) returns (more: seq<Label>)
    requires Execute(START, labels).Some? && AllAcceptable(labels) && n < MAX_IMAGES
    requires Filled(Execute(START, labels).value, n, l)
    ensures Execute(START, more).Some? && AllAcceptable(more) && Filled(Execute(START, more).value, n + 1, l)
  {
    hide Execute, LiveOf;
    Unused(labels, n);
    more := UploadRun(labels, n, l);
    OneMoreLives(Execute(START, labels).value.images, Execute(START, more).value.images, n, l);
  }

  /** `n` undisturbed uploads into one listing. */
  lemma {:induction false} FillListing(n: nat, l: Id) returns (labels: seq<Label>)
    requires n <= MAX_IMAGES
    ensures Execute(START, labels).Some? && AllAcceptable(labels) && Filled(Execute(START, labels).value, n, l)
  {
    hide *;
    if n == 0 {
      labels := [];
      NothingFilled(START, l);
    } else {
      labels := FillListing(n - 1, l);
      labels := OneMoreFilled(labels, n - 1, l);
    }
  }

  lemma Unused(labels: seq<Label>, id: Id)
    requires Execute(START, labels).Some? && id !in Execute(START, labels).value.used
    ensures var w := Execute(START, labels).value;
            id !in w.images && id !in w.uploads && id !in w.handlers && id !in w.abandoned && Original(id) !in w.storage
  {
    ReachableInv(labels);
    hide Execute;
    assert Good(Execute(START, labels).value, id);
  }

  /** `v` with one more upload that passed the limit check and saved its file. */
  function Begun(v: World, l: Id, id: Id): World
  {
    v.(used := v.used + {id}, storage := v.storage + {Original(id)}, uploads := v.uploads[id := Saved(l, PHOTO)])
  }

  lemma BeginUpload(labels: seq<Label>, l: Id, id: Id) returns (more: seq<Label>)
    requires Execute(START, labels).Some? && AllAcceptable(labels)
    requires var v := Execute(START, labels).value; id !in v.used && !Full(v.images, l)
    ensures Execute(START, more) == Some(Begun(Execute(START, labels).value, l, id)) && AllAcceptable(more)
  {
    var v, w := Execute(START, labels).value, START;
    hide Execute, Full;
    w, more := Then(v, labels, CheckLimit(id, l, PHOTO));
    w, more := Then(w, more, SaveOriginal(id));
    assert w.uploads == Begun(v, l, id).uploads;
  }

  lemma StoreFirst(labels: seq<Label>, images: map<Id, Image>, l: Id, a: Id) returns (more: seq<Label>)
    requires Execute(START, labels).Some? && AllAcceptable(labels)
    requires var v := Execute(START, labels).value;
             && v.images == images && a !in images && |LiveOf(images, l)| == MAX_IMAGES - 1
             && a in v.uploads && v.uploads[a] == Saved(l, PHOTO)
    ensures Execute(START, more).Some? && AllAcceptable(more)
    ensures var v, w := Execute(START, labels).value, Execute(START, more).value;
            && w == v.(images := w.images, uploads := v.uploads[a := Stored])
            && w.images.Keys == images.Keys + {a} && |LiveOf(w.images, l)| == MAX_IMAGES
  {
    var v, w := Execute(START, labels).value, START;
    hide Execute, LiveOf, Entity;
    EntityIff(images, a, l, PHOTO, 0);
    w, more := Then(v, labels, BuildEntity(a, 0));
    w, more := Then(w, more, StoreMetadata(a, Accepted));
    assert w.uploads == v.uploads[a := Stored];
    OneMoreLives(images, w.images, a, l);
  }

  /** Both begin while the listing has nine images; the second builds its entity after the first is stored. */
  lemma Race(labels: seq<Label>, l: Id, a: Id, b: Id) returns (more: seq<Label>)
    requires Execute(START, labels).Some? && AllAcceptable(labels) && a != b
    requires var v := Execute(START, labels).value;
             a !in v.used && b !in v.used && AtRest(v) && |LiveOf(v.images, l)| == MAX_IMAGES - 1 && v.abandoned == {}
    ensures Execute(START, more).Some? && AllAcceptable(more)
    ensures var w := Execute(START, more).value;
            && AtRest(w) && |LiveOf(w.images, l)| == MAX_IMAGES
            && w.abandoned == {b} && Original(b) in w.storage && b !in w.images
  {
    hide Execute, LiveOf, Entity;
    Unused(labels, a);
    Unused(labels, b);
    var v := Execute(START, labels).value;
    more := BeginUpload(labels, l, a);
    more := BeginUpload(more, l, b);
    more := StoreFirst(more, v.images, l, a);
    var w := Execute(START, more).value;
    EntityIff(w.images, b, l, PHOTO, 0);
    w, more := Then(w, more, BuildEntity(b, 0));
    w, more := Then(w, more, Schedule(a, true));
  }

  /** Two uploads that both pass the limit check at nine images: the one whose position is read after the
      other was stored is refused, although nothing is wrong with it, and its file stays. */
  lemma {:induction false} TwoUploadsAtNine(l: Id) returns (labels: seq<Label>)
    ensures Execute(START, labels).Some? && AllAcceptable(labels)
    ensures var w := Execute(START, labels).value;
            && AtRest(w) && |LiveOf(w.images, l)| == MAX_IMAGES
            && w.abandoned == {10} && Original(10) in w.storage && 10 !in w.images
            && w.storage != Referenced(w.images)
  {
    var nine := FillListing(9, l);
    var v := Execute(START, nine).value;
    hide Execute, LiveOf;
    labels := Race(nine, l, 9, 10);
    StorageAtRest(labels);
  }

  /** An empty filename or content type does the same on its own. */
  lemma {:induction false} InvalidDetails(l: Id, details: Details) returns (labels: seq<Label>)
    requires !Acceptable(details)
    ensures Execute(START, labels).Some?
    ensures var w := Execute(START, labels).value; AtRest(w) && w.images == map[] && w.storage == {Original(0)}
  {
    hide Execute;
    EntityIff(map[], 0, l, details, 0);
    Empty();
    hide Entity;
    OneMore(START, [], CheckLimit(0, l, details));
    labels := [] + [CheckLimit(0, l, details)];
    var w := After(START, CheckLimit(0, l, details));
    OneMore(w, labels, SaveOriginal(0));
    w, labels := After(w, SaveOriginal(0)), labels + [SaveOriginal(0)];
    OneMore(w, labels, BuildEntity(0, 0));
    labels := labels + [BuildEntity(0, 0)];
  }

  lemma Empty()
    ensures Execute(START, []) == Some(START)
    ensures forall l :: LiveOf(map[], l) == {} && !Full(map[], l)
  {
    forall l ensures LiveOf(map[], l) == {} {
    }
  }

  // ---- Thumbnails that are forgotten ----

  lemma StartsDriven(labels: seq<Label>, id: Id, l: Id) returns (w: World, more: seq<Label>)
    requires labels == []
    ensures Execute(START, more) == Some(w) && Driven(w, id, Queued, 0, {})
  {
    Empty();
    more := UploadRun([], id, l);
    w := Execute(START, more).value;
    hide Execute;
    assert w.uploads == map[] && w.handlers == map[id := Queued] && w.images.Keys == {id};
  }

  /** Where the handler of the only image is, with the file of the image stored. */
  ghost predicate Driven(w: World, id: Id, pc: Pc, attempts: nat, leaked: set<Key>)
  {
    && w.uploads == map[] && w.abandoned == {} && w.leaked == leaked
    && w.handlers == map[id := pc] && w.images.Keys == {id}
    && NewImage(id, w.images[id].(status := Pending, error := false, attempts := 0))
    && w.images[id].attempts == attempts
    && w.images[id].status == (if pc.Queued? then Pending else if pc.Sleeping? || pc.Done? then Failed else Processing)
    && Original(id) in w.storage
  }

  lemma Step(w: World, labels: seq<Label>, id: Id, luck: Luck) returns (next: World, more: seq<Label>)
    requires Execute(START, labels) == Some(w) && id in w.handlers && !w.handlers[id].Done?
    ensures next == HandleStep(w, id, luck) && Execute(START, more) == Some(next)
  {
    OneMore(w, labels, Handle(id, luck));
    next, more := HandleStep(w, id, luck), labels + [Handle(id, luck)];
  }

  lemma StoreRun(w: World, labels: seq<Label>, id: Id, attempt: nat, created: set<Size>)
    returns (next: World, more: seq<Label>)
    requires Execute(START, labels) == Some(w) && Driven(w, id, Generating(attempt, created), attempt, {})
    requires created in {{}, {Small}, {Small, Medium}}
    ensures Execute(START, more) == Some(next)
    ensures created == {} ==> Driven(next, id, Generating(attempt, {Small}), attempt, {})
    ensures created == {Small} ==> Driven(next, id, Generating(attempt, {Small, Medium}), attempt, {})
    ensures created == {Small, Medium} ==> Driven(next, id, Generated(attempt), attempt, {})
  {
    hide Execute;
    next, more := Step(w, labels, id, Well);
    var now := created + {FirstOf(ALL_SIZES - created)};
    assert created == {} ==> now == {Small};
    assert created == {Small} ==> now == {Small, Medium};
    assert created == {Small, Medium} ==> now == ALL_SIZES;
  }

  /** The first attempt stores all thumbnails, and then `mark_ready` raises. */
  lemma MarkRaisesRun(w: World, labels: seq<Label>, id: Id) returns (next: World, more: seq<Label>)
    requires Execute(START, labels) == Some(w) && Driven(w, id, Queued, 0, {})
    ensures Execute(START, more) == Some(next) && Driven(next, id, Failing(1, ALL_SIZES), 1, {})
  {
    hide Execute;
    next, more := Step(w, labels, id, Well);
    assert Driven(next, id, Opening(1), 1, {});
    next, more := Step(next, more, id, Well);
    next, more := StoreRun(next, more, id, 1, {});
    next, more := StoreRun(next, more, id, 1, {Small});
    next, more := StoreRun(next, more, id, 1, {Small, Medium});
    next, more := Step(next, more, id, MarkRaises);
  }

  /** A failure that is not the last: the next attempt forgets what the last one held. */
  lemma RetryRun(w: World, labels: seq<Label>, id: Id, attempt: nat, held: set<Size>, leaked: set<Key>)
    returns (next: World, more: seq<Label>)
    requires Execute(START, labels) == Some(w) && Driven(w, id, Failing(attempt, held), attempt, leaked)
    requires 1 <= attempt < MAX_PROCESSING_ATTEMPTS
    ensures Execute(START, more) == Some(next)
    ensures Driven(next, id, Failing(attempt + 1, {}), attempt + 1, leaked + Thumbs(id, held))
  {
    hide Execute, Thumbs;
    next, more := Step(w, labels, id, Well);
    assert Driven(next, id, Sleeping(attempt, held), attempt, leaked);
    next, more := Step(next, more, id, Well);
    assert Driven(next, id, Opening(attempt + 1), attempt + 1, leaked + Thumbs(id, held));
    next, more := Step(next, more, id, Broken);
  }

  /** `mark_ready` raises in the first attempt and the file cannot be read in the other two: the image ends
      as FAILED, and its three thumbnails stay in the storage without an owner. */
  lemma {:induction false} RaisingMarkLeaks(id: Id, l: Id) returns (labels: seq<Label>)
    ensures Execute(START, labels).Some?
    ensures var w := Execute(START, labels).value;
            && AtRest(w) && id in w.images && w.images[id].status == Failed
            && w.leaked == Thumbs(id, ALL_SIZES) && w.leaked <= w.storage
            && w.storage != Referenced(w.images)
  {
    hide Execute, Driven, HandleStep;
    var w: World;
    w, labels := StartsDriven([], id, l);
    w, labels := MarkRaisesRun(w, labels, id);
    w, labels := RetryRun(w, labels, id, 1, ALL_SIZES, {});
    w, labels := RetryRun(w, labels, id, 2, {}, {} + Thumbs(id, ALL_SIZES));
    assert {} + Thumbs(id, ALL_SIZES) + Thumbs(id, {}) == Thumbs(id, ALL_SIZES);
    w, labels := LastFailure(w, labels, id, Thumbs(id, ALL_SIZES));
    assert Thumb(id, Small) in Thumbs(id, ALL_SIZES);
    StorageAtRest(labels);
  }

  lemma LastFailure(w: World, labels: seq<Label>, id: Id, leaked: set<Key>) returns (next: World, more: seq<Label>)
    requires Execute(START, labels) == Some(w)
    requires Driven(w, id, Failing(MAX_PROCESSING_ATTEMPTS, {}), MAX_PROCESSING_ATTEMPTS, leaked)
    ensures Execute(START, more) == Some(next)
    ensures AtRest(next) && id in next.images && next.images[id].status == Failed
    ensures next.leaked == leaked && next.leaked <= next.storage
  {
    hide Execute;
    next, more := Step(w, labels, id, Well);
    assert leaked + Thumbs(id, {}) == leaked;
    LeaksAreStored(more);
  }

  lemma LeaksAreStored(labels: seq<Label>)
    requires Execute(START, labels).Some?
    ensures Execute(START, labels).value.leaked <= Execute(START, labels).value.storage
  {
    ReachableInv(labels);
    hide Execute;
    var w := Execute(START, labels).value;
    forall k | k in w.leaked ensures k in w.storage {
      assert Good(w, k.image);
    }
  }
}
