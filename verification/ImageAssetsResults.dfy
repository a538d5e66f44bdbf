/** What the interleaved image machine guarantees, over every run. */
module ImageAssetsResults {
  import opened Images
  import opened ImageAssets

  /** No upload and no handler is part-way. */
  ghost predicate AtRest(w: World)
  {
    && (forall id :: id !in w.uploads)
    && (forall id :: id in w.handlers ==> w.handlers[id].Queued? || w.handlers[id].Done?)
  }

  /** Every key the repository has for some image. */
  function Referenced(images: map<Id, Image>): set<Key>
  {
    set id, k | id in images && k in KeysOf(images[id]) :: k
  }

  function Originals(ids: set<Id>): set<Key>
  {
    set id | id in ids :: Original(id)
  }

  /** A stored key belongs to a live image, to an abandoned upload, or leaked. */
  lemma {:induction false} KeyAtRest(w: World, k: Key)
    requires Inv(w) && AtRest(w)
    ensures k in w.storage <==> k in Referenced(w.images) || k in Originals(w.abandoned) || k in w.leaked
    ensures k in Originals(w.abandoned) || k in w.leaked ==> k !in Referenced(w.images)
  {
    var id := k.image;
    forall i ensures Placed(w, i) {
      assert Good(w, i);
    }
    assert Good(w, id);
    ReferencedHere(w, k);
  }

  lemma ReferencedHere(w: World, k: Key)
    requires forall id :: id in w.images ==> Placed(w, id)
    requires Placed(w, k.image)
    ensures k in Referenced(w.images) <==>
            k.image in w.images && (k.Original? || k.size in w.images[k.image].thumbs)
  {
    if k.image in w.images && (k.Original? || k.size in w.images[k.image].thumbs) {
      assert k in KeysOf(w.images[k.image]);
    }
  }

  /** Whenever nothing is under way, the storage holds exactly the keys of live images, plus what
      abandoned uploads and forgotten thumbnails left; so exactly the former when there are none. */
  lemma {:induction false} StorageAtRest(labels: seq<Label>)
    requires Execute(START, labels).Some? && AtRest(Execute(START, labels).value)
    ensures var w := Execute(START, labels).value;
            && w.storage == Referenced(w.images) + Originals(w.abandoned) + w.leaked
            && (w.storage == Referenced(w.images) <==> w.abandoned == {} && w.leaked == {})
  {
    ReachableInv(labels);
    var w := Execute(START, labels).value;
    hide Referenced, Inv, AtRest, Execute;
    forall k
      ensures k in w.storage <==> k in Referenced(w.images) || k in Originals(w.abandoned) || k in w.leaked
      ensures k in Originals(w.abandoned) || k in w.leaked ==> k !in Referenced(w.images)
    {
      KeyAtRest(w, k);
    }
    if w.abandoned != {} {
      var id :| id in w.abandoned;
      assert Original(id) in Originals(w.abandoned);
    }
    if w.leaked != {} {
      var k :| k in w.leaked;
    }
  }

  /** At every moment, and not only at rest, a live image has the files it refers to; only an upload
      that is being withdrawn deletes the file before the metadata. */
  lemma {:induction false} LiveImagesHaveTheirFiles(labels: seq<Label>, id: Id)
    requires Execute(START, labels).Some? && id in Execute(START, labels).value.images
    ensures var w := Execute(START, labels).value;
            KeysOf(w.images[id]) <= w.storage || (id in w.uploads && w.uploads[id].Withdrawn?)
  {
    ReachableInv(labels);
    hide Execute;
    var w := Execute(START, labels).value;
    assert Good(w, id);
  }

  // ---- Why something is left behind ----

  /** The world before step `i` of a run. */
  function WorldBefore(labels: seq<Label>, i: nat): World
    requires i <= |labels|
  {
    match Execute(START, labels[..i])
    case Some(w) => w
    case None => START
  }

  lemma BeforePrefix(labels: seq<Label>, i: nat)
    requires i < |labels|
    ensures WorldBefore(labels[..|labels| - 1], i) == WorldBefore(labels, i)
  {
    assert labels[..|labels| - 1][..i] == labels[..i];
  }

  /** The step builds an entity although its details are unacceptable or the listing holds ten images by now. */
  predicate Refuses(w: World, l: Label)
  {
    && l.BuildEntity? && l.id in w.uploads && w.uploads[l.id].Saved?
    && (!Acceptable(w.uploads[l.id].details) || Full(w.images, w.uploads[l.id].listing))
  }

  ghost predicate RefusedAt(labels: seq<Label>, i: nat, id: Id)
  {
    i < |labels| && labels[i].id == id && Refuses(WorldBefore(labels, i), labels[i])
  }

  lemma AbandonedStep(w: World, l: Label, id: Id)
    requires Enabled(w, l)
    ensures id in After(w, l).abandoned <==> id in w.abandoned || (l.id == id && Refuses(w, l))
  {
    hide LiveOf;
    if l.BuildEntity? {
      EntityIff(w.images, l.id, w.uploads[l.id].listing, w.uploads[l.id].details, l.createdAt);
    }
  }

  lemma RefusedSnoc(labels: seq<Label>, id: Id)
    requires labels != []
    ensures var n := |labels| - 1;
            (exists i :: RefusedAt(labels, i, id)) <==>
            (exists i :: RefusedAt(labels[..n], i, id)) || RefusedAt(labels, n, id)
  {
    var prefix, n := labels[..|labels| - 1], |labels| - 1;
    hide Refuses, WorldBefore;
    forall i: nat | i < n ensures RefusedAt(prefix, i, id) <==> RefusedAt(labels, i, id) {
      BeforePrefix(labels, i);
    }
    if i :| RefusedAt(labels, i, id) {
      assert i == n || RefusedAt(prefix, i, id);
    }
    if i :| RefusedAt(prefix, i, id) {
      assert RefusedAt(labels, i, id);
    }
  }

  /** The original of an upload is orphaned exactly if its entity is built with unacceptable details, or when
      its listing holds ten images, which the limit check at the start does not exclude. */
  lemma {:induction false} AbandonedIffRefused(labels: seq<Label>, id: Id)
    requires Execute(START, labels).Some?
    ensures id in Execute(START, labels).value.abandoned <==> exists i :: RefusedAt(labels, i, id)
  {
    if labels != [] {
      var n := |labels| - 1;
      hide After, Enabled, Refuses;
      AbandonedIffRefused(labels[..n], id);
      AbandonedStep(WorldBefore(labels, n), labels[n], id);
      RefusedSnoc(labels, id);
    }
  }

  /** The step makes the handler forget a thumbnail that is stored: at its last failure, or when it starts
      the next attempt. */
  predicate GivesUp(w: World, l: Label, id: Id, s: Size)
  {
    && l.Handle? && l.id == id && id in w.handlers && id in w.images && s in Held(w.handlers[id])
    && ((w.handlers[id].Failing? && w.handlers[id].attempt >= MAX_PROCESSING_ATTEMPTS)
        || (w.handlers[id].Sleeping? && Claimable(w.images[id], MAX_PROCESSING_ATTEMPTS)))
  }

  /** The step stores that thumbnail again. */
  predicate StoresAgain(w: World, l: Label, id: Id, s: Size)
  {
    && l.Handle? && l.id == id && l.luck.Well? && id in w.handlers && w.handlers[id].Generating?
    && s == FirstOf(ALL_SIZES - w.handlers[id].created)
  }

  ghost predicate StoredAfter(labels: seq<Label>, i: nat, id: Id, s: Size)
  {
    exists j :: i < j < |labels| && StoresAgain(WorldBefore(labels, j), labels[j], id, s)
  }

  ghost predicate LostAt(labels: seq<Label>, i: nat, id: Id, s: Size)
  {
    i < |labels| && GivesUp(WorldBefore(labels, i), labels[i], id, s) && !StoredAfter(labels, i, id, s)
  }

  lemma LeakStep(w: World, l: Label, id: Id, s: Size)
    requires Enabled(w, l)
    ensures Thumb(id, s) in After(w, l).leaked <==>
            GivesUp(w, l, id, s) || (Thumb(id, s) in w.leaked && !StoresAgain(w, l, id, s))
    ensures !(GivesUp(w, l, id, s) && StoresAgain(w, l, id, s))
  {
    hide LiveOf;
  }

  lemma LostSnoc(labels: seq<Label>, i: nat, id: Id, s: Size)
    requires i < |labels| - 1
    ensures var n := |labels| - 1;
            LostAt(labels, i, id, s) <==>
            LostAt(labels[..n], i, id, s) && !StoresAgain(WorldBefore(labels, n), labels[n], id, s)
  {
    var n := |labels| - 1;
    hide GivesUp, StoresAgain, WorldBefore;
    BeforePrefix(labels, i);
    forall j | 0 <= j < n ensures WorldBefore(labels[..n], j) == WorldBefore(labels, j) {
      BeforePrefix(labels, j);
    }
    if StoredAfter(labels, i, id, s) {
      var j :| i < j < |labels| && StoresAgain(WorldBefore(labels, j), labels[j], id, s);
      assert j < n ==> labels[..n][j] == labels[j];
    }
    if StoredAfter(labels[..n], i, id, s) {
      var j :| i < j < n && StoresAgain(WorldBefore(labels[..n], j), labels[..n][j], id, s);
      assert StoresAgain(WorldBefore(labels, j), labels[j], id, s);
    }
  }

  lemma LostInRun(labels: seq<Label>, i: nat, id: Id, s: Size)
    requires LostAt(labels, i, id, s)
    ensures i < |labels|
  {
    hide GivesUp, StoredAfter;
  }

  lemma LostSomewhere(labels: seq<Label>, id: Id, s: Size)
    requires labels != []
    ensures var n := |labels| - 1;
            (exists i :: LostAt(labels, i, id, s)) <==>
            GivesUp(WorldBefore(labels, n), labels[n], id, s) ||
            ((exists i :: LostAt(labels[..n], i, id, s)) && !StoresAgain(WorldBefore(labels, n), labels[n], id, s))
  {
    var n := |labels| - 1;
    assert LostAt(labels, n, id, s) <==> GivesUp(WorldBefore(labels, n), labels[n], id, s);
    hide GivesUp, StoresAgain, WorldBefore, LostAt;
    if i: nat :| LostAt(labels, i, id, s) {
      LostInRun(labels, i, id, s);
      if i < n {
        LostSnoc(labels, i, id, s);
      }
    }
    if i: nat :| LostAt(labels[..n], i, id, s) {
      LostSnoc(labels, i, id, s);
    }
  }

  /** A thumbnail is left without an owner exactly if its handler gave it up and never stored it again. */
  lemma {:induction false} LeakedIffGivenUp(labels: seq<Label>, id: Id, s: Size)
    requires Execute(START, labels).Some?
    ensures Thumb(id, s) in Execute(START, labels).value.leaked <==> exists i :: LostAt(labels, i, id, s)
  {
    if labels != [] {
      var n := |labels| - 1;
      hide After, Enabled, GivesUp, StoresAgain, LostAt;
      LeakedIffGivenUp(labels[..n], id, s);
      LeakStep(WorldBefore(labels, n), labels[n], id, s);
      LostSomewhere(labels, id, s);
    }
  }

  lemma {:induction false} LeaksAreThumbnails(labels: seq<Label>, k: Key)
    requires Execute(START, labels).Some? && k in Execute(START, labels).value.leaked
    ensures k.Thumb?
  {
    ReachableInv(labels);
    hide Execute;
    assert Good(Execute(START, labels).value, k.image);
  }

  lemma NothingAbandonedIff(labels: seq<Label>)
    requires Execute(START, labels).Some?
    ensures Execute(START, labels).value.abandoned == {} <==> forall i, id :: !RefusedAt(labels, i, id)
  {
    var w := Execute(START, labels).value;
    hide Execute, RefusedAt;
    forall i, id ensures RefusedAt(labels, i, id) ==> id in w.abandoned {
      AbandonedIffRefused(labels, id);
    }
    if w.abandoned != {} {
      var id :| id in w.abandoned;
      AbandonedIffRefused(labels, id);
    }
  }

  lemma NothingLeakedIff(labels: seq<Label>)
    requires Execute(START, labels).Some?
    ensures Execute(START, labels).value.leaked == {} <==> forall i, id, s :: !LostAt(labels, i, id, s)
  {
    var w := Execute(START, labels).value;
    hide Execute, LostAt;
    forall i, id, s ensures LostAt(labels, i, id, s) ==> Thumb(id, s) in w.leaked {
      LeakedIffGivenUp(labels, id, s);
    }
    if w.leaked != {} {
      var k :| k in w.leaked;
      LeaksAreThumbnails(labels, k);
      assert k == Thumb(k.image, k.size);
      LeakedIffGivenUp(labels, k.image, k.size);
    }
  }

  /** The exact condition for a storage that matches the metadata: no entity was refused after its file was
      saved, and no handler gave up a thumbnail without storing it again. */
  lemma {:induction false} StorageMatchesIff(labels: seq<Label>)
    requires Execute(START, labels).Some? && AtRest(Execute(START, labels).value)
    ensures Execute(START, labels).value.storage == Referenced(Execute(START, labels).value.images) <==>
            (forall i, id :: !RefusedAt(labels, i, id)) && (forall i, id, s :: !LostAt(labels, i, id, s))
  {
    hide *;
    StorageAtRest(labels);
    NothingAbandonedIff(labels);
    NothingLeakedIff(labels);
  }

  // ---- Runs that leave nothing behind ----

  predicate RaisesAtMark(l: Label)
  {
    l.Handle? && l.luck.MarkRaises?
  }

  ghost predicate NothingHeld(w: World)
  {
    && w.leaked == {}
    && (forall id :: id in w.handlers && (w.handlers[id].Failing? || w.handlers[id].Sleeping?) ==>
          w.handlers[id].held == {})
  }

  lemma CleanStep(w: World, l: Label)
    requires Enabled(w, l) && !RaisesAtMark(l) && NothingHeld(w)
    ensures NothingHeld(After(w, l))
  {
    hide LiveOf;
  }

  lemma {:induction false} CleanRunHoldsNothing(labels: seq<Label>)
    requires Execute(START, labels).Some? && forall i :: 0 <= i < |labels| ==> !RaisesAtMark(labels[i])
    ensures NothingHeld(Execute(START, labels).value)
  {
    if labels == [] {
      StartHoldsNothing();
    } else {
      hide NothingHeld, After, RaisesAtMark;
      CleanRunHoldsNothing(labels[..|labels| - 1]);
      CleanStep(Execute(START, labels[..|labels| - 1]).value, labels[|labels| - 1]);
    }
  }

  lemma StartHoldsNothing()
    ensures NothingHeld(START)
  {
  }

  /** So the storage matches the metadata after every run in which no entity is refused and no `mark_ready`
      raises, whatever interleaved with what. */
  lemma {:induction false} StorageMatchesMetadata(labels: seq<Label>)
    requires Execute(START, labels).Some? && AtRest(Execute(START, labels).value)
    requires forall i, id :: !RefusedAt(labels, i, id)
    requires forall i :: 0 <= i < |labels| ==> !RaisesAtMark(labels[i])
    ensures Execute(START, labels).value.storage == Referenced(Execute(START, labels).value.images)
  {
    StorageAtRest(labels);
    CleanRunHoldsNothing(labels);
    NothingAbandonedIff(labels);
    hide Execute, Referenced, AtRest, RefusedAt;
  }

  // ---- The limit of ten images ----

  /** The images of a listing that are not being withdrawn. */
  function Kept(w: World, l: Id): set<Id>
  {
    set id | id in w.images && w.images[id].listing == l &&
             !(id in w.uploads && (w.uploads[id].Withdrawing? || w.uploads[id].Withdrawn?))
  }

  predicate IsKept(w: World, l: Id, id: Id)
  {
    id in w.images && w.images[id].listing == l &&
    !(id in w.uploads && (w.uploads[id].Withdrawing? || w.uploads[id].Withdrawn?))
  }

  lemma HandledIsKept(w: World, l: Label, listing: Id)
    requires Enabled(w, l) && l.Handle? && IsKept(After(w, l), listing, l.id)
    ensures IsKept(w, listing, l.id)
  {
  }

  lemma UploadedIsKept(w: World, l: Label, listing: Id)
    requires Enabled(w, l) && !l.Handle? && Placed(w, l.id) && IsKept(After(w, l), listing, l.id)
    ensures IsKept(w, listing, l.id) || !Full(w.images, listing)
  {
    hide LiveOf, Full;
  }

  lemma KeptStep(w: World, l: Label, listing: Id)
    requires Enabled(w, l) && Good(w, l.id)
    ensures Kept(After(w, l), listing) <= Kept(w, listing) ||
            (!Full(w.images, listing) && Kept(After(w, l), listing) <= LiveOf(w.images, listing) + {l.id})
  {
    forall x | x in Kept(After(w, l), listing) && x != l.id ensures x in Kept(w, listing) {
      hide After, Good, Enabled;
      if l.Handle? {
        HandleKeepsOthers(w, l, x);
      } else {
        UploadKeepsOthers(w, l, x);
      }
    }
    hide After, Enabled, Full;
    if l.id in Kept(After(w, l), listing) {
      assert IsKept(After(w, l), listing, l.id);
      if l.Handle? {
        HandledIsKept(w, l, listing);
      } else {
        UploadedIsKept(w, l, listing);
      }
    }
  }

  /** However uploads race: a listing never has more than ten images, except for a moment one that its own
      upload is about to withdraw. */
  lemma {:induction false} NeverMoreThanTen(labels: seq<Label>, listing: Id)
    requires Execute(START, labels).Some?
    ensures |Kept(Execute(START, labels).value, listing)| <= 10
  {
    if labels == [] {
      assert Kept(START, listing) == {};
    } else {
      var prefix, l := labels[..|labels| - 1], labels[|labels| - 1];
      NeverMoreThanTen(prefix, listing);
      ReachableInv(prefix);
      var w := Execute(START, prefix).value;
      assert Good(w, l.id);
      KeptStep(w, l, listing);
      hide Kept, After, Good, LiveOf;
      if Kept(After(w, l), listing) <= Kept(w, listing) {
        SubsetSize(Kept(After(w, l), listing), Kept(w, listing));
      } else {
        SubsetSize(Kept(After(w, l), listing), LiveOf(w.images, listing) + {l.id});
      }
    }
  }

  // ---- How a handler ends ----

  /** A handler that is done leaves a live image ready with all thumbnails and no error, or failed after
      the last attempt; and no image is ever attempted more often than allowed. */
  lemma {:induction false} HandlerEndsWell(labels: seq<Label>, id: Id)
    requires Execute(START, labels).Some? && id in Execute(START, labels).value.images
    ensures var w := Execute(START, labels).value;
            && w.images[id].attempts <= 3
            && (id in w.handlers && w.handlers[id].Done? ==>
                  || (w.images[id].status == Ready && w.images[id].thumbs == {Small, Medium, Large}
                      && !w.images[id].error && 1 <= w.images[id].attempts)
                  || (w.images[id].status == Failed && w.images[id].thumbs == {} && w.images[id].error
                      && w.images[id].attempts == 3))
            && (w.images[id].status == Ready ==>
                  w.images[id].thumbs == ALL_SIZES && id in w.handlers && w.handlers[id].Done?)
  {
    ReachableInv(labels);
    hide Execute;
    var w := Execute(START, labels).value;
    assert Good(w, id);
  }

  /** An upper bound for the steps that a handler still takes. */
  function Work(pc: Pc): int
  {
    match pc
    case Queued => 60
    case Opening(attempt) => (MAX_PROCESSING_ATTEMPTS - attempt) * 20 + 19
    case Generating(attempt, created) => (MAX_PROCESSING_ATTEMPTS - attempt) * 20 + 18 - |created|
    case Generated(attempt) => (MAX_PROCESSING_ATTEMPTS - attempt) * 20 + 15
    case Undoing(attempt, left, _) => (MAX_PROCESSING_ATTEMPTS - attempt) * 20 + 11 + |left|
    case Missing(attempt) => (MAX_PROCESSING_ATTEMPTS - attempt) * 20 + 9
    case Failing(attempt, _) => (MAX_PROCESSING_ATTEMPTS - attempt) * 20 + 8
    case Sleeping(attempt, _) => (MAX_PROCESSING_ATTEMPTS - attempt) * 20 + 7
    case Cleaning(original, held) => |held| + (if original then 2 else 1)
    case Done => 0
  }

  function StepsOf(labels: seq<Label>, id: Id): nat
  {
    if labels == [] then 0
    else
      StepsOf(labels[..|labels| - 1], id) +
      (if labels[|labels| - 1].Handle? && labels[|labels| - 1].id == id then 1 else 0)
  }

  lemma SizesAreFew(sizes: set<Size>)
    ensures |sizes| <= 3
    ensures sizes != ALL_SIZES ==> |sizes| <= 2
  {
    assert sizes <= ALL_SIZES by {
      forall s ensures s in ALL_SIZES {
        match s
        case Small =>
        case Medium =>
        case Large =>
      }
    }
    SubsetSize(sizes, ALL_SIZES);
  }

  lemma {:induction false} SubsetSize<T>(a: set<T>, b: set<T>)
    requires a <= b
    ensures |a| <= |b| && (a != b ==> |a| < |b|)
  {
    assert b == a + (b - a);
    assert a != b ==> b - a != {};
  }

  lemma ClaimWorks(w: World, l: Label)
    requires Enabled(w, l) && l.Handle? && Good(w, l.id)
    requires var pc := w.handlers[l.id]; pc.Queued? || pc.Opening? || pc.Missing? || pc.Sleeping?
    ensures 0 <= Work(After(w, l).handlers[l.id]) < Work(w.handlers[l.id])
  {
    hide LiveOf, Accounted, Placed;
    SizesAreFew(Held(w.handlers[l.id]));
    assert |Held(Opening(1))| == 0;
  }

  lemma GenerateWorks(w: World, l: Label)
    requires Enabled(w, l) && l.Handle? && Good(w, l.id)
    requires w.handlers[l.id].Generating?
    ensures 0 <= Work(After(w, l).handlers[l.id]) < Work(w.handlers[l.id])
  {
    hide LiveOf, Accounted, Placed, FirstOf;
    var size := FirstOf(ALL_SIZES - w.handlers[l.id].created);
    FirstIsMember(ALL_SIZES - w.handlers[l.id].created);
    SizesAreFew(w.handlers[l.id].created);
    SizesAreFew(w.handlers[l.id].created + {size});
  }

  lemma UndoWorks(w: World, l: Label)
    requires Enabled(w, l) && l.Handle? && Good(w, l.id)
    requires w.handlers[l.id].Undoing?
    ensures 0 <= Work(After(w, l).handlers[l.id]) < Work(w.handlers[l.id])
  {
    hide LiveOf, Accounted, Placed, FirstOf;
    FirstIsMember(w.handlers[l.id].left);
    SizesAreFew(w.handlers[l.id].left);
  }

  lemma CleanWorks(w: World, l: Label)
    requires Enabled(w, l) && l.Handle? && Good(w, l.id)
    requires w.handlers[l.id].Cleaning?
    ensures 0 <= Work(After(w, l).handlers[l.id]) < Work(w.handlers[l.id])
  {
    hide LiveOf, Accounted, Placed, FirstOf;
    FirstIsMember(w.handlers[l.id].held);
    SizesAreFew(w.handlers[l.id].held);
  }

  lemma MarkWorks(w: World, l: Label)
    requires Enabled(w, l) && l.Handle? && Good(w, l.id)
    requires w.handlers[l.id].Generated? || w.handlers[l.id].Failing?
    ensures 0 <= Work(After(w, l).handlers[l.id]) < Work(w.handlers[l.id])
  {
    hide LiveOf, Accounted, Placed;
    SizesAreFew(ALL_SIZES);
    SizesAreFew(Held(w.handlers[l.id]));
  }

  lemma HandlingWorks(w: World, l: Label)
    requires Enabled(w, l) && l.Handle? && Good(w, l.id)
    ensures 0 <= Work(After(w, l).handlers[l.id]) < Work(w.handlers[l.id])
  {
    hide Good, Work;
    match w.handlers[l.id]
    case Generating(_, _) => GenerateWorks(w, l);
    case Undoing(_, _, _) => UndoWorks(w, l);
    case Cleaning(_, _) => CleanWorks(w, l);
    case Generated(_) => MarkWorks(w, l);
    case Failing(_, _) => MarkWorks(w, l);
    case _ => ClaimWorks(w, l);
  }

  lemma OthersDoNotWork(w: World, l: Label, id: Id)
    requires Enabled(w, l) && !(l.Handle? && l.id == id) && id in After(w, l).handlers && Good(w, l.id)
    ensures if id in w.handlers then After(w, l).handlers[id] == w.handlers[id]
            else Work(After(w, l).handlers[id]) == 60
    ensures id !in w.handlers ==> l.id == id && l.Schedule?
  {
  }

  lemma HandlersStay(w: World, l: Label, id: Id)
    requires Enabled(w, l) && id !in After(w, l).handlers
    ensures id !in w.handlers && !(l.Handle? && l.id == id)
  {
  }

  lemma {:induction false} NoStepsBefore(labels: seq<Label>, id: Id)
    requires Execute(START, labels).Some? && id !in Execute(START, labels).value.handlers
    ensures StepsOf(labels, id) == 0
  {
    if labels != [] {
      hide After, Enabled;
      HandlersStay(Execute(START, labels[..|labels| - 1]).value, labels[|labels| - 1], id);
      NoStepsBefore(labels[..|labels| - 1], id);
    }
  }

  /** `handle` terminates: within sixty of its own steps it is done, whatever happens in between. */
  lemma {:induction false} HandlerTerminates(labels: seq<Label>, id: Id)
    requires Execute(START, labels).Some? && id in Execute(START, labels).value.handlers
    ensures StepsOf(labels, id) + Work(Execute(START, labels).value.handlers[id]) <= 60
    ensures StepsOf(labels, id) >= 60 ==> Execute(START, labels).value.handlers[id].Done?
  {
    if labels != [] {
      var prefix, last := labels[..|labels| - 1], labels[|labels| - 1];
      var before := Execute(START, prefix).value;
      ReachableInv(prefix);
      assert Good(before, last.id) && Good(before, id);
      if last.Handle? && last.id == id {
        HandlerTerminates(prefix, id);
        hide After, Good;
        HandlingWorks(before, last);
      } else {
        OthersDoNotWork(before, last, id);
        if id in before.handlers {
          HandlerTerminates(prefix, id);
        } else {
          NoStepsBefore(prefix, id);
        }
      }
      ReachableInv(labels);
      assert Good(Execute(START, labels).value, id);
      WorkIsPositive(Execute(START, labels).value, id);
    }
  }

  lemma WorkIsPositive(w: World, id: Id)
    requires Good(w, id) && id in w.handlers
    ensures Work(w.handlers[id]) > 0 || w.handlers[id].Done?
  {
    SizesAreFew(Held(w.handlers[id]));
  }
}
