/** Uploads, the image handler and deletions, interleaved over one storage.

    A label is one atomic step: a storage operation or a repository operation. Every image has one
    `ImageUploaded` event, and `delete_image` is one step.
  */
module ImageAssets {
  import opened Common
  import opened Images

  const MAX_PROCESSING_ATTEMPTS := 3

  /** Where `upload_image` is: past the limit check, the file saved, the entity built, the metadata stored.
      `Refused` and `Withdrawing` are the failure paths of a raising `store` that left nothing, or that
      raised after the image was already in the repository. */
  datatype Upload =
    | Checked(listing: Id, details: Details)
    | Saved(listing: Id, details: Details)
    | Built(image: Image)
    | Stored
    | Refused
    | Withdrawing
    | Withdrawn

  /** Where `handle` is; `held` are the `generated_keys` of an attempt that raised afterwards. */
  datatype Pc =
    | Queued
    | Opening(attempt: nat)
    | Missing(attempt: nat)
    | Generating(attempt: nat, created: set<Size>)
    | Undoing(attempt: nat, left: set<Size>, absent: bool)
    | Generated(attempt: nat)
    | Failing(attempt: nat, held: set<Size>)
    | Sleeping(attempt: nat, held: set<Size>)
    | Cleaning(original: bool, held: set<Size>)
    | Done

  /** `abandoned` and `leaked` only record: uploads whose entity failed its own checks (details it refuses,
      or an eleventh position), and thumbnails whose handler no longer knows of them. */
  datatype World = World(
    images: map<Id, Image>,
    storage: set<Key>,
    uploads: map<Id, Upload>,
    handlers: map<Id, Pc>,
    used: set<Id>,
    abandoned: set<Id>,
    leaked: set<Key>)

  const START := World(map[], {}, map[], map[], {}, {}, {})

  datatype StoreOutcome = Accepted | RaisedBefore | RaisedAfter

  /** What happens to the handler's next operation; `MarkRaises` is a raising `mark_ready`. */
  datatype Luck = Well | Broken | Absent | MarkRaises

  datatype Label =
    | CheckLimit(id: Id, listing: Id, details: Details)
    | SaveOriginal(id: Id)
    | BuildEntity(id: Id, createdAt: int)
    | StoreMetadata(id: Id, outcome: StoreOutcome)
    | UndoUpload(id: Id)
    | Schedule(id: Id, saved: bool)
    | Delete(id: Id)
    | Handle(id: Id, luck: Luck)

  /** The images a listing has in the repository. */
  function LiveOf(images: map<Id, Image>, l: Id): set<Id>
  {
    set id | id in images && images[id].listing == l
  }

  predicate Full(images: map<Id, Image>, l: Id)
  {
    |LiveOf(images, l)| >= MAX_IMAGES
  }

  /** The entity an upload builds: its position is one more than the images its listing has now. */
  function Entity(images: map<Id, Image>, id: Id, l: Id, details: Details, createdAt: int): Option<Image>
  {
    Construct(Image(id, l, details, |LiveOf(images, l)| + 1, createdAt, {}, Pending, false, 0))
  }

  /** It is refused exactly for unacceptable details or a full listing. */
  lemma EntityIff(images: map<Id, Image>, id: Id, l: Id, details: Details, createdAt: int)
    ensures Entity(images, id, l, details, createdAt).Some? <==> Acceptable(details) && !Full(images, l)
    ensures var e := Entity(images, id, l, details, createdAt);
            e.Some? ==> NewImage(id, e.value) && e.value.listing == l
  {
    hide LiveOf;
  }

  predicate NewImage(id: Id, i: Image)
  {
    i.id == id && i.status == Pending && i.thumbs == {} && !i.error && i.attempts == 0
  }

  /** Thumbnails come in the order small, medium, large. */
  function FirstOf(sizes: set<Size>): Size
  {
    if Small in sizes then Small else if Medium in sizes then Medium else Large
  }

  /** The first thumbnail that is stored is the small one, then the medium one, then the large one. */
  lemma StoredBySize(w: World, id: Id)
    requires id in w.handlers && w.handlers[id].Generating?
    ensures var next := After(w, Handle(id, Well)).storage;
            && (w.handlers[id].created == {} ==> next == w.storage + {Thumb(id, Small)})
            && (w.handlers[id].created == {Small} ==> next == w.storage + {Thumb(id, Medium)})
            && (w.handlers[id].created == {Small, Medium} ==> next == w.storage + {Thumb(id, Large)})
  {
  }

  function Thumbs(id: Id, sizes: set<Size>): set<Key>
  {
    set s | s in sizes :: Thumb(id, s)
  }

  /** The keys that the repository has for an image. */
  function KeysOf(i: Image): set<Key>
  {
    {Original(i.id)} + Thumbs(i.id, i.thumbs)
  }

  // ---- Steps ----

  /** A store into a full listing raises: no position is free, and compaction stops at ten. */
  predicate Enabled(w: World, l: Label)
  {
    match l
    case CheckLimit(id, _, _) => id !in w.used
    case SaveOriginal(id) => id in w.uploads && w.uploads[id].Checked?
    case BuildEntity(id, _) => id in w.uploads && w.uploads[id].Saved?
    case StoreMetadata(id, outcome) =>
      id in w.uploads && w.uploads[id].Built? && (outcome.Accepted? ==> !Full(w.images, w.uploads[id].image.listing))
    case UndoUpload(id) =>
      id in w.uploads && (w.uploads[id].Refused? || w.uploads[id].Withdrawing? || w.uploads[id].Withdrawn?)
    case Schedule(id, _) => id in w.uploads && w.uploads[id].Stored?
    case Delete(_) => true
    case Handle(id, _) => id in w.handlers && !w.handlers[id].Done?
  }

  /** At ten images nothing starts; the id is spent all the same. */
  function CheckStep(w: World, id: Id, l: Id, details: Details): World
  {
    var begun := w.(used := w.used + {id});
    if Full(w.images, l) then begun else begun.(uploads := w.uploads[id := Checked(l, details)])
  }

  /** An entity that fails its own checks leaves the file that was saved for it. */
  function BuildStep(w: World, id: Id, createdAt: int): World
    requires id in w.uploads && w.uploads[id].Saved?
  {
    match Entity(w.images, id, w.uploads[id].listing, w.uploads[id].details, createdAt)
    case None => w.(uploads := w.uploads - {id}, abandoned := w.abandoned + {id})
    case Some(image) => w.(uploads := w.uploads[id := Built(image)])
  }

  function StoreStep(w: World, id: Id, outcome: StoreOutcome): World
    requires id in w.uploads && w.uploads[id].Built?
  {
    var image := w.uploads[id].image;
    match outcome
    case Accepted => w.(images := w.images[id := image], uploads := w.uploads[id := Stored])
    case RaisedBefore => w.(uploads := w.uploads[id := Refused])
    case RaisedAfter => w.(images := w.images[id := image], uploads := w.uploads[id := Withdrawing])
  }

  function UndoStep(w: World, id: Id): World
    requires id in w.uploads && (w.uploads[id].Refused? || w.uploads[id].Withdrawing? || w.uploads[id].Withdrawn?)
  {
    match w.uploads[id]
    case Refused => w.(storage := w.storage - {Original(id)}, uploads := w.uploads - {id})
    case Withdrawing => w.(storage := w.storage - {Original(id)}, uploads := w.uploads[id := Withdrawn])
    case Withdrawn => w.(images := w.images - {id}, uploads := w.uploads - {id})
  }

  function ScheduleStep(w: World, id: Id, saved: bool): World
  {
    if saved then w.(uploads := w.uploads - {id}, handlers := w.handlers[id := Queued])
    else if id in w.images then w.(uploads := w.uploads - {id}, images := w.images[id := MarkedFailed(w.images[id])])
    else w.(uploads := w.uploads - {id})
  }

  function DeleteStep(w: World, id: Id): World
  {
    if id in w.images then w.(images := w.images - {id}, storage := w.storage - KeysOf(w.images[id])) else w
  }

  function At(w: World, id: Id, pc: Pc): World
  {
    w.(handlers := w.handlers[id := pc])
  }

  function HandleStep(w: World, id: Id, luck: Luck): World
    requires id in w.handlers && !w.handlers[id].Done?
  {
    match w.handlers[id]
    case Queued =>
      if id in w.images && Claimable(w.images[id], MAX_PROCESSING_ATTEMPTS) then
        var claimed := Claimed(w.images[id]);
        At(w.(images := w.images[id := claimed]), id, Opening(claimed.attempts))
      else At(w, id, Done)
    case Opening(attempt) =>
      if Original(id) !in w.storage then At(w, id, Missing(attempt))
      else if luck.Well? then At(w, id, Generating(attempt, {}))
      else At(w, id, Failing(attempt, {}))
    case Missing(attempt) => At(w, id, if id in w.images then Failing(attempt, {}) else Done)
    case Generating(attempt, created) =>
      if luck.Well? then
        var size := FirstOf(ALL_SIZES - created);
        var now := created + {size};
        At(w.(storage := w.storage + {Thumb(id, size)}, leaked := w.leaked - {Thumb(id, size)}), id,
           if now == ALL_SIZES then Generated(attempt) else Generating(attempt, now))
      else At(w, id, Undoing(attempt, created, luck.Absent?))
    case Undoing(attempt, left, absent) =>
      if left == {} then At(w, id, if absent then Missing(attempt) else Failing(attempt, {}))
      else
        var size := FirstOf(left);
        At(w.(storage := w.storage - {Thumb(id, size)}), id, Undoing(attempt, left - {size}, absent))
    case Generated(attempt) =>
      if luck.MarkRaises? then At(w, id, Failing(attempt, ALL_SIZES))
      else if id in w.images then At(w.(images := w.images[id := MarkedReady(w.images[id], ALL_SIZES)]), id, Done)
      else At(w, id, Cleaning(true, ALL_SIZES))
    case Failing(attempt, held) =>
      if id !in w.images then At(w, id, Cleaning(true, held))
      else
        var failed := w.(images := w.images[id := MarkedFailed(w.images[id])]);
        if attempt >= MAX_PROCESSING_ATTEMPTS then At(failed.(leaked := w.leaked + Thumbs(id, held)), id, Done)
        else At(failed, id, Sleeping(attempt, held))
    case Sleeping(attempt, held) =>
      if id in w.images && Claimable(w.images[id], MAX_PROCESSING_ATTEMPTS) then
        var claimed := Claimed(w.images[id]);
        At(w.(images := w.images[id := claimed], leaked := w.leaked + Thumbs(id, held)), id, Opening(claimed.attempts))
      else At(w, id, Cleaning(true, held))
    case Cleaning(original, held) =>
      if original then At(w.(storage := w.storage - {Original(id)}), id, Cleaning(false, held))
      else if held == {} then At(w, id, Done)
      else
        var size := FirstOf(held);
        At(w.(storage := w.storage - {Thumb(id, size)}), id, Cleaning(false, held - {size}))
  }

  function After(w: World, l: Label): World
    requires Enabled(w, l)
  {
    match l
    case CheckLimit(id, listing, details) => CheckStep(w, id, listing, details)
    case SaveOriginal(id) =>
      w.(storage := w.storage + {Original(id)},
         uploads := w.uploads[id := Saved(w.uploads[id].listing, w.uploads[id].details)])
    case BuildEntity(id, createdAt) => BuildStep(w, id, createdAt)
    case StoreMetadata(id, outcome) => StoreStep(w, id, outcome)
    case UndoUpload(id) => UndoStep(w, id)
    case Schedule(id, saved) => ScheduleStep(w, id, saved)
    case Delete(id) => DeleteStep(w, id)
    case Handle(id, luck) => HandleStep(w, id, luck)
  }

  /** The world after a schedule, or `None` if it asks for a step that cannot happen then. */
  function Execute(w: World, labels: seq<Label>): Option<World>
  {
    if labels == [] then Some(w)
    else
      var before, l := Execute(w, labels[..|labels| - 1]), labels[|labels| - 1];
      if before.Some? && Enabled(before.value, l) then Some(After(before.value, l)) else None
  }

  // ---- Who accounts for a key ----

  function Held(pc: Pc): set<Size>
  {
    match pc
    case Generating(_, created) => created
    case Undoing(_, left, _) => left
    case Generated(_) => ALL_SIZES
    case Failing(_, held) => held
    case Sleeping(_, held) => held
    case Cleaning(_, held) => held
    case _ => {}
  }

  function HeldBy(w: World, id: Id): set<Size>
  {
    if id in w.handlers then Held(w.handlers[id]) else {}
  }

  function Recorded(w: World, id: Id): set<Size>
  {
    if id in w.images then w.images[id].thumbs else {}
  }

  predicate HasOriginal(w: World, id: Id)
  {
    if id in w.uploads then
      match w.uploads[id]
      case Checked(_, _) => false
      case Saved(_, _) => true
      case Built(_) => true
      case Refused => true
      case Stored => id in w.images
      case Withdrawing => id in w.images
      case Withdrawn => false
    else id in w.images || id in w.abandoned
  }

  ghost predicate Accounted(w: World, id: Id)
  {
    && (Original(id) in w.storage <==> HasOriginal(w, id))
    && (forall s :: Thumb(id, s) in w.storage <==>
          s in HeldBy(w, id) || s in Recorded(w, id) || Thumb(id, s) in w.leaked)
    && (forall s :: Thumb(id, s) in w.leaked ==> s !in HeldBy(w, id) && s !in Recorded(w, id))
    && Original(id) !in w.leaked
  }

  /** Ids are fresh, and every id is in one phase of its life. */
  ghost predicate Placed(w: World, id: Id)
  {
    && (id in w.images ==> w.images[id].id == id)
    && (id in w.images || id in w.uploads || id in w.handlers || id in w.abandoned ==> id in w.used)
    && (id !in w.used ==> forall s :: Thumb(id, s) !in w.leaked)
    && (id in w.uploads ==> id !in w.handlers && id !in w.abandoned)
    && (id in w.uploads && !w.uploads[id].Stored? && !w.uploads[id].Withdrawing? && !w.uploads[id].Withdrawn? ==>
          id !in w.images)
    && (id in w.uploads && w.uploads[id].Built? ==> NewImage(id, w.uploads[id].image))
    && (id in w.abandoned ==> id !in w.images && id !in w.handlers)
    && (id in w.images && id !in w.handlers ==>
          && w.images[id].attempts == 0 && w.images[id].thumbs == {}
          && w.images[id].status == (if id in w.uploads then Pending else Failed))
  }

  predicate Attempting(pc: Pc)
  {
    pc.Opening? || pc.Missing? || pc.Generating? || pc.Undoing? || pc.Generated? || pc.Failing?
  }

  /** How `handle` may leave a live image. */
  predicate Finished(i: Image)
  {
    || (i.status == Ready && i.thumbs == ALL_SIZES && !i.error && 1 <= i.attempts <= MAX_PROCESSING_ATTEMPTS)
    || (i.status == Failed && i.thumbs == {} && i.error && i.attempts == MAX_PROCESSING_ATTEMPTS)
  }

  ghost predicate Consistent(w: World, id: Id)
  {
    id in w.handlers ==>
      var pc := w.handlers[id];
      && (pc.Queued? && id in w.images ==>
            w.images[id].status == Pending && w.images[id].attempts == 0 && w.images[id].thumbs == {})
      && (Attempting(pc) ==> 1 <= pc.attempt <= MAX_PROCESSING_ATTEMPTS)
      && (Attempting(pc) && id in w.images ==>
            w.images[id].status == Processing && w.images[id].attempts == pc.attempt && w.images[id].thumbs == {})
      && (pc.Generating? ==> pc.created != ALL_SIZES)
      && (pc.Sleeping? ==> 1 <= pc.attempt < MAX_PROCESSING_ATTEMPTS)
      && (pc.Sleeping? && id in w.images ==>
            w.images[id].status == Failed && w.images[id].attempts == pc.attempt && w.images[id].thumbs == {})
      && (pc.Cleaning? ==> id !in w.images)
      && (pc.Done? && id in w.images ==> Finished(w.images[id]))
  }

  ghost predicate Good(w: World, id: Id)
  {
    Accounted(w, id) && Placed(w, id) && Consistent(w, id)
  }

  ghost predicate Inv(w: World)
  {
    forall id :: Good(w, id)
  }

  // ---- Every step keeps the invariant ----

  /** Nothing about `id` differs between the two worlds. */
  ghost predicate Same(v: World, w: World, id: Id)
  {
    && (id in v.images <==> id in w.images) && (id in v.images ==> v.images[id] == w.images[id])
    && (id in v.uploads <==> id in w.uploads) && (id in v.uploads ==> v.uploads[id] == w.uploads[id])
    && (id in v.handlers <==> id in w.handlers) && (id in v.handlers ==> v.handlers[id] == w.handlers[id])
    && (id in v.used <==> id in w.used) && (id in v.abandoned <==> id in w.abandoned)
    && (Original(id) in v.storage <==> Original(id) in w.storage)
    && (forall s :: Thumb(id, s) in v.storage <==> Thumb(id, s) in w.storage)
    && (Original(id) in v.leaked <==> Original(id) in w.leaked)
    && (forall s :: Thumb(id, s) in v.leaked <==> Thumb(id, s) in w.leaked)
  }

  lemma SameIsGood(v: World, w: World, id: Id)
    requires Same(v, w, id) && Good(v, id)
    ensures Good(w, id)
  {
  }

  lemma UploadKeepsOthers(w: World, l: Label, id: Id)
    requires Enabled(w, l) && !l.Handle? && id != l.id && Good(w, l.id)
    ensures Same(w, After(w, l), id)
  {
  }

  lemma ClaimKeepsOthers(w: World, l: Label, id: Id)
    requires Enabled(w, l) && l.Handle? && id != l.id
    requires var pc := w.handlers[l.id]; pc.Queued? || pc.Opening? || pc.Missing? || pc.Failing? || pc.Sleeping?
    ensures Same(w, After(w, l), id)
  {
    hide Claimable, Claimed, MarkedFailed;
  }

  lemma RemovalKeepsOthers(w: World, l: Label, id: Id)
    requires Enabled(w, l) && l.Handle? && id != l.id
    requires var pc := w.handlers[l.id]; pc.Undoing? || pc.Cleaning?
    ensures Same(w, After(w, l), id)
  {
    hide FirstOf;
  }

  lemma WorkKeepsOthers(w: World, l: Label, id: Id)
    requires Enabled(w, l) && l.Handle? && id != l.id
    requires var pc := w.handlers[l.id]; pc.Generating? || pc.Generated?
    ensures Same(w, After(w, l), id)
  {
    hide FirstOf, MarkedReady;
  }

  lemma HandleKeepsOthers(w: World, l: Label, id: Id)
    requires Enabled(w, l) && l.Handle? && id != l.id
    ensures Same(w, After(w, l), id)
  {
    hide After, Same;
    var pc := w.handlers[l.id];
    if pc.Generating? || pc.Generated? {
      WorkKeepsOthers(w, l, id);
    } else if pc.Undoing? || pc.Cleaning? {
      RemovalKeepsOthers(w, l, id);
    } else {
      ClaimKeepsOthers(w, l, id);
    }
  }

  lemma UploadKeepsGood(w: World, l: Label)
    requires Enabled(w, l) && (l.SaveOriginal? || l.StoreMetadata? || l.UndoUpload?) && Good(w, l.id)
    ensures Good(After(w, l), l.id)
  {
    hide LiveOf;
  }

  lemma StartKeepsGood(w: World, l: Label)
    requires Enabled(w, l) && (l.CheckLimit? || l.BuildEntity?) && Good(w, l.id)
    ensures Good(After(w, l), l.id)
  {
    hide LiveOf;
    if l.BuildEntity? {
      EntityIff(w.images, l.id, w.uploads[l.id].listing, w.uploads[l.id].details, l.createdAt);
    }
  }

  lemma ScheduleKeepsGood(w: World, l: Label)
    requires Enabled(w, l) && (l.Schedule? || l.Delete?) && Good(w, l.id)
    ensures Good(After(w, l), l.id)
  {
  }

  lemma ClaimKeepsGood(w: World, l: Label)
    requires Enabled(w, l) && l.Handle? && Good(w, l.id)
    requires var pc := w.handlers[l.id]; pc.Queued? || pc.Opening? || pc.Missing? || pc.Sleeping?
    ensures Good(After(w, l), l.id)
  {
  }

  lemma FirstIsMember(sizes: set<Size>)
    ensures sizes == {} || FirstOf(sizes) in sizes
  {
    if sizes != {} {
      var s :| s in sizes;
      match s
      case Small =>
      case Medium =>
      case Large =>
    }
  }

  lemma GenerateKeepsGood(w: World, l: Label)
    requires Enabled(w, l) && l.Handle? && Good(w, l.id) && w.handlers[l.id].Generating?
    ensures Good(After(w, l), l.id)
  {
    FirstIsMember(ALL_SIZES - w.handlers[l.id].created);
  }

  lemma UndoKeepsGood(w: World, l: Label)
    requires Enabled(w, l) && l.Handle? && Good(w, l.id) && w.handlers[l.id].Undoing?
    ensures Good(After(w, l), l.id)
  {
    FirstIsMember(w.handlers[l.id].left);
  }

  lemma CleanKeepsGood(w: World, l: Label)
    requires Enabled(w, l) && l.Handle? && Good(w, l.id) && w.handlers[l.id].Cleaning?
    ensures Good(After(w, l), l.id)
  {
    FirstIsMember(w.handlers[l.id].held);
  }

  lemma MarkKeepsGood(w: World, l: Label)
    requires Enabled(w, l) && l.Handle? && Good(w, l.id)
    requires w.handlers[l.id].Generated? || w.handlers[l.id].Failing?
    ensures Good(After(w, l), l.id)
  {
  }

  lemma StepKeepsInv(w: World, l: Label)
    requires Enabled(w, l) && Inv(w)
    ensures Inv(After(w, l))
  {
    hide Good, After, Same;
    assert Good(w, l.id);
    forall id ensures Good(After(w, l), id) {
      if id == l.id {
        match l
        case CheckLimit(_, _, _) => StartKeepsGood(w, l);
        case BuildEntity(_, _) => StartKeepsGood(w, l);
        case SaveOriginal(_) => UploadKeepsGood(w, l);
        case StoreMetadata(_, _) => UploadKeepsGood(w, l);
        case UndoUpload(_) => UploadKeepsGood(w, l);
        case Schedule(_, _) => ScheduleKeepsGood(w, l);
        case Delete(_) => ScheduleKeepsGood(w, l);
        case Handle(_, _) =>
          var pc := w.handlers[l.id];
          if pc.Queued? || pc.Opening? || pc.Missing? || pc.Sleeping? {
            ClaimKeepsGood(w, l);
          } else if pc.Generated? || pc.Failing? {
            MarkKeepsGood(w, l);
          } else if pc.Generating? {
            GenerateKeepsGood(w, l);
          } else if pc.Undoing? {
            UndoKeepsGood(w, l);
          } else {
            CleanKeepsGood(w, l);
          }
      } else {
        assert Good(w, id);
        if l.Handle? {
          HandleKeepsOthers(w, l, id);
        } else {
          UploadKeepsOthers(w, l, id);
        }
        SameIsGood(w, After(w, l), id);
      }
    }
  }

  lemma OneMore(w: World, labels: seq<Label>, l: Label)
    requires Execute(START, labels) == Some(w) && Enabled(w, l)
    ensures Execute(START, labels + [l]) == Some(After(w, l))
  {
    assert (labels + [l])[..|labels|] == labels;
  }

  /** The invariant holds in every reachable world. */
  lemma {:induction false} ReachableInv(labels: seq<Label>)
    requires Execute(START, labels).Some?
    ensures Inv(Execute(START, labels).value)
  {
    if labels == [] {
      StartIsGood();
    } else {
      hide Inv, After, Enabled;
      ReachableInv(labels[..|labels| - 1]);
      StepKeepsInv(Execute(START, labels[..|labels| - 1]).value, labels[|labels| - 1]);
    }
  }

  lemma StartIsGood()
    ensures Inv(START)
  {
  }
}
