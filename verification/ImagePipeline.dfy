/** The upload, the handler's retry loop and the thumbnail loop, running while other uploads, deletions
    and handlers interleave. */
module ImagePipelines {
  import opened Common
  import opened Images
  import opened ImageAssets
  import opened ImageAssetsResults

  datatype Failure = FileNotFound | OtherFailure
  datatype UploadResult = LimitReached | FileRefused | Uploaded | NotScheduled | Raised
  datatype Marked = MarkedAsReady | ImageGone | MarkRaised

  /** What another party does to `id` between two operations of the upload or handler that owns it. */
  predicate Foreign(l: Label, id: Id)
  {
    l.id != id || l.Delete?
  }

  /** Nothing new is stored for `id`. */
  ghost predicate Stays(v: World, w: World, id: Id)
  {
    && (Original(id) in w.storage ==> Original(id) in v.storage)
    && (forall s :: Thumb(id, s) in w.storage ==> Thumb(id, s) in v.storage)
  }

  lemma ForeignSteps(w: World, l: Label, id: Id)
    requires Enabled(w, l) && Inv(w) && Foreign(l, id)
    ensures id in After(w, l).handlers <==> id in w.handlers
    ensures id in w.handlers ==> After(w, l).handlers[id] == w.handlers[id]
    ensures id in After(w, l).uploads <==> id in w.uploads
    ensures id in w.uploads ==> After(w, l).uploads[id] == w.uploads[id]
    ensures id in After(w, l).images ==> id in w.images
    ensures id in After(w, l).abandoned <==> id in w.abandoned
    ensures Stays(w, After(w, l), id)
  {
    assert Good(w, l.id);
    if l.id != id {
      hide After, Good;
      if l.Handle? {
        HandleKeepsOthers(w, l, id);
      } else {
        UploadKeepsOthers(w, l, id);
      }
    }
  }

  lemma StillHandled(w: World, l: Label, id: Id)
    requires Enabled(w, l) && id in w.handlers
    ensures id in After(w, l).handlers
  {
  }

  lemma StoringStep(w: World, id: Id, luck: Luck)
    requires id in w.handlers && w.handlers[id].Generating? && w.handlers[id].created < ALL_SIZES
    ensures var pc, size := w.handlers[id], FirstOf(ALL_SIZES - w.handlers[id].created);
            && id in After(w, Handle(id, luck)).handlers
            && After(w, Handle(id, luck)).handlers[id] ==
               (if !luck.Well? then Undoing(pc.attempt, pc.created, luck.Absent?)
                else if pc.created + {size} == ALL_SIZES then Generated(pc.attempt)
                else Generating(pc.attempt, pc.created + {size}))
            && |ALL_SIZES - (pc.created + {size})| < |ALL_SIZES - pc.created|
  {
    var pc, size := w.handlers[id], FirstOf(ALL_SIZES - w.handlers[id].created);
    FirstIsMember(ALL_SIZES - pc.created);
    FewerLeft(ALL_SIZES - (pc.created + {size}), ALL_SIZES - pc.created);
  }

  class ImagePipeline {
    var world: World
    /** Oracles: what the other parties do between two operations, and how the next operation goes. */
    var others: seq<seq<Label>>
    var lucks: seq<Luck>
    ghost var trace: seq<Label>

    ghost predicate Valid()
      reads this
    {
      Execute(START, trace) == Some(world)
    }

    constructor (others: seq<seq<Label>>, lucks: seq<Luck>)
      ensures Valid() && world == START
    {
      world, trace := START, [];
      this.others, this.lucks := others, lucks;
    }

    /** Between two operations anything else may happen. */
    method Interlude(id: Id)
      requires Valid()
      modifies this
      ensures Valid() && old(trace) <= trace
      ensures id in world.handlers <==> id in old(world).handlers
      ensures id in world.handlers ==> world.handlers[id] == old(world).handlers[id]
      ensures id in world.uploads <==> id in old(world).uploads
      ensures id in world.uploads ==> world.uploads[id] == old(world).uploads[id]
      ensures id in world.images ==> id in old(world).images
      ensures id in world.abandoned <==> id in old(world).abandoned
      ensures Stays(old(world), world, id)
    {
      hide Execute, After, Enabled;
      var labels := if others == [] then [] else others[0];
      others := if others == [] then [] else others[1..];
      for i := 0 to |labels|
        invariant Valid() && old(trace) <= trace
        invariant id in world.handlers <==> id in old(world).handlers
        invariant id in world.handlers ==> world.handlers[id] == old(world).handlers[id]
        invariant id in world.uploads <==> id in old(world).uploads
        invariant id in world.uploads ==> world.uploads[id] == old(world).uploads[id]
        invariant id in world.images ==> id in old(world).images
        invariant id in world.abandoned <==> id in old(world).abandoned
        invariant Stays(old(world), world, id)
      {
        var l := labels[i];
        if Enabled(world, l) && Foreign(l, id) {
          ReachableInv(trace);
          ForeignSteps(world, l, id);
          OneMore(world, trace, l);
          world, trace := After(world, l), trace + [l];
        }
      }
    }

    /** One operation of the owner of `l.id`, followed by whatever the others do. */
    method Perform(l: Label)
      requires Valid() && Enabled(world, l)
      modifies this
      ensures Valid() && old(trace) + [l] <= trace
      ensures var next := After(old(world), l);
              && (l.id in world.handlers <==> l.id in next.handlers)
              && (l.id in world.handlers ==> world.handlers[l.id] == next.handlers[l.id])
              && (l.id in world.uploads <==> l.id in next.uploads)
              && (l.id in world.uploads ==> world.uploads[l.id] == next.uploads[l.id])
              && (l.id in world.images ==> l.id in next.images)
              && (l.id in world.abandoned <==> l.id in next.abandoned)
              && Stays(next, world, l.id)
    {
      OneMore(world, trace, l);
      hide Execute, After;
      world, trace := After(world, l), trace + [l];
      Interlude(l.id);
    }

    method Operate(id: Id, luck: Luck)
      requires Valid() && id in world.handlers && !world.handlers[id].Done?
      modifies this
      ensures Valid() && id in world.handlers
      ensures world.handlers[id] == After(old(world), Handle(id, luck)).handlers[id]
      ensures old(trace) + [Handle(id, luck)] <= trace
      ensures Stays(After(old(world), Handle(id, luck)), world, id)
    {
      StillHandled(world, Handle(id, luck), id);
      hide Execute, After;
      Perform(Handle(id, luck));
    }

    // ---- Uploading ----

    /** Check the limit, validate and save the file, build the entity, store the metadata, save the event.
        `taken` says whether validator and storage take the file, `outcome` what the repository does, and
        `saved` whether the outbox, or the publisher where there is none, takes the event. `position` is the
        one that was read, at step `k` of the trace; the store raises at step `j` if other uploads have filled
        the listing by then. */
    method UploadImage(id: Id, listing: Id, details: Details, taken: bool, createdAt: int, outcome: StoreOutcome,
                       saved: bool)
      returns (r: UploadResult, position: nat, ghost k: nat, ghost j: nat)
      requires Valid() && id !in world.used
      modifies this
      ensures Valid() && id !in world.uploads && old(trace) <= trace
      ensures r == LimitReached <==> Full(old(world).images, listing)
      ensures r == FileRefused <==> !Full(old(world).images, listing) && !taken
      ensures r == FileRefused ==> world == old(world) && trace == old(trace)
      ensures r !in {LimitReached, FileRefused} ==>
        && old(|trace|) <= k < |trace| && trace[k] == BuildEntity(id, createdAt)
        && position == |LiveOf(WorldBefore(trace, k).images, listing)| + 1
      ensures r == Uploaded ==>
        Acceptable(details) && position <= MAX_IMAGES && outcome.Accepted? && saved && id in world.handlers
      ensures r == NotScheduled ==>
        && Acceptable(details) && position <= MAX_IMAGES && outcome.Accepted? && !saved
        && (Original(id) in world.storage <==> id in world.images)
        && (id in world.images ==> world.images[id].status == Failed && world.images[id].thumbs == {})
      ensures r == Raised && Acceptable(details) && position <= MAX_IMAGES && outcome.Accepted? ==>
        k < j < |trace| && trace[j] == StoreMetadata(id, RaisedAfter) && Full(WorldBefore(trace, j).images, listing)
      ensures r in {LimitReached, FileRefused, Raised} ==> id !in world.images
      ensures r == Raised ==> (Original(id) in world.storage <==> !Acceptable(details) || position > MAX_IMAGES)
    {
      hide Execute, LiveOf, After;
      position, k, j := 0, 0, 0;
      if Full(world.images, listing) {
        Turned(trace, CheckLimit(id, listing, details));
        Perform(CheckLimit(id, listing, details));
        return LimitReached, position, k, j;
      }
      if !taken {
        NotYet(trace, id);
        return FileRefused, position, k, j;
      }
      var entity: Option<Image>;
      entity, position, k := Build(id, listing, details, createdAt);
      if entity.None? {
        Settles(trace, id);
        return Raised, position, k, j;
      }
      ghost var built := trace;
      r, j := StoreAndSchedule(id, entity.value, outcome, saved);
      SameSteps(built, trace, k);
      Settles(trace, id);
    }

    /** The part of the upload before the metadata; without an entity the upload is over. */
    method Build(id: Id, listing: Id, details: Details, createdAt: int)
      returns (entity: Option<Image>, position: nat, ghost k: nat)
      requires Valid() && id !in world.used && !Full(world.images, listing)
      modifies this
      ensures Valid() && old(trace) <= trace && id !in world.images && id !in world.handlers
      ensures old(|trace|) <= k < |trace| && trace[k] == BuildEntity(id, createdAt)
      ensures position == |LiveOf(WorldBefore(trace, k).images, listing)| + 1
      ensures entity.Some? <==> Acceptable(details) && position <= MAX_IMAGES
      ensures entity.Some? ==>
        && id in world.uploads && world.uploads[id] == Built(entity.value) && entity.value.listing == listing
        && id !in world.abandoned
      ensures entity.None? ==> id !in world.uploads && id in world.abandoned
    {
      hide Execute, LiveOf;
      NotYet(trace, id);
      Perform(CheckLimit(id, listing, details));
      Perform(SaveOriginal(id));
      k := |trace|;
      IsBefore(trace, world);
      position := |LiveOf(world.images, listing)| + 1;
      entity := Entity(world.images, id, listing, details, createdAt);
      EntityIff(world.images, id, listing, details, createdAt);
      ghost var upTo := trace;
      hide Entity;
      Perform(BuildEntity(id, createdAt));
      SameBefore(upTo, trace);
    }

    /** The part from the metadata on. A store into a listing that is full by now raises. */
    method StoreAndSchedule(id: Id, entity: Image, outcome: StoreOutcome, saved: bool)
      returns (r: UploadResult, ghost j: nat)
      requires Valid() && id in world.uploads && world.uploads[id] == Built(entity)
      requires id !in world.images && id !in world.handlers && id !in world.abandoned
      modifies this
      ensures Valid() && id !in world.uploads && id !in world.abandoned && old(trace) <= trace
      ensures r in {Uploaded, NotScheduled, Raised}
      ensures r == Uploaded ==> outcome.Accepted? && saved && id in world.handlers
      ensures r == NotScheduled ==> outcome.Accepted? && !saved && id !in world.handlers
      ensures r == Raised ==> id !in world.images
      ensures r == Raised && outcome.Accepted? ==>
        old(|trace|) <= j < |trace| && trace[j] == StoreMetadata(id, RaisedAfter)
        && Full(WorldBefore(trace, j).images, entity.listing)
    {
      hide Execute, LiveOf, Full, HandleStep, CheckStep, BuildStep, DeleteStep, MarkedFailed;
      j := |trace|;
      ghost var upTo := trace;
      var stored := if outcome.Accepted? && Full(world.images, entity.listing) then RaisedAfter else outcome;
      IsBefore(trace, world);
      Perform(StoreMetadata(id, stored));
      if stored.Accepted? {
        Perform(Schedule(id, saved));
        r := if saved then Uploaded else NotScheduled;
      } else {
        Perform(UndoUpload(id));
        if stored.RaisedAfter? {
          Perform(UndoUpload(id));
        }
        r := Raised;
      }
      SameBefore(upTo, trace);
    }

    // ---- Handling ----

    method NextLuck() returns (luck: Luck)
      modifies this`lucks
    {
      luck := if lucks == [] then Well else lucks[0];
      lucks := if lucks == [] then [] else lucks[1..];
    }

    method ClaimForProcessing(id: Id) returns (claimed: Option<Image>)
      requires Valid() && id in world.handlers && (world.handlers[id].Queued? || world.handlers[id].Sleeping?)
      modifies this
      ensures Valid() && id in world.handlers && old(trace) <= trace
      ensures claimed == if id in old(world).images && Claimable(old(world).images[id], MAX_PROCESSING_ATTEMPTS)
                         then Some(Claimed(old(world).images[id])) else None
      ensures claimed.Some? ==>
        && world.handlers[id] == Opening(claimed.value.attempts)
        && claimed.value.attempts ==
           if old(world.handlers[id]).Queued? then 1 else old(world.handlers[id]).attempt + 1
      ensures claimed.None? ==>
        world.handlers[id] ==
        if old(world.handlers[id]).Queued? then Done else Cleaning(true, old(world.handlers[id]).held)
    {
      ReachableInv(trace);
      assert Good(world, id);
      hide Execute, Good, Inv;
      ClaimCounts(world, id);
      claimed := if id in world.images && Claimable(world.images[id], MAX_PROCESSING_ATTEMPTS)
                 then Some(Claimed(world.images[id])) else None;
      Operate(id, Well);
    }

    method OpenOriginal(id: Id) returns (failure: Option<Failure>)
      requires Valid() && id in world.handlers && world.handlers[id].Opening?
      modifies this
      ensures Valid() && id in world.handlers && old(trace) <= trace
      ensures world.handlers[id] ==
              match failure
              case None => Generating(old(world.handlers[id]).attempt, {})
              case Some(FileNotFound) => Missing(old(world.handlers[id]).attempt)
              case Some(OtherFailure) => Failing(old(world.handlers[id]).attempt, {})
    {
      hide Execute;
      var luck := NextLuck();
      failure :=
        if Original(id) !in world.storage then Some(FileNotFound)
        else if luck.Well? then None
        else Some(OtherFailure);
      Operate(id, luck);
    }

    /** The thumbnail loop: all three are stored, or none that it stored is left. */
    method GenerateAndStore(id: Id) returns (created: set<Size>, failure: Option<Failure>)
      requires Valid() && id in world.handlers && world.handlers[id].Generating? && world.handlers[id].created == {}
      modifies this
      ensures Valid() && id in world.handlers && old(trace) <= trace
      ensures failure.Some? ==> created == {}
      ensures failure.None? ==> created == ALL_SIZES && world.handlers[id] == Generated(old(world.handlers[id]).attempt)
      ensures failure.None? ==> Thumbs(id, ALL_SIZES) <= world.storage
      ensures failure == Some(FileNotFound) ==> world.handlers[id] == Missing(old(world.handlers[id]).attempt)
      ensures failure == Some(OtherFailure) ==> world.handlers[id] == Failing(old(world.handlers[id]).attempt, {})
      ensures failure.Some? ==> forall s :: Thumb(id, s) in world.storage ==> Thumb(id, s) in world.leaked
    {
      hide Execute, After, FirstOf, Stays;
      ghost var attempt := world.handlers[id].attempt;
      created, failure := {}, None;
      while created != ALL_SIZES
        invariant Valid() && id in world.handlers && old(trace) <= trace && created <= ALL_SIZES
        invariant world.handlers[id] ==
                  if created == ALL_SIZES then Generated(attempt) else Generating(attempt, created)
        decreases |ALL_SIZES - created|
      {
        var luck := NextLuck();
        StoringStep(world, id, luck);
        Operate(id, luck);
        if !luck.Well? {
          Undo(id, attempt, created, luck.Absent?);
          AllAccounted(trace, id);
          return {}, Some(if luck.Absent? then FileNotFound else OtherFailure);
        }
        created := created + {FirstOf(ALL_SIZES - created)};
      }
      AllAccounted(trace, id);
    }

    method Undo(id: Id, ghost attempt: nat, created: set<Size>, absent: bool)
      requires Valid() && id in world.handlers && world.handlers[id] == Undoing(attempt, created, absent)
      modifies this
      ensures Valid() && id in world.handlers && old(trace) <= trace
      ensures world.handlers[id] == if absent then Missing(attempt) else Failing(attempt, {})
    {
      hide Execute;
      var left := created;
      while left != {}
        invariant Valid() && id in world.handlers && old(trace) <= trace
        invariant world.handlers[id] == Undoing(attempt, left, absent)
        decreases |left|
      {
        FirstIsMember(left);
        FewerLeft(left - {FirstOf(left)}, left);
        Operate(id, Well);
        left := left - {FirstOf(left)};
      }
      Operate(id, Well);
    }

    method MarkReady(id: Id, thumbnails: set<Size>) returns (marked: Marked)
      requires Valid() && id in world.handlers && world.handlers[id].Generated? && thumbnails == ALL_SIZES
      modifies this
      ensures Valid() && id in world.handlers && old(trace) <= trace
      ensures world.handlers[id] ==
              match marked
              case MarkedAsReady => Done
              case ImageGone => Cleaning(true, thumbnails)
              case MarkRaised => Failing(old(world.handlers[id]).attempt, thumbnails)
    {
      hide Execute;
      var luck := NextLuck();
      marked := if luck.MarkRaises? then MarkRaised else if id in world.images then MarkedAsReady else ImageGone;
      Operate(id, luck);
    }

    /** The look-up after a missing file; a live image goes on to be marked as failed. */
    method ImageExists(id: Id) returns (found: bool)
      requires Valid() && id in world.handlers && world.handlers[id].Missing?
      modifies this
      ensures Valid() && id in world.handlers && old(trace) <= trace
      ensures world.handlers[id] == if found then Failing(old(world.handlers[id]).attempt, {}) else Done
    {
      hide Execute;
      found := id in world.images;
      Operate(id, Well);
    }

    method MarkFailed(id: Id) returns (found: bool)
      requires Valid() && id in world.handlers && world.handlers[id].Failing?
      modifies this
      ensures Valid() && id in world.handlers && old(trace) <= trace
      ensures var pc := old(world.handlers[id]);
              world.handlers[id] ==
              if !found then Cleaning(true, pc.held)
              else if pc.attempt >= MAX_PROCESSING_ATTEMPTS then Done
              else Sleeping(pc.attempt, pc.held)
    {
      hide Execute;
      found := id in world.images;
      Operate(id, Well);
    }

    /** The original and every generated key are gone afterwards, and stay gone. */
    method CleanupGeneratedAssets(id: Id, generated: set<Size>)
      requires Valid() && id in world.handlers && world.handlers[id] == Cleaning(true, generated)
      modifies this
      ensures Valid() && id in world.handlers && old(trace) <= trace && world.handlers[id] == Done
      ensures Original(id) !in world.storage && forall s :: s in generated ==> Thumb(id, s) !in world.storage
    {
      hide Execute;
      Operate(id, Well);
      var left := generated;
      while left != {}
        invariant Valid() && id in world.handlers && old(trace) <= trace
        invariant world.handlers[id] == Cleaning(false, left)
        invariant Original(id) !in world.storage
        invariant forall s :: s in generated && s !in left ==> Thumb(id, s) !in world.storage
        decreases |left|
      {
        FirstIsMember(left);
        FewerLeft(left - {FirstOf(left)}, left);
        Operate(id, Well);
        left := left - {FirstOf(left)};
      }
      Operate(id, Well);
    }

    /** One attempt, up to the point where a failure is to be recorded. */
    method Attempt(id: Id) returns (ended: bool, generated: set<Size>)
      requires Valid() && id in world.handlers && world.handlers[id].Opening?
      modifies this
      ensures Valid() && id in world.handlers && old(trace) <= trace
      ensures world.handlers[id] == if ended then Done else Failing(old(world.handlers[id]).attempt, generated)
    {
      hide Execute, After;
      generated := {};
      var failure := OpenOriginal(id);
      if failure.None? {
        generated, failure := GenerateAndStore(id);
        if failure.None? {
          var ready := MarkReady(id, generated);
          match ready {
            case MarkedAsReady =>
              return true, generated;
            case ImageGone =>
              CleanupGeneratedAssets(id, generated);
              return true, generated;
            case MarkRaised =>
              return false, generated;
          }
        }
      }
      ended := false;
      if failure.value.FileNotFound? {
        var found := ImageExists(id);
        ended := !found;
      }
    }

    /** The retry loop. Whatever happens in between, it ends, and a live image is then ready with all
        three thumbnails and no error, or failed after the last attempt. */
    method HandleEvent(id: Id)
      requires Valid() && id in world.handlers && world.handlers[id].Queued?
      modifies this
      ensures Valid() && id in world.handlers && world.handlers[id].Done? && old(trace) <= trace
      ensures id in world.images ==> Finished(world.images[id])
    {
      hide Execute, After, Finished;
      var claimed := ClaimForProcessing(id);
      if claimed.None? {
        EndsWell(trace, id);
        return;
      }
      var attempt := claimed.value.attempts;
      while claimed.Some?
        invariant Valid() && id in world.handlers && old(trace) <= trace
        invariant if claimed.Some? then world.handlers[id] == Opening(attempt) else world.handlers[id].Done?
        decreases if claimed.Some? then MAX_PROCESSING_ATTEMPTS + 1 - attempt else 0
      {
        AttemptsAreBounded(trace, id);
        var ended, generated := Attempt(id);
        if ended {
          break;
        }
        var failed := MarkFailed(id);
        if !failed {
          CleanupGeneratedAssets(id, generated);
          break;
        }
        if attempt >= MAX_PROCESSING_ATTEMPTS {
          break;
        }
        claimed := ClaimForProcessing(id);
        if claimed.None? {
          CleanupGeneratedAssets(id, generated);
          break;
        }
        attempt := claimed.value.attempts;
      }
      EndsWell(trace, id);
    }
  }

  lemma IsBefore(trace: seq<Label>, w: World)
    requires Execute(START, trace) == Some(w)
    ensures WorldBefore(trace, |trace|) == w
  {
    assert trace[..|trace|] == trace;
  }

  /** What was before a step does not change when the run goes on. */
  lemma SameBefore(upTo: seq<Label>, trace: seq<Label>)
    requires upTo <= trace
    ensures WorldBefore(trace, |upTo|) == WorldBefore(upTo, |upTo|)
  {
    assert trace[..|upTo|] == upTo == upTo[..|upTo|];
  }

  lemma SameSteps(upTo: seq<Label>, trace: seq<Label>, k: nat)
    requires upTo <= trace && k < |upTo|
    ensures WorldBefore(trace, k) == WorldBefore(upTo, k) && trace[k] == upTo[k]
  {
    assert trace[..k] == upTo[..k];
  }

  /** An upload that is turned away at the limit leaves nothing. */
  lemma Turned(trace: seq<Label>, l: Label)
    requires Execute(START, trace).Some? && l.CheckLimit? && Enabled(Execute(START, trace).value, l)
    requires Full(Execute(START, trace).value.images, l.listing)
    ensures var w := After(Execute(START, trace).value, l);
            l.id !in w.images && l.id !in w.uploads
  {
    NotYet(trace, l.id);
    hide Execute, LiveOf, Full;
  }

  lemma NotYet(trace: seq<Label>, id: Id)
    requires Execute(START, trace).Some? && id !in Execute(START, trace).value.used
    ensures var w := Execute(START, trace).value;
            id !in w.images && id !in w.uploads && id !in w.handlers && id !in w.abandoned
  {
    ReachableInv(trace);
    hide Execute;
    assert Good(Execute(START, trace).value, id);
  }

  lemma Settles(trace: seq<Label>, id: Id)
    requires Execute(START, trace).Some? && id !in Execute(START, trace).value.uploads
    ensures var w := Execute(START, trace).value;
            && (Original(id) in w.storage <==> id in w.images || id in w.abandoned)
            && (id in w.images && id !in w.handlers ==> w.images[id].status == Failed && w.images[id].thumbs == {})
            && (id in w.abandoned ==> id !in w.images)
  {
    ReachableInv(trace);
    hide Execute;
    assert Good(Execute(START, trace).value, id);
  }

  lemma ClaimCounts(w: World, id: Id)
    requires Good(w, id) && id in w.handlers && (w.handlers[id].Queued? || w.handlers[id].Sleeping?)
    ensures id in w.images ==>
              Claimed(w.images[id]).attempts == if w.handlers[id].Queued? then 1 else w.handlers[id].attempt + 1
  {
  }

  lemma FewerLeft(a: set<Size>, b: set<Size>)
    requires a < b
    ensures |a| < |b|
  {
    SubsetSize(a, b);
  }

  lemma AllAccounted(trace: seq<Label>, id: Id)
    requires Execute(START, trace).Some? && id in Execute(START, trace).value.handlers
    ensures var w := Execute(START, trace).value; var pc := w.handlers[id];
            && (pc.Generated? ==> Thumbs(id, ALL_SIZES) <= w.storage)
            && (pc.Missing? || (pc.Failing? && pc.held == {}) ==>
                  forall s :: Thumb(id, s) in w.storage ==> Thumb(id, s) in w.leaked)
  {
    ReachableInv(trace);
    hide Execute;
    assert Good(Execute(START, trace).value, id);
  }

  lemma AttemptsAreBounded(trace: seq<Label>, id: Id)
    requires Execute(START, trace).Some? && id in Execute(START, trace).value.handlers
    requires Execute(START, trace).value.handlers[id].Opening?
    ensures 1 <= Execute(START, trace).value.handlers[id].attempt <= MAX_PROCESSING_ATTEMPTS
  {
    ReachableInv(trace);
    hide Execute;
    assert Good(Execute(START, trace).value, id);
  }

  lemma EndsWell(trace: seq<Label>, id: Id)
    requires Execute(START, trace).Some? && id in Execute(START, trace).value.handlers
    requires Execute(START, trace).value.handlers[id].Done?
    ensures id in Execute(START, trace).value.images ==> Finished(Execute(START, trace).value.images[id])
  {
    if id in Execute(START, trace).value.images {
      HandlerEndsWell(trace, id);
    }
  }
}
