/** The claim protocol alone, for one image and any number of events, each with its own handler. */
module ImageClaims {
  import opened Common
  import opened Images
  import opened ImageAssets

  type HandlerId = nat

  datatype Phase = Owning(attempt: nat) | Resting(attempt: nat) | Finished

  /** `granted` counts the claims that succeeded, `original` says whether the uploaded file is stored. */
  datatype Claims = Claims(image: Option<Image>, original: bool, phases: map<HandlerId, Phase>, granted: nat)

  datatype Event =
    | Deliver(h: HandlerId)
    | Succeed(h: HandlerId)
    | Fail(h: HandlerId)
    | Wake(h: HandlerId)
    | Remove

  predicate Possible(c: Claims, e: Event)
  {
    match e
    case Deliver(h) => h !in c.phases
    case Succeed(h) => h in c.phases && c.phases[h].Owning?
    case Fail(h) => h in c.phases && c.phases[h].Owning?
    case Wake(h) => h in c.phases && c.phases[h].Resting?
    case Remove => true
  }

  /** `claim_for_processing` on behalf of `h`; `refused` is what the handler does otherwise. */
  function TryClaim(c: Claims, h: HandlerId, refused: Claims): Claims
  {
    if c.image.Some? && Claimable(c.image.value, MAX_PROCESSING_ATTEMPTS) then
      var claimed := Claimed(c.image.value);
      c.(image := Some(claimed), phases := c.phases[h := Owning(claimed.attempts)], granted := c.granted + 1)
    else refused.(phases := c.phases[h := Phase.Finished])
  }

  function Cleaned(c: Claims): Claims
  {
    c.(original := false)
  }

  function Next(c: Claims, e: Event): Claims
    requires Possible(c, e)
  {
    match e
    case Deliver(h) => TryClaim(c, h, c)
    case Wake(h) => TryClaim(c, h, Cleaned(c))
    case Succeed(h) =>
      if c.image.None? then Cleaned(c).(phases := c.phases[h := Phase.Finished])
      else c.(image := Some(MarkedReady(c.image.value, ALL_SIZES)), phases := c.phases[h := Phase.Finished])
    case Fail(h) =>
      if c.image.None? then Cleaned(c).(phases := c.phases[h := Phase.Finished])
      else
        var attempt := c.phases[h].attempt;
        c.(image := Some(MarkedFailed(c.image.value)),
           phases := c.phases[h := if attempt >= MAX_PROCESSING_ATTEMPTS then Phase.Finished else Resting(attempt)])
    case Remove => if c.image.Some? then Cleaned(c).(image := None) else c
  }

  function Uploaded(i: Image): Claims
  {
    Claims(Some(i), true, map[], 0)
  }

  function Follow(c: Claims, events: seq<Event>): Option<Claims>
  {
    if events == [] then Some(c)
    else
      var before, e := Follow(c, events[..|events| - 1]), events[|events| - 1];
      if before.Some? && Possible(before.value, e) then Some(Next(before.value, e)) else None
  }

  predicate Owns(c: Claims, h: HandlerId)
  {
    h in c.phases && c.phases[h].Owning?
  }

  /** At most one owner, which is the last one that was granted a claim; while the image is there it is
      being processed exactly when it has an owner. */
  ghost predicate Exclusive(c: Claims)
  {
    && (forall g, h :: Owns(c, g) && Owns(c, h) ==> g == h)
    && (forall h :: Owns(c, h) ==> c.phases[h].attempt == c.granted)
    && (c.image.Some? ==> (c.image.value.status == Processing <==> exists h :: Owns(c, h)))
    && (c.image.Some? ==> c.image.value.attempts == c.granted)
    && c.granted <= MAX_PROCESSING_ATTEMPTS
    && (c.image.Some? && c.image.value.status != Ready ==> c.image.value.thumbs == {})
  }

  lemma ClaimKeepsExclusive(c: Claims, e: Event)
    requires Possible(c, e) && Exclusive(c) && (e.Deliver? || e.Wake?)
    ensures Exclusive(Next(c, e))
  {
    var d := Next(c, e);
    assert forall g :: Owns(c, g) ==> g != e.h;
    assert forall g :: g != e.h ==> (Owns(d, g) <==> Owns(c, g));
    if c.image.Some? && Claimable(c.image.value, MAX_PROCESSING_ATTEMPTS) {
      assert Owns(d, e.h);
    }
  }

  lemma ReleaseKeepsExclusive(c: Claims, e: Event)
    requires Possible(c, e) && Exclusive(c) && (e.Succeed? || e.Fail?)
    ensures Exclusive(Next(c, e))
  {
    assert Owns(c, e.h);
    forall g ensures !Owns(Next(c, e), g) {
      assert Owns(c, g) ==> g == e.h;
    }
  }

  lemma {:induction false} ExclusiveAlways(i: Image, events: seq<Event>)
    requires NewImage(i.id, i) && Follow(Uploaded(i), events).Some?
    ensures Exclusive(Follow(Uploaded(i), events).value)
  {
    if events != [] {
      var before, e := Follow(Uploaded(i), events[..|events| - 1]).value, events[|events| - 1];
      ExclusiveAlways(i, events[..|events| - 1]);
      match e
      case Deliver(_) => ClaimKeepsExclusive(before, e);
      case Wake(_) => ClaimKeepsExclusive(before, e);
      case Succeed(_) => ReleaseKeepsExclusive(before, e);
      case Fail(_) => ReleaseKeepsExclusive(before, e);
      case Remove =>
        assert forall h :: Owns(Next(before, e), h) <==> Owns(before, h);
    }
  }

  /** However many events there are for the image: one owner at a time, and at most three attempts. */
  lemma {:induction false} OneOwnerAndBoundedAttempts(i: Image, events: seq<Event>, g: HandlerId, h: HandlerId)
    requires NewImage(i.id, i) && Follow(Uploaded(i), events).Some?
    ensures var c := Follow(Uploaded(i), events).value;
            && (Owns(c, g) && Owns(c, h) ==> g == h)
            && c.granted <= 3
            && (c.image.Some? ==> c.image.value.attempts == c.granted)
  {
    ExclusiveAlways(i, events);
    hide Follow;
  }

  /** A READY image with all of its thumbnails. */
  predicate IsReady(image: Option<Image>)
  {
    image.Some? && image.value.status == Ready && image.value.thumbs == {Small, Medium, Large} && !image.value.error
  }

  /** A handler finishes and the image is there: it is READY, and stays exactly as it is until it is removed,
      whatever other events there are for it. */
  lemma {:induction false} ReadyIsFinal(i: Image, events: seq<Event>, h: HandlerId, rest: seq<Event>)
    requires NewImage(i.id, i) && Follow(Uploaded(i), events + [Succeed(h)] + rest).Some?
    requires Follow(Uploaded(i), events + [Succeed(h)]).Some?
    requires Follow(Uploaded(i), events + [Succeed(h)]).value.image.Some?
    ensures var ready := Follow(Uploaded(i), events + [Succeed(h)]).value.image;
            var last := Follow(Uploaded(i), events + [Succeed(h)] + rest).value.image;
            IsReady(ready) && (last == ready || last.None?)
  {
    var done := events + [Succeed(h)];
    assert done[..|events|] == events;
    if rest == [] {
      assert done + rest == done;
    } else {
      var n := |rest| - 1;
      assert (done + rest)[..|done + rest| - 1] == done + rest[..n];
      ReadyIsFinal(i, events, h, rest[..n]);
      ExclusiveAlways(i, done + rest[..n]);
      hide Follow, NewImage;
      ReadyStep(Follow(Uploaded(i), done + rest[..n]).value, rest[n]);
    }
  }

  lemma ReadyStep(c: Claims, e: Event)
    requires Possible(c, e) && Exclusive(c) && (c.image.None? || IsReady(c.image))
    ensures Next(c, e).image == c.image || Next(c, e).image.None?
  {
    assert (e.Succeed? || e.Fail?) ==> Owns(c, e.h);
  }

  // ---- When the file of a live image is lost ----

  function ClaimsBefore(i: Image, events: seq<Event>, k: nat): Claims
    requires k <= |events|
  {
    match Follow(Uploaded(i), events[..k])
    case Some(c) => c
    case None => Uploaded(i)
  }

  /** A handler wakes up and finds the image there, but not to be claimed: ready, owned or out of attempts. */
  predicate Robs(c: Claims, e: Event)
  {
    e.Wake? && c.image.Some? && !Claimable(c.image.value, MAX_PROCESSING_ATTEMPTS)
  }

  ghost predicate RobsAt(i: Image, events: seq<Event>, k: nat)
  {
    k < |events| && Robs(ClaimsBefore(i, events, k), events[k])
  }

  lemma RobsSnoc(i: Image, events: seq<Event>)
    requires events != []
    ensures var n := |events| - 1;
            (exists k :: RobsAt(i, events, k)) <==>
            (exists k :: RobsAt(i, events[..n], k)) || Robs(ClaimsBefore(i, events, n), events[n])
  {
    var n := |events| - 1;
    hide Robs, Follow;
    forall k: nat | k < n ensures RobsAt(i, events[..n], k) <==> RobsAt(i, events, k) {
      assert events[..n][..k] == events[..k];
    }
    assert RobsAt(i, events, n) <==> Robs(ClaimsBefore(i, events, n), events[n]);
    if k: nat :| RobsAt(i, events, k) {
      assert k == n || RobsAt(i, events[..n], k);
    }
    if k: nat :| RobsAt(i, events[..n], k) {
      assert RobsAt(i, events, k);
    }
  }

  lemma LosesStep(c: Claims, e: Event)
    requires Possible(c, e) && Next(c, e).image.Some?
    ensures c.image.Some? && (!Next(c, e).original <==> !c.original || Robs(c, e))
  {
  }

  /** While the image is there, its file is lost exactly if some handler woke up and could not claim it. */
  lemma {:induction false} OriginalLostIff(i: Image, events: seq<Event>)
    requires NewImage(i.id, i) && Follow(Uploaded(i), events).Some?
    requires Follow(Uploaded(i), events).value.image.Some?
    ensures !Follow(Uploaded(i), events).value.original <==> exists k :: RobsAt(i, events, k)
  {
    if events != [] {
      var n := |events| - 1;
      LosesStep(ClaimsBefore(i, events, n), events[n]);
      OriginalLostIff(i, events[..n]);
      hide Next, Possible, Robs;
      RobsSnoc(i, events);
    }
  }

  /** The events are handled one after the other: each is delivered when no earlier handler is under way. */
  ghost predicate Sequential(i: Image, events: seq<Event>)
  {
    forall k :: 0 <= k < |events| && events[k].Deliver? ==> AllFinished(ClaimsBefore(i, events, k))
  }

  ghost predicate AllFinished(c: Claims)
  {
    forall h :: h in c.phases ==> c.phases[h].Finished?
  }

  /** At most one handler is under way, and one that rests left the image as it can claim it again. */
  ghost predicate OneAtATime(c: Claims)
  {
    && (forall g, h :: g in c.phases && h in c.phases && !c.phases[g].Finished? && !c.phases[h].Finished? ==> g == h)
    && (forall h :: h in c.phases && c.phases[h].Resting? && c.image.Some? ==>
          c.image.value.status == Failed && c.image.value.attempts < MAX_PROCESSING_ATTEMPTS)
  }

  lemma OneAtATimeStep(c: Claims, e: Event)
    requires Possible(c, e) && Exclusive(c) && OneAtATime(c) && (e.Deliver? ==> AllFinished(c))
    ensures OneAtATime(Next(c, e)) && !Robs(c, e)
  {
    if e.Fail? {
      assert Owns(c, e.h);
    }
  }

  lemma {:induction false} SequentialIsOneAtATime(i: Image, events: seq<Event>)
    requires NewImage(i.id, i) && Follow(Uploaded(i), events).Some? && Sequential(i, events)
    ensures OneAtATime(Follow(Uploaded(i), events).value) && forall k :: !RobsAt(i, events, k)
  {
    if events != [] {
      var n := |events| - 1;
      forall k | 0 <= k < n && events[..n][k].Deliver? ensures AllFinished(ClaimsBefore(i, events[..n], k)) {
        assert events[..n][..k] == events[..k] && events[k].Deliver?;
      }
      hide OneAtATime, Next, AllFinished, Robs, RobsAt, Exclusive, Possible;
      SequentialIsOneAtATime(i, events[..n]);
      ExclusiveAlways(i, events[..n]);
      assert events[n].Deliver? ==> AllFinished(ClaimsBefore(i, events, n));
      OneAtATimeStep(ClaimsBefore(i, events, n), events[n]);
      RobsSnoc(i, events);
    } else {
      assert OneAtATime(Uploaded(i));
    }
  }

  /** Any number of events that are handled one after the other keep the file of a live image. The one
      outbox worker delivers like that: it dispatches inside its loop, and `handle` sleeps inside the call. */
  lemma {:induction false} SequentialKeepsTheOriginal(i: Image, events: seq<Event>)
    requires NewImage(i.id, i) && Follow(Uploaded(i), events).Some? && Sequential(i, events)
    ensures Follow(Uploaded(i), events).value.image.Some? ==> Follow(Uploaded(i), events).value.original
  {
    SequentialIsOneAtATime(i, events);
    hide Sequential, RobsAt, Follow;
    if Follow(Uploaded(i), events).value.image.Some? {
      OriginalLostIff(i, events);
    }
  }

  ghost predicate OnlyBy(events: seq<Event>, h: HandlerId)
  {
    forall k :: 0 <= k < |events| ==> events[k].Remove? || events[k].h == h
  }

  lemma {:induction false} OnlyHandler(i: Image, events: seq<Event>, h: HandlerId)
    requires Follow(Uploaded(i), events).Some? && OnlyBy(events, h)
    ensures forall g :: g in Follow(Uploaded(i), events).value.phases ==> g == h
  {
    if events != [] {
      OnlyHandler(i, events[..|events| - 1], h);
    }
  }

  lemma {:induction false} PrefixFollows(i: Image, events: seq<Event>, k: nat)
    requires Follow(Uploaded(i), events).Some? && k <= |events|
    ensures Follow(Uploaded(i), events[..k]).Some?
    ensures k < |events| ==> Possible(ClaimsBefore(i, events, k), events[k])
    decreases |events|
  {
    if k == |events| {
      assert events[..k] == events;
    } else {
      PrefixFollows(i, events[..|events| - 1], k);
      assert events[..|events| - 1][..k] == events[..k];
    }
  }

  /** So a single event never loses it. */
  lemma {:induction false} OneHandlerKeepsTheOriginal(i: Image, events: seq<Event>, h: HandlerId)
    requires NewImage(i.id, i) && Follow(Uploaded(i), events).Some? && OnlyBy(events, h)
    ensures Follow(Uploaded(i), events).value.image.Some? ==> Follow(Uploaded(i), events).value.original
  {
    forall k | 0 <= k < |events| && events[k].Deliver? ensures AllFinished(ClaimsBefore(i, events, k)) {
      PrefixFollows(i, events, k);
      OnlyHandler(i, events[..k], h);
    }
    SequentialKeepsTheOriginal(i, events);
  }

  /** Two handlers that run at once can: the one that wakes up while the other owns the image deletes its
      file. */
  lemma {:induction false} TwoHandlersCanLoseTheOriginal(i: Image, g: HandlerId, h: HandlerId)
    requires NewImage(i.id, i) && g != h
    ensures var events := [Deliver(g), Fail(g), Deliver(h), Wake(g)];
            && Follow(Uploaded(i), events).Some?
            && Follow(Uploaded(i), events).value.image.Some?
            && !Follow(Uploaded(i), events).value.original
            && Owns(Follow(Uploaded(i), events).value, h)
  {
    var events := [Deliver(g), Fail(g), Deliver(h), Wake(g)];
    assert events[..3] == [Deliver(g), Fail(g), Deliver(h)];
    assert events[..3][..2] == [Deliver(g), Fail(g)];
    assert events[..2][..1] == [Deliver(g)] && events[..1][..0] == [];
    assert Follow(Uploaded(i), [Deliver(g)]) == Some(Next(Uploaded(i), Deliver(g)));
    assert Follow(Uploaded(i), [Deliver(g), Fail(g)]) == Some(Next(Next(Uploaded(i), Deliver(g)), Fail(g)));
  }
}
