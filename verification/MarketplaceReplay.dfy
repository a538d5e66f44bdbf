/** Replaying the recorded `commerce.*` log rebuilds every status. */
module MarketplaceReplay {
  import opened Common
  import opened Marketplace
  import opened MarketplaceSafety

  datatype Statuses = Statuses(listings: map<Id, ListingStatus>, reservations: map<Id, ReservationStatus>)

  function Apply(v: Statuses, e: Event): Statuses
  {
    match e
    case ListingCreated(l, _) => v.(listings := v.listings[l := Draft])
    case ListingPublished(l, _) => v.(listings := v.listings[l := Published])
    case ListingReserved(l, _) => v.(listings := v.listings[l := Reserved])
    case ReservationCreated(r, _, _) => v.(reservations := v.reservations[r := Pending])
    case ReservationAccepted(r, _) => v.(reservations := v.reservations[r := Accepted])
    case ReservationCancelled(r, _) => v.(reservations := v.reservations[r := Cancelled])
  }

  function Replay(log: seq<Event>): Statuses
  {
    if log == [] then Statuses(map[], map[]) else Apply(Replay(log[..|log| - 1]), log[|log| - 1])
  }

  lemma ReplayOne(log: seq<Event>, e: Event)
    ensures Replay(log + [e]) == Apply(Replay(log), e)
  {
    assert (log + [e])[..|log|] == log;
  }

  /** The recorder stores every event of this call. */
  predicate Recorded(op: Op)
  {
    match op
    case OpCreateUser(_, _) => true
    case OpActivateUser(_, _) => true
    case OpCreateListing(_, _, _, recordFails) => !recordFails
    case OpPublish(_, _, _, _, recordFails) => !recordFails
    case OpReserve(_, _, _, _, recordFails) => !recordFails
    case OpAccept(_, _, f) => !f.recordAccepted && !f.recordReserved
    case OpCancel(_, f) => !f.recordPublished && !f.recordCancelled
  }

  predicate AllRecorded(ops: seq<Op>)
  {
    forall i :: 0 <= i < |ops| ==> Recorded(ops[i])
  }

  /** What the log knows of a reservation: an accept that could not be undone was never recorded. */
  function KnownStatus(status: ReservationStatus, stuck: bool): ReservationStatus
  {
    if stuck && status == Accepted then Pending else status
  }

  /** `view` has the right status for everything stored, up to the reservations in `stuck`. */
  ghost predicate Agrees(view: Statuses, s: State, stuck: set<Id>)
  {
    && view.listings.Keys == s.listings.Keys
    && view.reservations.Keys == s.reservations.Keys
    && (forall l :: l in s.listings ==> view.listings[l] == s.listings[l].status)
    && (forall r :: r in s.reservations ==>
          view.reservations[r] == KnownStatus(s.reservations[r].status, r in stuck))
    && stuck <= s.reservations.Keys
    && (forall r :: r in stuck ==> s.reservations[r].status != Pending)
  }

  /** The events one call records, in order. */
  function Recording(s: State, op: Op): seq<Event>
  {
    if Step(s, op).1.Err? then []
    else
      match op
      case OpCreateUser(_, _) => []
      case OpActivateUser(_, _) => []
      case OpCreateListing(id, seller, _, _) => [ListingCreated(id, seller)]
      case OpPublish(seller, id, _, _, _) => [ListingPublished(id, seller)]
      case OpReserve(id, buyer, listing, _, _) => [ReservationCreated(id, listing, buyer)]
      case OpAccept(id, _, _) =>
        var r := s.reservations[id];
        [ReservationAccepted(id, r.listing), ListingReserved(r.listing, r.buyer)]
      case OpCancel(id, f) =>
        var r := s.reservations[id];
        var back := r.status == Accepted && !f.saveRestored
                    && ShouldRestore(WithReservationStatus(s, id, Cancelled), r.listing);
        var last := ReservationCancelled(id, r.listing);
        if back then [ListingPublished(r.listing, s.listings[r.listing].seller), last] else [last]
  }

  lemma LogGrows(s: State, op: Op)
    requires Recorded(op)
    ensures Step(s, op).0.log == s.log + Recording(s, op)
  {
  }

  function ApplyAll(v: Statuses, es: seq<Event>): Statuses
    decreases |es|
  {
    if es == [] then v else ApplyAll(Apply(v, es[0]), es[1..])
  }

  lemma ApplyTwo(v: Statuses, a: Event, b: Event)
    ensures ApplyAll(v, [a, b]) == Apply(Apply(v, a), b)
  {
    assert [a, b][1..] == [b];
    assert ApplyAll(Apply(v, a), [b]) == Apply(Apply(v, a), b);
  }

  lemma {:induction false} ReplayAppend(log: seq<Event>, es: seq<Event>)
    ensures Replay(log + es) == ApplyAll(Replay(log), es)
    decreases |es|
  {
    if es == [] {
      assert log + es == log;
    } else {
      ReplayOne(log, es[0]);
      ReplayAppend(log + [es[0]], es[1..]);
      assert log + es == log + [es[0]] + es[1..];
    }
  }

  lemma AcceptAgrees(view: Statuses, s: State, op: Op, stuck: set<Id>)
    requires Agrees(view, s, stuck) && op.OpAccept?
    ensures Agrees(ApplyAll(view, Recording(s, op)), Step(s, op).0,
                   stuck + (if CompensationFails(s, op) then {op.id} else {}))
  {
    if Step(s, op).1.Ok? {
      var r := s.reservations[op.id];
      ApplyTwo(view, ReservationAccepted(op.id, r.listing), ListingReserved(r.listing, r.buyer));
    }
  }

  lemma CancelAgrees(view: Statuses, s: State, op: Op, stuck: set<Id>)
    requires Agrees(view, s, stuck) && op.OpCancel?
    ensures Agrees(ApplyAll(view, Recording(s, op)), Step(s, op).0, stuck)
  {
    var es := Recording(s, op);
    if |es| == 2 {
      ApplyTwo(view, es[0], es[1]);
    } else if |es| == 1 {
      assert ApplyAll(view, es) == Apply(view, es[0]);
    }
  }

  lemma OtherAgrees(view: Statuses, s: State, op: Op, stuck: set<Id>)
    requires Agrees(view, s, stuck) && !op.OpCancel? && !op.OpAccept?
    ensures Agrees(ApplyAll(view, Recording(s, op)), Step(s, op).0, stuck)
  {
    var es := Recording(s, op);
    if |es| == 1 {
      assert ApplyAll(view, es) == Apply(view, es[0]);
    }
    if op.OpReserve? {
      assert Step(s, op).0.listings == s.listings;
    } else {
      assert Step(s, op).0.reservations == s.reservations;
    }
  }

  lemma {:induction false} ReplayAgrees(users: map<Id, UserStatus>, ops: seq<Op>)
    requires AllRecorded(ops)
    ensures Agrees(Replay(Run(Init(users), ops).log), Run(Init(users), ops), Stuck(Init(users), ops))
  {
    if ops != [] {
      var prefix, op := ops[..|ops| - 1], ops[|ops| - 1];
      ReplayAgrees(users, prefix);
      var s := Run(Init(users), prefix);
      match op {
        case OpAccept(_, _, _) => AcceptAgrees(Replay(s.log), s, op, Stuck(Init(users), prefix));
        case OpCancel(_, _) => CancelAgrees(Replay(s.log), s, op, Stuck(Init(users), prefix));
        case _ => OtherAgrees(Replay(s.log), s, op, Stuck(Init(users), prefix));
      }
      LogGrows(s, op);
      ReplayAppend(s.log, Recording(s, op));
    }
  }

  /** Whatever repository writes fail, the log rebuilds every listing status, and every reservation
      status too unless that reservation's own compensating save failed and it is still ACCEPTED:
      then, and only then, the log is wrong about it, and says PENDING. */
  lemma {:induction false} ReplayRebuilds(users: map<Id, UserStatus>, ops: seq<Op>)
    requires AllRecorded(ops)
    ensures var s, view := Run(Init(users), ops), Replay(Run(Init(users), ops).log);
            && view.listings == (map l | l in s.listings :: s.listings[l].status)
            && view.reservations.Keys == s.reservations.Keys
            && forall r :: r in s.reservations ==>
                 && (view.reservations[r] == s.reservations[r].status <==>
                     !(r in Stuck(Init(users), ops) && s.reservations[r].status == Accepted))
                 && (view.reservations[r] != s.reservations[r].status ==> view.reservations[r] == Pending)
  {
    ReplayAgrees(users, ops);
  }

  lemma {:induction false} RunAppend(s: State, a: seq<Op>, b: seq<Op>)
    ensures Run(s, a + b) == Run(Run(s, a), b)
  {
    hide Step;
    if b == [] {
      assert a + b == a;
    } else {
      RunAppend(s, a, b[..|b| - 1]);
      assert (a + b)[..|a + b| - 1] == a + b[..|b| - 1];
    }
  }

  lemma RunOne(s: State, ops: seq<Op>, op: Op)
    ensures Run(s, ops + [op]) == Step(Run(s, ops), op).0
  {
    assert (ops + [op])[..|ops|] == ops;
  }

  lemma RollbackRestores(s: State, id: Id, seller: Id, f: AcceptFaults)
    requires AcceptReservation(s, id, seller, f).1 == Err(RolledBack)
    ensures AcceptReservation(s, id, seller, f).0 == s <==> !f.saveRollback
  {
  }

  /** A rolled-back accept leaves no trace: whatever is called afterwards, users, listings, reservations and
      log are as if it had never been tried. This holds exactly if the compensating save succeeds. */
  lemma {:induction false} RolledBackAcceptLeavesNoTrace(
    users: map<Id, UserStatus>, ops: seq<Op>, id: Id, seller: Id, f: AcceptFaults)
    requires Step(Run(Init(users), ops), OpAccept(id, seller, f)).1 == Err(RolledBack)
    ensures !f.saveRollback <==>
            forall rest :: Run(Init(users), ops + [OpAccept(id, seller, f)] + rest) == Run(Init(users), ops + rest)
  {
    var s, op := Run(Init(users), ops), OpAccept(id, seller, f);
    RollbackRestores(s, id, seller, f);
    RunOne(Init(users), ops, op);
    forall rest
      ensures Run(Init(users), ops + [op] + rest) == Run(Step(s, op).0, rest)
      ensures Run(Init(users), ops + rest) == Run(s, rest)
    {
      RunAppend(Init(users), ops + [op], rest);
      RunAppend(Init(users), ops, rest);
    }
    assert ops + [op] + [] == ops + [op] && ops + [] == ops;
  }

  // ---- Runs in which the repairs fail ----

  lemma StuckOne(s: State, ops: seq<Op>, op: Op)
    ensures Stuck(s, ops + [op]) == Stuck(s, ops) + (if CompensationFails(Run(s, ops), op) then {op.id} else {})
    ensures Unrestored(s, ops + [op]) ==
            Unrestored(s, ops) +
            (if RestoreFails(Run(s, ops), op) then {Run(s, ops).reservations[op.id].listing} else {})
  {
    assert (ops + [op])[..|ops|] == ops;
  }

  /** What is stored after an undisturbed run. */
  ghost predicate Leaves(users: map<Id, UserStatus>, ops: seq<Op>, listings: map<Id, Listing>,
                         reservations: map<Id, Reservation>)
  {
    && Run(Init(users), ops).users == users
    && Run(Init(users), ops).listings == listings
    && Run(Init(users), ops).reservations == reservations
    && Stuck(Init(users), ops) == {} && Unrestored(Init(users), ops) == {} && AllRecorded(ops)
  }

  lemma OneMoreCall(users: map<Id, UserStatus>, ops: seq<Op>, op: Op)
    requires AllRecorded(ops) && Stuck(Init(users), ops) == {} && Unrestored(Init(users), ops) == {}
    requires Recorded(op) && !op.OpAccept? && !op.OpCancel?
    ensures var next := Step(Run(Init(users), ops), op).0;
            Leaves(users, ops + [op], next.listings, next.reservations) <==> next.users == users
  {
    hide Run, Stuck, Unrestored, Step, Recorded;
    RunOne(Init(users), ops, op);
    StuckOne(Init(users), ops, op);
  }

  lemma PublishedRun(seller: Id, buyer: Id, l: Id) returns (ops: seq<Op>)
    ensures Leaves(map[seller := UserActive, buyer := UserActive], ops, map[l := Listing(seller, Published)], map[])
  {
    var users := map[seller := UserActive, buyer := UserActive];
    hide Run, Stuck, Unrestored;
    NothingYet(Init(users));
    var create, publish := OpCreateListing(l, seller, false, false), OpPublish(seller, l, None, false, false);
    OneMoreCall(users, [], create);
    ops := [] + [create];
    OneMoreCall(users, ops, publish);
    ops := ops + [publish];
  }

  /** A published listing with one pending reservation. */
  lemma PendingRun(seller: Id, buyer: Id, l: Id, r: Id) returns (ops: seq<Op>)
    requires seller != buyer
    ensures Leaves(map[seller := UserActive, buyer := UserActive], ops, map[l := Listing(seller, Published)],
                   map[r := Reservation(l, buyer, seller, Pending)])
  {
    var users := map[seller := UserActive, buyer := UserActive];
    hide Run, Stuck, Unrestored;
    var before := PublishedRun(seller, buyer, l);
    var reserve := OpReserve(r, buyer, l, false, false);
    OneMoreCall(users, before, reserve);
    ops := before + [reserve];
  }

  lemma NothingYet(s: State)
    ensures Run(s, []) == s && Stuck(s, []) == {} && Unrestored(s, []) == {}
  {
  }

  /** The listing cannot be saved and the accept cannot be undone: the reservation stays ACCEPTED although
      its listing is PUBLISHED, and the log still says PENDING. */
  lemma {:induction false} FailedRollbackRun(seller: Id, buyer: Id, l: Id, r: Id) returns (ops: seq<Op>)
    requires seller != buyer
    ensures AllRecorded(ops)
    ensures var start := Init(map[seller := UserActive, buyer := UserActive]);
            var s := Run(start, ops);
            && r in s.reservations && s.reservations[r].status == Accepted
            && l in s.listings && s.listings[l].status == Published
            && Stuck(start, ops) == {r}
            && r in Replay(s.log).reservations && Replay(s.log).reservations[r] == Pending
  {
    var users := map[seller := UserActive, buyer := UserActive];
    var before := PendingRun(seller, buyer, l, r);
    var op := OpAccept(r, seller, AcceptFaults(false, true, true, false, false));
    ops := before + [op];
    hide Run, Stuck, Unrestored;
    RunOne(Init(users), before, op);
    StuckOne(Init(users), before, op);
    ReplayRebuilds(users, ops);
  }

  /** The same listing with its reservation accepted. */
  lemma AcceptedRun(seller: Id, buyer: Id, l: Id, r: Id) returns (ops: seq<Op>)
    requires seller != buyer
    ensures var start := Init(map[seller := UserActive, buyer := UserActive]);
            && Run(start, ops).listings == map[l := Listing(seller, Reserved)]
            && Run(start, ops).reservations == map[r := Reservation(l, buyer, seller, Accepted)]
            && Unrestored(start, ops) == {}
  {
    var start := Init(map[seller := UserActive, buyer := UserActive]);
    var before := PendingRun(seller, buyer, l, r);
    var accept := OpAccept(r, seller, NO_ACCEPT_FAULTS);
    ops := before + [accept];
    hide Run, Stuck, Unrestored;
    RunOne(start, before, accept);
    StuckOne(start, before, accept);
  }

  /** The accept is cancelled but the listing cannot be saved: it stays RESERVED with no reservation. */
  lemma {:induction false} FailedRestoreRun(seller: Id, buyer: Id, l: Id, r: Id) returns (ops: seq<Op>)
    requires seller != buyer
    ensures var start := Init(map[seller := UserActive, buyer := UserActive]);
            var s := Run(start, ops);
            && l in s.listings && s.listings[l].status == Reserved && !HasAccepted(s.reservations, l)
            && Unrestored(start, ops) == {l}
  {
    var start := Init(map[seller := UserActive, buyer := UserActive]);
    var before := AcceptedRun(seller, buyer, l, r);
    var cancel := OpCancel(r, CancelFaults(false, true, false, false));
    ops := before + [cancel];
    hide Run, Stuck, Unrestored;
    RunOne(start, before, cancel);
    StuckOne(start, before, cancel);
  }
}
