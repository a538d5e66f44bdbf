/** The second implementation of every workflow operation, over the in-memory domain services,
    and its agreement with the repository-backed one.
  */
module MarketplaceServices {
  import opened Common
  import opened Marketplace
  import opened MarketplaceSafety

  function ServiceCreateUser(s: State, id: Id): (State, Result<Id, Error>)
  {
    (s.(users := s.users[id := UserPending]), Ok(id))
  }

  function ServiceActivateUser(s: State, id: Id): (State, Result<Id, Error>)
  {
    if id !in s.users then (s, Err(UserNotFound))
    else if s.users[id] != UserPending then (s, Err(UserNotPending))
    else (s.(users := s.users[id := UserActive]), Ok(id))
  }

  function ServiceCreateListing(s: State, id: Id, seller: Id): (State, Result<Id, Error>)
  {
    if seller !in s.users then (s, Err(SellerNotFound))
    else if s.users[seller] != UserActive then (s, Err(SellerNotActive))
    else (s.(listings := s.listings[id := Listing(seller, Draft)], log := s.log + [ListingCreated(id, seller)]), Ok(id))
  }

  /** Unlike the repository path, the images are counted before the listing status is looked at. */
  function ServicePublish(s: State, seller: Id, id: Id, readyImages: Option<nat>): (State, Result<Id, Error>)
  {
    if seller !in s.users then (s, Err(SellerNotFound))
    else if s.users[seller] != UserActive then (s, Err(SellerNotActive))
    else if id !in s.listings then (s, Err(ListingNotFound))
    else if s.listings[id].seller != seller then (s, Err(NotListingSeller))
    else if !EnoughImages(readyImages) then (s, Err(TooFewImages))
    else if s.listings[id].status != Draft then (s, Err(CannotPublish))
    else (WithListingStatus(s, id, Published).(log := s.log + [ListingPublished(id, seller)]), Ok(id))
  }

  function ServiceReserve(s: State, id: Id, buyer: Id, listing: Id): (State, Result<Id, Error>)
  {
    if buyer !in s.users then (s, Err(BuyerNotFound))
    else if s.users[buyer] != UserActive then (s, Err(BuyerNotActive))
    else if listing !in s.listings then (s, Err(ListingNotFound))
    else
      var seller := s.listings[listing].seller;
      if seller !in s.users then (s, Err(SellerNotFound))
      else if s.users[seller] != UserActive then (s, Err(SellerNotActive))
      else if buyer == seller then (s, Err(BuyerIsSeller))
      else if s.listings[listing].status != Published then (s, Err(ListingNotPublished))
      else (s.(reservations := s.reservations[id := Reservation(listing, buyer, seller, Pending)],
               log := s.log + [ReservationCreated(id, listing, buyer)]),
            Ok(id))
  }

  /** Unlike the repository path, the listing must be PUBLISHED, or the accept is undone. */
  function ServiceAccept(s: State, id: Id, seller: Id): (State, Result<Id, Error>)
  {
    var guard := AcceptGuard(s, id, seller);
    if guard.Some? then (s, Err(guard.value))
    else
      var listing := s.reservations[id].listing;
      if listing !in s.listings || s.listings[listing].status != Published then
        (WithReservationStatus(WithReservationStatus(s, id, Accepted), id, Pending), Err(RolledBack))
      else
        (WithListingStatus(WithReservationStatus(s, id, Accepted), listing, Reserved)
         .(log := s.log + [ReservationAccepted(id, listing)] + [ListingReserved(listing, s.reservations[id].buyer)]),
         Ok(id))
  }

  function ServiceCancel(s: State, id: Id): (State, Result<Id, Error>)
  {
    if id !in s.reservations then (s, Err(ReservationNotFound))
    else
      var r := s.reservations[id];
      if r.status != Pending && r.status != Accepted then (s, Err(CannotCancel))
      else
        var cancelled := WithReservationStatus(s, id, Cancelled);
        var restored :=
          if r.status == Accepted && ShouldRestore(cancelled, r.listing) then
            WithListingStatus(cancelled, r.listing, Published)
            .(log := s.log + [ListingPublished(r.listing, s.listings[r.listing].seller)])
          else cancelled;
        (restored.(log := restored.log + [ReservationCancelled(id, r.listing)]), Ok(id))
  }

  function ServiceStep(s: State, op: Op): (State, Result<Id, Error>)
  {
    match op
    case OpCreateUser(id, _) => ServiceCreateUser(s, id)
    case OpActivateUser(id, _) => ServiceActivateUser(s, id)
    case OpCreateListing(id, seller, _, _) => ServiceCreateListing(s, id, seller)
    case OpPublish(seller, id, ready, _, _) => ServicePublish(s, seller, id, ready)
    case OpReserve(id, buyer, listing, _, _) => ServiceReserve(s, id, buyer, listing)
    case OpAccept(id, seller, _) => ServiceAccept(s, id, seller)
    case OpCancel(id, _) => ServiceCancel(s, id)
  }

  function ServiceRun(s: State, ops: seq<Op>): State
  {
    if ops == [] then s else ServiceStep(ServiceRun(s, ops[..|ops| - 1]), ops[|ops| - 1]).0
  }

  /** A created entity gets an identifier nobody has yet. */
  predicate NewId(s: State, op: Op)
  {
    match op
    case OpCreateUser(id, _) => id !in s.users
    case OpCreateListing(id, _, _, _) => id !in s.listings
    case OpReserve(id, _, _, _, _) => id !in s.reservations
    case _ => true
  }

  predicate NewIds(s: State, ops: seq<Op>)
  {
    ops == [] ||
    (NewIds(s, ops[..|ops| - 1]) && NewId(Run(s, ops[..|ops| - 1]), ops[|ops| - 1]))
  }

  /** The one call on which the two paths give different reasons for refusing. */
  predicate RefusedForTwoReasons(s: State, op: Op)
  {
    && op.OpPublish?
    && op.seller in s.users && s.users[op.seller] == UserActive
    && op.id in s.listings && s.listings[op.id].seller == op.seller
    && s.listings[op.id].status != Draft
    && !EnoughImages(op.readyImages)
  }

  /** What the repository path may rely on although it does not check it. */
  lemma AcceptableIsPublished(s: State, id: Id, seller: Id)
    requires Inv(s, {}, {}) && AcceptGuard(s, id, seller).None?
    ensures s.reservations[id].listing in s.listings
    ensures s.listings[s.reservations[id].listing].status == Published
  {
  }

  lemma SameStep(s: State, op: Op)
    requires Inv(s, {}, {}) && NoFaults(op) && NewId(s, op)
    ensures Step(s, op).0 == ServiceStep(s, op).0
    ensures Step(s, op).1.Ok? <==> ServiceStep(s, op).1.Ok?
    ensures Step(s, op).1 == ServiceStep(s, op).1 <==> !RefusedForTwoReasons(s, op)
  {
    if op.OpAccept? && AcceptGuard(s, op.id, op.seller).None? {
      AcceptableIsPublished(s, op.id, op.seller);
    }
  }

  lemma {:induction false} SameState(users: map<Id, UserStatus>, ops: seq<Op>)
    requires FaultFree(ops) && NewIds(Init(users), ops)
    ensures ServiceRun(Init(users), ops) == Run(Init(users), ops)
    ensures Inv(Run(Init(users), ops), {}, {})
  {
    hide Inv, Step, ServiceStep, NewId;
    FaultFreeInv(users, ops);
    if ops != [] {
      var prefix, op := ops[..|ops| - 1], ops[|ops| - 1];
      SameState(users, prefix);
      assert NoFaults(op);
      SameStep(Run(Init(users), prefix), op);
    }
  }

  /** In a fault-free run the two implementations cannot be told apart: same users, listings,
      reservations and event log throughout, and the next call succeeds in both or in neither,
      with the same error except on a publish that is refused for two reasons. */
  lemma {:induction false} PathsBisimulate(users: map<Id, UserStatus>, ops: seq<Op>, next: Op)
    requires FaultFree(ops) && NewIds(Init(users), ops)
    requires NoFaults(next) && NewId(Run(Init(users), ops), next)
    ensures var s, t := Run(Init(users), ops), ServiceRun(Init(users), ops);
            && s == t
            && (Step(s, next).1.Ok? <==> ServiceStep(t, next).1.Ok?)
            && (Step(s, next).1 == ServiceStep(t, next).1 <==> !RefusedForTwoReasons(s, next))
  {
    SameState(users, ops);
    SameStep(Run(Init(users), ops), next);
  }

  /** The PUBLISHED check is what separates the paths: outside fault-free runs an accept that passes
      the common guard has the same outcome in both exactly when the listing is PUBLISHED. */
  lemma AcceptAgreesIffPublished(s: State, id: Id, seller: Id)
    requires Anchored(s) && AcceptGuard(s, id, seller).None?
    ensures var op := OpAccept(id, seller, AcceptFaults(false, false, false, false, false));
            Step(s, op) == ServiceStep(s, op) <==> s.listings[s.reservations[id].listing].status == Published
  {
  }

  /** One failed restore brings that about, in any reachable state where two reservations of a
      PUBLISHED listing are PENDING: accept the first and cancel it while the restore fails, and
      only the repository path accepts the second. */
  lemma FailedRestoreSeparatesPaths(s: State, r: Id, q: Id)
    requires Inv(s, {}, {}) && r != q
    requires AcceptGuard(s, r, if r in s.reservations then s.reservations[r].seller else 0).None?
    requires AcceptGuard(s, q, if q in s.reservations then s.reservations[q].seller else 0).None?
    requires s.reservations[r].listing == s.reservations[q].listing
    ensures var accepted := Step(s, OpAccept(r, s.reservations[r].seller, NO_ACCEPT_FAULTS)).0;
            var t := Step(accepted, OpCancel(r, CancelFaults(false, true, false, false))).0;
            var op := OpAccept(q, s.reservations[q].seller, NO_ACCEPT_FAULTS);
            Step(t, op).1 == Ok(q) && ServiceStep(t, op).1 == Err(RolledBack)
  {
    AcceptableIsPublished(s, r, s.reservations[r].seller);
    var l := s.reservations[r].listing;
    var accepted := Step(s, OpAccept(r, s.reservations[r].seller, NO_ACCEPT_FAULTS)).0;
    assert accepted.listings[l].status == Reserved;
    var t := Step(accepted, OpCancel(r, CancelFaults(false, true, false, false))).0;
    assert t.reservations == s.reservations[r := s.reservations[r].(status := Cancelled)];
    forall x | x in t.reservations ensures !IsAcceptedFor(t.reservations[x], l) {
      assert !IsAcceptedFor(s.reservations[x], l);
    }
  }
}
