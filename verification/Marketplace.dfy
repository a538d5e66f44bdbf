/** The reservation/listing workflow of the marketplace service, on values.

    Every repository write is an operation parameter that may fail without effect,
    and every event recording may fail silently; a run is a sequence of operations.
  */
module Marketplace {
  import opened Common

  type Id = nat

  datatype UserStatus = UserPending | UserActive | UserSuspended | UserDeleted
  datatype ListingStatus = Draft | Published | Reserved | Sold | Archived
  datatype ReservationStatus = Pending | Accepted | Declined | Cancelled | Expired | Completed

  datatype Listing = Listing(seller: Id, status: ListingStatus)
  datatype Reservation = Reservation(listing: Id, buyer: Id, seller: Id, status: ReservationStatus)

  /** The `commerce.*` events, each with the identifiers its payload carries. */
  datatype Event =
    | ListingCreated(listing: Id, seller: Id)
    | ListingPublished(listing: Id, seller: Id)
    | ListingReserved(listing: Id, reservedBy: Id)
    | ReservationCreated(reservation: Id, listing: Id, buyer: Id)
    | ReservationAccepted(reservation: Id, listing: Id)
    | ReservationCancelled(reservation: Id, listing: Id)

  datatype State = State(
    users: map<Id, UserStatus>,
    listings: map<Id, Listing>,
    reservations: map<Id, Reservation>,
    log: seq<Event>)

  datatype Error =
    | StorageFailed
    | UserExists
    | UserNotFound
    | UserNotPending
    | SellerNotFound
    | SellerNotActive
    | BuyerNotFound
    | BuyerNotActive
    | BuyerIsSeller
    | ListingNotFound
    | NotListingSeller
    | CannotPublish
    | TooFewImages
    | ListingNotPublished
    | ReservationNotFound
    | NotReservationSeller
    | ReservationNotPending
    | AlreadyAccepted
    | RolledBack
    | CannotCancel

  /** Which writes of one `accept_reservation` call fail. */
  datatype AcceptFaults = AcceptFaults(
    saveAccepted: bool, saveListing: bool, saveRollback: bool,
    recordAccepted: bool, recordReserved: bool)

  /** Which writes of one `cancel_reservation` call fail. */
  datatype CancelFaults = CancelFaults(
    saveCancelled: bool, saveRestored: bool,
    recordPublished: bool, recordCancelled: bool)

  const NO_ACCEPT_FAULTS := AcceptFaults(false, false, false, false, false)

  const MIN_READY_IMAGES := 2

  function Record(log: seq<Event>, e: Event, fails: bool): seq<Event>
  {
    if fails then log else log + [e]
  }

  predicate IsAcceptedFor(r: Reservation, listing: Id)
  {
    r.listing == listing && r.status == Accepted
  }

  predicate HasAccepted(reservations: map<Id, Reservation>, listing: Id)
  {
    exists r :: r in reservations && IsAcceptedFor(reservations[r], listing)
  }

  function CreateUser(s: State, id: Id, addFails: bool): (State, Result<Id, Error>)
  {
    if id in s.users then (s, Err(UserExists))
    else if addFails then (s, Err(StorageFailed))
    else (s.(users := s.users[id := UserPending]), Ok(id))
  }

  function ActivateUser(s: State, id: Id, saveFails: bool): (State, Result<Id, Error>)
  {
    if id !in s.users then (s, Err(UserNotFound))
    else if s.users[id] != UserPending then (s, Err(UserNotPending))
    else if saveFails then (s, Err(StorageFailed))
    else (s.(users := s.users[id := UserActive]), Ok(id))
  }

  function CreateListing(s: State, id: Id, seller: Id, addFails: bool, recordFails: bool): (State, Result<Id, Error>)
  {
    if seller !in s.users then (s, Err(SellerNotFound))
    else if s.users[seller] != UserActive then (s, Err(SellerNotActive))
    else if addFails || id in s.listings then (s, Err(StorageFailed))
    else (s.(listings := s.listings[id := Listing(seller, Draft)],
             log := Record(s.log, ListingCreated(id, seller), recordFails)),
          Ok(id))
  }

  /** `readyImages` is what the media service answers, when one is configured. */
  predicate EnoughImages(readyImages: Option<nat>)
  {
    readyImages.Some? ==> readyImages.value >= MIN_READY_IMAGES
  }

  function PublishListing(s: State, seller: Id, id: Id, readyImages: Option<nat>, saveFails: bool, recordFails: bool)
    : (State, Result<Id, Error>)
  {
    if seller !in s.users then (s, Err(SellerNotFound))
    else if s.users[seller] != UserActive then (s, Err(SellerNotActive))
    else if id !in s.listings then (s, Err(ListingNotFound))
    else if s.listings[id].seller != seller then (s, Err(NotListingSeller))
    else if s.listings[id].status != Draft then (s, Err(CannotPublish))
    else if !EnoughImages(readyImages) then (s, Err(TooFewImages))
    else if saveFails then (s, Err(StorageFailed))
    else (s.(listings := s.listings[id := s.listings[id].(status := Published)],
             log := Record(s.log, ListingPublished(id, seller), recordFails)),
          Ok(id))
  }

  function CreateReservation(s: State, id: Id, buyer: Id, listing: Id, addFails: bool, recordFails: bool)
    : (State, Result<Id, Error>)
  {
    if buyer !in s.users then (s, Err(BuyerNotFound))
    else if s.users[buyer] != UserActive then (s, Err(BuyerNotActive))
    else if listing !in s.listings then (s, Err(ListingNotFound))
    else
      var seller := s.listings[listing].seller;
      if seller !in s.users then (s, Err(SellerNotFound))
      else if s.users[seller] != UserActive then (s, Err(SellerNotActive))
      else if buyer == seller then (s, Err(BuyerIsSeller))
      else if s.listings[listing].status != Published then (s, Err(ListingNotPublished))
      else if addFails || id in s.reservations then (s, Err(StorageFailed))
      else (s.(reservations := s.reservations[id := Reservation(listing, buyer, seller, Pending)],
               log := Record(s.log, ReservationCreated(id, listing, buyer), recordFails)),
            Ok(id))
  }

  /** The checks `accept_reservation` makes before its first write. */
  function AcceptGuard(s: State, id: Id, seller: Id): Option<Error>
  {
    if seller !in s.users then Some(SellerNotFound)
    else if s.users[seller] != UserActive then Some(SellerNotActive)
    else if id !in s.reservations then Some(ReservationNotFound)
    else if s.reservations[id].seller != seller then Some(NotReservationSeller)
    else if s.reservations[id].status != Pending then Some(ReservationNotPending)
    else if HasAccepted(s.reservations, s.reservations[id].listing) then Some(AlreadyAccepted)
    else None
  }

  function WithReservationStatus(s: State, id: Id, status: ReservationStatus): State
    requires id in s.reservations
  {
    s.(reservations := s.reservations[id := s.reservations[id].(status := status)])
  }

  function WithListingStatus(s: State, id: Id, status: ListingStatus): State
    requires id in s.listings
  {
    s.(listings := s.listings[id := s.listings[id].(status := status)])
  }

  /** Two writes with a compensating third: accept, then reserve, or undo the accept. */
  function AcceptReservation(s: State, id: Id, seller: Id, f: AcceptFaults): (State, Result<Id, Error>)
  {
    var guard := AcceptGuard(s, id, seller);
    if guard.Some? then (s, Err(guard.value))
    else if f.saveAccepted then (s, Err(StorageFailed))
    else
      var accepted := WithReservationStatus(s, id, Accepted);
      var listing := s.reservations[id].listing;
      if listing !in s.listings || f.saveListing then
        (if f.saveRollback then accepted else WithReservationStatus(accepted, id, Pending), Err(RolledBack))
      else
        var reserved := WithListingStatus(accepted, listing, Reserved);
        (reserved.(log := Record(Record(reserved.log, ReservationAccepted(id, listing), f.recordAccepted),
                                 ListingReserved(listing, s.reservations[id].buyer), f.recordReserved)),
         Ok(id))
  }

  /** The listing a cancelled ACCEPTED reservation should give back. */
  predicate ShouldRestore(s: State, listing: Id)
  {
    && !HasAccepted(s.reservations, listing)
    && listing in s.listings
    && s.listings[listing].status == Reserved
  }

  function CancelReservation(s: State, id: Id, f: CancelFaults): (State, Result<Id, Error>)
  {
    if id !in s.reservations then (s, Err(ReservationNotFound))
    else
      var r := s.reservations[id];
      if r.status != Pending && r.status != Accepted then (s, Err(CannotCancel))
      else if f.saveCancelled then (s, Err(CannotCancel))
      else
        var cancelled := WithReservationStatus(s, id, Cancelled);
        var restored :=
          if r.status == Accepted && ShouldRestore(cancelled, r.listing) && !f.saveRestored then
            var w := WithListingStatus(cancelled, r.listing, Published);
            w.(log := Record(w.log, ListingPublished(r.listing, w.listings[r.listing].seller), f.recordPublished))
          else cancelled;
        (restored.(log := Record(restored.log, ReservationCancelled(id, r.listing), f.recordCancelled)), Ok(id))
  }

  /** One call of the service. The flags name the writes that fail. */
  datatype Op =
    | OpCreateUser(id: Id, addFails: bool)
    | OpActivateUser(id: Id, saveFails: bool)
    | OpCreateListing(id: Id, seller: Id, addFails: bool, recordFails: bool)
    | OpPublish(seller: Id, id: Id, readyImages: Option<nat>, saveFails: bool, recordFails: bool)
    | OpReserve(id: Id, buyer: Id, listing: Id, addFails: bool, recordFails: bool)
    | OpAccept(id: Id, seller: Id, acceptFaults: AcceptFaults)
    | OpCancel(id: Id, cancelFaults: CancelFaults)

  function Step(s: State, op: Op): (State, Result<Id, Error>)
  {
    match op
    case OpCreateUser(id, fails) => CreateUser(s, id, fails)
    case OpActivateUser(id, fails) => ActivateUser(s, id, fails)
    case OpCreateListing(id, seller, addFails, recordFails) => CreateListing(s, id, seller, addFails, recordFails)
    case OpPublish(seller, id, ready, saveFails, recordFails) =>
      PublishListing(s, seller, id, ready, saveFails, recordFails)
    case OpReserve(id, buyer, listing, addFails, recordFails) =>
      CreateReservation(s, id, buyer, listing, addFails, recordFails)
    case OpAccept(id, seller, f) => AcceptReservation(s, id, seller, f)
    case OpCancel(id, f) => CancelReservation(s, id, f)
  }

  function Init(users: map<Id, UserStatus>): State
  {
    State(users, map[], map[], [])
  }

  function Run(s: State, ops: seq<Op>): State
  {
    if ops == [] then s else Step(Run(s, ops[..|ops| - 1]), ops[|ops| - 1]).0
  }
}

/** Safety of the workflow over every run, with any pattern of failing writes. */
module MarketplaceSafety {
  import opened Marketplace

  /** The compensating save of this call fails, so the reservation stays ACCEPTED. */
  predicate CompensationFails(s: State, op: Op)
  {
    && op.OpAccept?
    && AcceptGuard(s, op.id, op.seller).None?
    && !op.acceptFaults.saveAccepted
    && (s.reservations[op.id].listing !in s.listings || op.acceptFaults.saveListing)
    && op.acceptFaults.saveRollback
  }

  /** The best-effort restore of this call fails, so the listing stays RESERVED. */
  predicate RestoreFails(s: State, op: Op)
  {
    && op.OpCancel?
    && op.id in s.reservations
    && s.reservations[op.id].status == Accepted
    && !op.cancelFaults.saveCancelled
    && ShouldRestore(WithReservationStatus(s, op.id, Cancelled), s.reservations[op.id].listing)
    && op.cancelFaults.saveRestored
  }

  /** This accept leaves an ACCEPTED reservation behind, whether or not it reports success. */
  predicate Accepts(s: State, op: Op)
  {
    && op.OpAccept?
    && AcceptGuard(s, op.id, op.seller).None?
    && (AcceptReservation(s, op.id, op.seller, op.acceptFaults).1.Ok? || CompensationFails(s, op))
  }

  /** This cancel takes back an ACCEPTED reservation. */
  predicate Releases(s: State, op: Op)
  {
    && op.OpCancel?
    && op.id in s.reservations
    && s.reservations[op.id].status == Accepted
    && !op.cancelFaults.saveCancelled
  }

  predicate IsReserved(s: State, l: Id)
  {
    l in s.listings && s.listings[l].status == Reserved
  }

  /** This accept can neither reserve its listing, which is not RESERVED yet, nor be undone. */
  predicate Exposes(s: State, op: Op)
  {
    CompensationFails(s, op) && !IsReserved(s, s.reservations[op.id].listing)
  }

  // ---- What a run has failed to repair ----

  /** Reservations whose compensating save failed at some point of the run. */
  function Stuck(s: State, ops: seq<Op>): set<Id>
  {
    if ops == [] then {}
    else
      var before, op := Run(s, ops[..|ops| - 1]), ops[|ops| - 1];
      Stuck(s, ops[..|ops| - 1]) + (if CompensationFails(before, op) then {op.id} else {})
  }

  /** Listings whose restore failed at some point of the run. */
  function Unrestored(s: State, ops: seq<Op>): set<Id>
  {
    if ops == [] then {}
    else
      var before, op := Run(s, ops[..|ops| - 1]), ops[|ops| - 1];
      Unrestored(s, ops[..|ops| - 1]) +
      (if RestoreFails(before, op) then {before.reservations[op.id].listing} else {})
  }

  /** The reservations of the accepts that expose their listing. */
  function Exposed(s: State, ops: seq<Op>): set<Id>
  {
    if ops == [] then {}
    else
      var before, op := Run(s, ops[..|ops| - 1]), ops[|ops| - 1];
      Exposed(s, ops[..|ops| - 1]) + (if Exposes(before, op) then {op.id} else {})
  }

  /** A failed restore orphans a listing until a reservation of it is accepted. */
  function Orphans(s: State, op: Op, orphaned: set<Id>): set<Id>
  {
    if RestoreFails(s, op) then orphaned + {s.reservations[op.id].listing}
    else if Accepts(s, op) then orphaned - {s.reservations[op.id].listing}
    else orphaned
  }

  function Orphaned(s: State, ops: seq<Op>): set<Id>
  {
    if ops == [] then {}
    else Orphans(Run(s, ops[..|ops| - 1]), ops[|ops| - 1], Orphaned(s, ops[..|ops| - 1]))
  }

  // ---- What every state keeps ----

  ghost predicate OneAccepted(s: State)
  {
    forall r, q :: r in s.reservations && q in s.reservations && r != q
                   && s.reservations[r].status == Accepted && s.reservations[q].status == Accepted
                   ==> s.reservations[r].listing != s.reservations[q].listing
  }

  /** A reservation belongs to a listing that has been published, and to that listing's seller. */
  ghost predicate Anchored(s: State)
  {
    forall r :: r in s.reservations ==>
      && s.reservations[r].listing in s.listings
      && s.listings[s.reservations[r].listing].status in {Published, Reserved}
      && s.listings[s.reservations[r].listing].seller == s.reservations[r].seller
  }

  /** Among the ACCEPTED reservations, `exposed` are those whose listing is not RESERVED. */
  ghost predicate ExposedAre(s: State, exposed: set<Id>)
  {
    && (forall r :: r in s.reservations && s.reservations[r].status == Accepted ==>
          (!IsReserved(s, s.reservations[r].listing) <==> r in exposed))
    && (forall r :: r in exposed ==> r in s.reservations && s.reservations[r].status != Pending)
  }

  /** `orphaned` are the RESERVED listings without an ACCEPTED reservation. */
  ghost predicate OrphanedAre(s: State, orphaned: set<Id>)
  {
    forall l :: IsReserved(s, l) && !HasAccepted(s.reservations, l) <==> l in orphaned
  }

  ghost predicate Inv(s: State, exposed: set<Id>, orphaned: set<Id>)
  {
    OneAccepted(s) && Anchored(s) && ExposedAre(s, exposed) && OrphanedAre(s, orphaned)
  }

  // ---- What one call does to one reservation and to one listing ----

  lemma StatusAfter(s: State, op: Op, r: Id)
    requires r in s.reservations
    ensures var t := Step(s, op).0;
            && r in t.reservations && t.reservations[r] == s.reservations[r].(status := t.reservations[r].status)
            && (s.reservations[r].status != Pending ==> t.reservations[r].status != Pending)
            && (t.reservations[r].status == Accepted <==>
                if Accepts(s, op) && op.id == r then true
                else s.reservations[r].status == Accepted && !(Releases(s, op) && op.id == r))
  {
  }

  lemma NewReservation(s: State, op: Op, r: Id)
    requires r in Step(s, op).0.reservations && r !in s.reservations
    ensures var reservation := Step(s, op).0.reservations[r];
            && reservation.status == Pending && reservation.listing in s.listings
            && s.listings[reservation.listing] == Listing(reservation.seller, Published)
  {
  }

  lemma ReservedAfter(s: State, op: Op, l: Id)
    ensures IsReserved(Step(s, op).0, l) <==>
            if Accepts(s, op) && !CompensationFails(s, op) && s.reservations[op.id].listing == l then true
            else IsReserved(s, l) &&
                 !(Releases(s, op) && s.reservations[op.id].listing == l && !op.cancelFaults.saveRestored
                   && !HasAccepted(WithReservationStatus(s, op.id, Cancelled).reservations, l))
  {
  }

  lemma ReleaseCancels(s: State, op: Op)
    requires Releases(s, op)
    ensures Step(s, op).0.reservations == WithReservationStatus(s, op.id, Cancelled).reservations
  {
  }

  lemma ListingStays(s: State, op: Op, l: Id)
    requires l in s.listings && s.listings[l].status in {Published, Reserved}
    ensures var t := Step(s, op).0;
            l in t.listings && t.listings[l].status in {Published, Reserved} &&
            t.listings[l].seller == s.listings[l].seller
  {
  }

  lemma AcceptsPending(s: State, op: Op)
    ensures Accepts(s, op) ==> op.id in s.reservations && s.reservations[op.id].status == Pending
    ensures CompensationFails(s, op) ==> Accepts(s, op)
    ensures !(Accepts(s, op) && Releases(s, op))
  {
  }

  /** A listing with an ACCEPTED reservation takes no other, and gives back none but that one. */
  lemma OthersWait(s: State, op: Op, r: Id)
    requires OneAccepted(s) && r in s.reservations && s.reservations[r].status == Accepted
    ensures Accepts(s, op) ==> s.reservations[op.id].listing != s.reservations[r].listing
    ensures Releases(s, op) && op.id != r ==> s.reservations[op.id].listing != s.reservations[r].listing
  {
    assert IsAcceptedFor(s.reservations[r], s.reservations[r].listing);
  }

  lemma AcceptedAfter(s: State, op: Op, l: Id)
    requires OneAccepted(s)
    ensures HasAccepted(Step(s, op).0.reservations, l) <==>
            || (Accepts(s, op) && s.reservations[op.id].listing == l)
            || (HasAccepted(s.reservations, l) && !(Releases(s, op) && s.reservations[op.id].listing == l))
  {
    var t := Step(s, op).0;
    AcceptsPending(s, op);
    hide Step, Accepts, OneAccepted, CompensationFails;
    if HasAccepted(s.reservations, l) {
      var r :| r in s.reservations && IsAcceptedFor(s.reservations[r], l);
      StatusAfter(s, op, r);
      OthersWait(s, op, r);
      assert !Releases(s, op) || op.id != r ==> IsAcceptedFor(t.reservations[r], l);
    }
    if Accepts(s, op) {
      StatusAfter(s, op, op.id);
      assert IsAcceptedFor(t.reservations[op.id], s.reservations[op.id].listing);
    }
    if HasAccepted(t.reservations, l) {
      var r :| r in t.reservations && IsAcceptedFor(t.reservations[r], l);
      WasAccepted(s, op, r);
      if s.reservations[r].status == Accepted {
        OthersWait(s, op, r);
        assert IsAcceptedFor(s.reservations[r], l);
      }
    }
  }

  /** An ACCEPTED reservation was so before, or is accepted by this very call. */
  lemma WasAccepted(s: State, op: Op, r: Id)
    requires r in Step(s, op).0.reservations && Step(s, op).0.reservations[r].status == Accepted
    ensures r in s.reservations && Step(s, op).0.reservations[r].listing == s.reservations[r].listing
    ensures if s.reservations[r].status == Accepted then !(Releases(s, op) && op.id == r)
            else Accepts(s, op) && op.id == r
  {
    hide Step, Accepts, Releases;
    if r in s.reservations {
      StatusAfter(s, op, r);
      AcceptsPending(s, op);
    } else {
      NewReservation(s, op, r);
      assert false;
    }
  }

  // ---- What every call keeps ----

  lemma KeepsOneAccepted(s: State, op: Op)
    requires OneAccepted(s)
    ensures OneAccepted(Step(s, op).0)
  {
    var t := Step(s, op).0;
    hide Step, Accepts, Releases;
    forall r, q | r in t.reservations && q in t.reservations && r != q
                  && t.reservations[r].status == Accepted && t.reservations[q].status == Accepted
      ensures t.reservations[r].listing != t.reservations[q].listing
    {
      WasAccepted(s, op, r);
      WasAccepted(s, op, q);
      if s.reservations[r].status == Accepted {
        OthersWait(s, op, r);
      } else {
        OthersWait(s, op, q);
      }
    }
  }

  lemma KeepsAnchored(s: State, op: Op)
    requires Anchored(s)
    ensures Anchored(Step(s, op).0)
  {
    var t := Step(s, op).0;
    hide Step, Accepts, Releases;
    forall r | r in t.reservations
      ensures t.reservations[r].listing in t.listings
      ensures t.listings[t.reservations[r].listing].status in {Published, Reserved}
      ensures t.listings[t.reservations[r].listing].seller == t.reservations[r].seller
    {
      if r in s.reservations {
        StatusAfter(s, op, r);
      } else {
        NewReservation(s, op, r);
      }
      ListingStays(s, op, t.reservations[r].listing);
    }
  }

  lemma KeepsExposed(s: State, op: Op, exposed: set<Id>)
    requires OneAccepted(s) && ExposedAre(s, exposed)
    ensures ExposedAre(Step(s, op).0, exposed + (if Exposes(s, op) then {op.id} else {}))
  {
    var t := Step(s, op).0;
    hide Step, Accepts, Releases, OneAccepted, HasAccepted;
    AcceptsPending(s, op);
    forall r | r in t.reservations && t.reservations[r].status == Accepted
      ensures !IsReserved(t, t.reservations[r].listing) <==>
              r in exposed + (if Exposes(s, op) then {op.id} else {})
    {
      WasAccepted(s, op, r);
      ReservedAfter(s, op, s.reservations[r].listing);
      if s.reservations[r].status == Accepted {
        OthersWait(s, op, r);
      }
    }
    forall r | r in exposed + (if Exposes(s, op) then {op.id} else {})
      ensures r in t.reservations && t.reservations[r].status != Pending
    {
      StatusAfter(s, op, r);
    }
  }

  lemma KeepsOrphaned(s: State, op: Op, orphaned: set<Id>)
    requires OneAccepted(s) && OrphanedAre(s, orphaned)
    ensures OrphanedAre(Step(s, op).0, Orphans(s, op, orphaned))
  {
    hide Step, OneAccepted, Accepts;
    AcceptsPending(s, op);
    if Releases(s, op) {
      ReleaseCancels(s, op);
    }
    forall l
      ensures IsReserved(Step(s, op).0, l) && !HasAccepted(Step(s, op).0.reservations, l) <==>
              l in Orphans(s, op, orphaned)
    {
      AcceptedAfter(s, op, l);
      ReservedAfter(s, op, l);
    }
  }

  lemma {:induction false} RunInv(users: map<Id, UserStatus>, ops: seq<Op>)
    ensures Inv(Run(Init(users), ops), Exposed(Init(users), ops), Orphaned(Init(users), ops))
  {
    if ops != [] {
      var s, op := Run(Init(users), ops[..|ops| - 1]), ops[|ops| - 1];
      RunInv(users, ops[..|ops| - 1]);
      KeepsOneAccepted(s, op);
      KeepsAnchored(s, op);
      KeepsExposed(s, op, Exposed(Init(users), ops[..|ops| - 1]));
      KeepsOrphaned(s, op, Orphaned(Init(users), ops[..|ops| - 1]));
      hide Step, OneAccepted, Anchored, ExposedAre, OrphanedAre;
    }
  }

  /** Whatever fails, no listing ever has two ACCEPTED reservations. */
  lemma {:induction false} NeverTwoAccepted(users: map<Id, UserStatus>, ops: seq<Op>, r: Id, q: Id)
    requires var s := Run(Init(users), ops);
             && r in s.reservations && s.reservations[r].status == Accepted
             && q in s.reservations && s.reservations[q].status == Accepted
             && s.reservations[r].listing == s.reservations[q].listing
    ensures r == q
  {
    RunInv(users, ops);
  }

  /** Whatever fails: an ACCEPTED reservation's listing is not RESERVED exactly if its accept could neither
      reserve the listing nor be undone, and a RESERVED listing has no ACCEPTED reservation exactly if a
      restore of it failed and no reservation of it was accepted since. */
  lemma {:induction false} MismatchIff(users: map<Id, UserStatus>, ops: seq<Op>)
    ensures var s := Run(Init(users), ops);
            && (forall r :: r in s.reservations && s.reservations[r].status == Accepted ==>
                  && s.reservations[r].listing in s.listings
                  && (s.listings[s.reservations[r].listing].status != Reserved <==> r in Exposed(Init(users), ops)))
            && (forall l :: l in s.listings ==>
                  (s.listings[l].status == Reserved && !HasAccepted(s.reservations, l) <==>
                   l in Orphaned(Init(users), ops)))
  {
    RunInv(users, ops);
    hide Run, Exposed, Orphaned;
  }

  /** Each such failure is a failed repair. */
  lemma {:induction false} MismatchIsFailedRepair(s: State, ops: seq<Op>)
    ensures Exposed(s, ops) <= Stuck(s, ops) && Orphaned(s, ops) <= Unrestored(s, ops)
  {
    if ops != [] {
      MismatchIsFailedRepair(s, ops[..|ops| - 1]);
      hide Run, CompensationFails, RestoreFails, Accepts;
    }
  }

  predicate NoFaults(op: Op)
  {
    match op
    case OpCreateUser(_, fails) => !fails
    case OpActivateUser(_, fails) => !fails
    case OpCreateListing(_, _, addFails, recordFails) => !addFails && !recordFails
    case OpPublish(_, _, _, saveFails, recordFails) => !saveFails && !recordFails
    case OpReserve(_, _, _, addFails, recordFails) => !addFails && !recordFails
    case OpAccept(_, _, f) => f == NO_ACCEPT_FAULTS
    case OpCancel(_, f) => f == CancelFaults(false, false, false, false)
  }

  /** No write of the run fails. */
  predicate FaultFree(ops: seq<Op>)
  {
    forall i :: 0 <= i < |ops| ==> NoFaults(ops[i])
  }

  lemma {:induction false} FaultFreeNeedsNoRepair(users: map<Id, UserStatus>, ops: seq<Op>)
    requires FaultFree(ops)
    ensures Stuck(Init(users), ops) == {} && Unrestored(Init(users), ops) == {}
  {
    if ops != [] {
      var prefix, op := ops[..|ops| - 1], ops[|ops| - 1];
      FaultFreeNeedsNoRepair(users, prefix);
      RunInv(users, prefix);
      assert NoFaults(op);
    }
  }

  lemma {:induction false} FaultFreeInv(users: map<Id, UserStatus>, ops: seq<Op>)
    requires FaultFree(ops)
    ensures Inv(Run(Init(users), ops), {}, {})
  {
    hide Run, Inv, Stuck, Unrestored, Exposed, Orphaned;
    RunInv(users, ops);
    FaultFreeNeedsNoRepair(users, ops);
    MismatchIsFailedRepair(Init(users), ops);
    assert Exposed(Init(users), ops) == {} && Orphaned(Init(users), ops) == {};
  }

  /** Without failures a listing is RESERVED exactly when it has one ACCEPTED reservation. */
  lemma {:induction false} ReservedIffOneAccepted(users: map<Id, UserStatus>, ops: seq<Op>, l: Id)
    requires FaultFree(ops) && l in Run(Init(users), ops).listings
    ensures var s := Run(Init(users), ops);
            s.listings[l].status == Reserved <==>
            |set r | r in s.reservations && IsAcceptedFor(s.reservations[r], l)| == 1
  {
    FaultFreeInv(users, ops);
    var s := Run(Init(users), ops);
    var accepted := set r | r in s.reservations && IsAcceptedFor(s.reservations[r], l);
    if s.listings[l].status == Reserved {
      assert IsReserved(s, l);
      var r :| r in s.reservations && IsAcceptedFor(s.reservations[r], l);
      assert accepted == {r};
    }
  }
}
