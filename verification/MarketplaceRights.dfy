/** Who may do what, over every run, read off the stored users, listings and reservations. */
module MarketplaceRights {
  import opened Common
  import opened Marketplace
  import opened MarketplaceSafety
  import opened MarketplaceServices

  predicate IsActive(s: State, user: Id)
  {
    user in s.users && s.users[user] == UserActive
  }

  /** `seller` is active and sells listing `l`, which has status `status`. */
  predicate Sells(s: State, seller: Id, l: Id, status: ListingStatus)
  {
    IsActive(s, seller) && l in s.listings && s.listings[l] == Listing(seller, status)
  }

  /** The active seller of the listing itself accepts a PENDING reservation of it, and no reservation of the
      listing is ACCEPTED already. */
  ghost predicate MayAccept(s: State, id: Id, seller: Id)
  {
    && IsActive(s, seller)
    && id in s.reservations && s.reservations[id].status == Pending
    && s.reservations[id].listing in s.listings && s.listings[s.reservations[id].listing].seller == seller
    && forall q :: q in s.reservations && s.reservations[q].listing == s.reservations[id].listing ==>
         s.reservations[q].status != Accepted
  }

  /** Over every run: exactly such an accept succeeds when its writes do; it changes this reservation and its
      listing and nothing else. */
  lemma {:induction false} AcceptedIff(users: map<Id, UserStatus>, ops: seq<Op>, id: Id, seller: Id, f: AcceptFaults)
    ensures var s := Run(Init(users), ops);
            var (t, r) := Step(s, OpAccept(id, seller, f));
            && (r.Ok? <==> MayAccept(s, id, seller) && !f.saveAccepted && !f.saveListing)
            && (r.Ok? ==>
                  var l := s.reservations[id].listing;
                  && r == Ok(id) && t.users == s.users
                  && t.reservations == s.reservations[id := s.reservations[id].(status := Accepted)]
                  && t.listings == s.listings[l := Listing(seller, Reserved)])
  {
    hide Run;
    RunInv(users, ops);
    var s := Run(Init(users), ops);
    if id in s.reservations {
      assert HasAccepted(s.reservations, s.reservations[id].listing) <==>
             !forall q :: q in s.reservations && s.reservations[q].listing == s.reservations[id].listing ==>
                s.reservations[q].status != Accepted by {
        HasAcceptedIff(s, s.reservations[id].listing);
      }
    }
    hide OneAccepted, ExposedAre, OrphanedAre, HasAccepted;
  }

  lemma HasAcceptedIff(s: State, l: Id)
    ensures HasAccepted(s.reservations, l) <==>
            !forall q :: q in s.reservations && s.reservations[q].listing == l ==>
               s.reservations[q].status != Accepted
  {
    if q :| q in s.reservations && s.reservations[q].listing == l && s.reservations[q].status == Accepted {
      assert IsAcceptedFor(s.reservations[q], l);
    }
  }

  /** A listing is published exactly by its own active seller, from DRAFT, with at least two ready images
      where a media service counts them. */
  lemma PublishedIff(s: State, seller: Id, id: Id, readyImages: Option<nat>, saveFails: bool, recordFails: bool)
    ensures var (t, r) := Step(s, OpPublish(seller, id, readyImages, saveFails, recordFails));
            && (r.Ok? <==> Sells(s, seller, id, Draft) && !saveFails &&
                           (readyImages.Some? ==> readyImages.value > 1))
            && (r.Ok? ==> t.listings == s.listings[id := Listing(seller, Published)]
                          && t.users == s.users && t.reservations == s.reservations)
  {
  }

  /** A reservation is made exactly by an active user of a PUBLISHED listing whose seller is active and
      somebody else. */
  lemma ReservedIff(s: State, id: Id, buyer: Id, l: Id, addFails: bool, recordFails: bool)
    ensures var (t, r) := Step(s, OpReserve(id, buyer, l, addFails, recordFails));
            && (r.Ok? <==> && IsActive(s, buyer) && !addFails && id !in s.reservations
                           && exists seller :: seller != buyer && Sells(s, seller, l, Published))
            && (r.Ok? ==> t.users == s.users && t.listings == s.listings &&
                          t.reservations ==
                          s.reservations[id := Reservation(l, buyer, s.listings[l].seller, Pending)])
  {
    if l in s.listings {
      var seller := s.listings[l].seller;
      assert seller != buyer && IsActive(s, seller) && s.listings[l].status == Published ==>
          Sells(s, seller, l, Published);
    }
  }

  /** Over every run: a PENDING or ACCEPTED reservation is cancelled, by whoever asks. The listing of an ACCEPTED
      one goes back to PUBLISHED exactly if it is RESERVED and can be saved. */
  lemma {:induction false} CancelledIff(users: map<Id, UserStatus>, ops: seq<Op>, id: Id, f: CancelFaults)
    ensures var s := Run(Init(users), ops);
            var (t, r) := Step(s, OpCancel(id, f));
            && (r.Ok? <==> && id in s.reservations && s.reservations[id].status in {Pending, Accepted}
                           && !f.saveCancelled)
            && (r.Ok? ==>
                  var before := s.reservations[id];
                  before.listing in s.listings &&
                  var back := before.status == Accepted && s.listings[before.listing].status == Reserved
                              && !f.saveRestored;
                  && t.users == s.users
                  && t.reservations == s.reservations[id := before.(status := Cancelled)]
                  && t.listings == if back then s.listings[before.listing := Listing(before.seller, Published)]
                                   else s.listings)
  {
    RunInv(users, ops);
    hide Run, Exposed, Orphaned;
    var s := Run(Init(users), ops);
    if id in s.reservations && s.reservations[id].status == Accepted {
      NoOtherAccepted(s, id);
    }
    hide OneAccepted, ExposedAre, OrphanedAre, HasAccepted;
  }

  lemma NoOtherAccepted(s: State, id: Id)
    requires OneAccepted(s) && id in s.reservations && s.reservations[id].status == Accepted
    ensures !HasAccepted(WithReservationStatus(s, id, Cancelled).reservations, s.reservations[id].listing)
  {
  }

  /** Users become ACTIVE only from PENDING, and only active users make listings, which start as DRAFT. */
  lemma UsersAndListings(s: State, id: Id, seller: Id, fails: bool, recordFails: bool)
    ensures var (t, r) := Step(s, OpCreateUser(id, fails));
            && (r.Ok? <==> id !in s.users && !fails) && (r.Ok? ==> t == s.(users := s.users[id := UserPending]))
    ensures var (t, r) := Step(s, OpActivateUser(id, fails));
            && (r.Ok? <==> id in s.users && s.users[id] == UserPending && !fails)
            && (r.Ok? ==> t == s.(users := s.users[id := UserActive]))
    ensures var (t, r) := Step(s, OpCreateListing(id, seller, fails, recordFails));
            && (r.Ok? <==> IsActive(s, seller) && id !in s.listings && !fails)
            && (r.Ok? ==> t.listings == s.listings[id := Listing(seller, Draft)]
                          && t.users == s.users && t.reservations == s.reservations)
  {
  }

  /** A call that is refused or fails changes nothing, except an accept that cannot be undone. */
  lemma RefusedChangesNothing(s: State, op: Op)
    requires Step(s, op).1.Err?
    ensures Step(s, op).0 ==
            if CompensationFails(s, op)
            then s.(reservations := s.reservations[op.id := s.reservations[op.id].(status := Accepted)])
            else s
  {
  }

  /** The events a successful call records, with what they carry: what was created or changed, and by whom. */
  lemma EventsOf(s: State, op: Op)
    requires Step(s, op).1.Ok?
    ensures var before, after := s.log, Step(s, op).0.log;
            match op
            case OpCreateUser(_, _) => after == before
            case OpActivateUser(_, _) => after == before
            case OpCreateListing(id, seller, _, lost) =>
              after == before + if lost then [] else [ListingCreated(id, seller)]
            case OpPublish(seller, id, _, _, lost) =>
              after == before + if lost then [] else [ListingPublished(id, seller)]
            case OpReserve(id, buyer, l, _, lost) =>
              after == before + if lost then [] else [ReservationCreated(id, l, buyer)]
            case OpAccept(id, _, f) =>
              var r := s.reservations[id];
              after == before + (if f.recordAccepted then [] else [ReservationAccepted(id, r.listing)])
                              + (if f.recordReserved then [] else [ListingReserved(r.listing, r.buyer)])
            case OpCancel(id, f) =>
              var l := s.reservations[id].listing;
              var back := l in s.listings && Step(s, op).0.listings[l] != s.listings[l];
              after == before
                       + (if back && !f.recordPublished then [ListingPublished(l, s.listings[l].seller)] else [])
                       + (if f.recordCancelled then [] else [ReservationCancelled(id, l)])
  {
  }

  // ---- Both implementations ----

  /** Who may make which call. */
  ghost predicate May(s: State, op: Op)
  {
    match op
    case OpCreateUser(id, _) => id !in s.users
    case OpActivateUser(id, _) => id in s.users && s.users[id] == UserPending
    case OpCreateListing(id, seller, _, _) => IsActive(s, seller) && id !in s.listings
    case OpPublish(seller, id, ready, _, _) => Sells(s, seller, id, Draft) && (ready.Some? ==> ready.value > 1)
    case OpReserve(id, buyer, l, _, _) =>
      && IsActive(s, buyer) && id !in s.reservations
      && exists seller :: seller != buyer && Sells(s, seller, l, Published)
    case OpAccept(id, seller, _) => MayAccept(s, id, seller)
    case OpCancel(id, _) => id in s.reservations && s.reservations[id].status in {Pending, Accepted}
  }

  /** After a fault-free run, the next call succeeds in either implementation exactly if its caller may make it. */
  lemma {:induction false} BothGrantTheSame(users: map<Id, UserStatus>, ops: seq<Op>, next: Op)
    requires FaultFree(ops) && NewIds(Init(users), ops)
    requires NoFaults(next) && NewId(Run(Init(users), ops), next)
    ensures var s := Run(Init(users), ops);
            && (Step(s, next).1.Ok? <==> May(s, next))
            && (ServiceStep(ServiceRun(Init(users), ops), next).1.Ok? <==> May(s, next))
  {
    PathsBisimulate(users, ops, next);
    var s := Run(Init(users), ops);
    hide Run, ServiceRun, Step, ServiceStep, NewIds, FaultFree, NewId, MayAccept;
    match next
    case OpCreateUser(id, fails) => UsersAndListings(s, id, 0, fails, false);
    case OpActivateUser(id, fails) => UsersAndListings(s, id, 0, fails, false);
    case OpCreateListing(id, seller, fails, lost) => UsersAndListings(s, id, seller, fails, lost);
    case OpPublish(seller, id, ready, fails, lost) => PublishedIff(s, seller, id, ready, fails, lost);
    case OpReserve(id, buyer, l, fails, lost) => ReservedIff(s, id, buyer, l, fails, lost);
    case OpAccept(id, seller, f) => AcceptedIff(users, ops, id, seller, f);
    case OpCancel(id, f) => CancelledIff(users, ops, id, f);
  }
}
