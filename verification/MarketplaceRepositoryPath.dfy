/** `MarketplaceService` over repositories, as the objects that change. */
module MarketplaceRepositoryPath {
  import opened Common
  import opened Marketplace

  /** `_MemoryRepository`: a dictionary and the insertion order of its keys.
      `fails` makes a write raise without effect. */
  class MemoryRepository<T> {
    var store: map<Id, T>
    var order: seq<Id>

    ghost predicate Valid()
      reads this
    {
      && Distinct(order)
      && forall id :: id in order <==> id in store
    }

    constructor ()
      ensures Valid() && store == map[]
    {
      store, order := map[], [];
    }

    method Add(id: Id, entity: T, fails: bool) returns (ok: bool)
      requires Valid()
      modifies this
      ensures Valid()
      ensures ok <==> !fails && id !in old(store)
      ensures store == if ok then old(store)[id := entity] else old(store)
      ensures order == if ok then old(order) + [id] else old(order)
    {
      if fails || id in store {
        return false;
      }
      store := store[id := entity];
      order := order + [id];
      return true;
    }

    method Get(id: Id) returns (entity: Option<T>)
      ensures entity == if id in store then Some(store[id]) else None
    {
      entity := if id in store then Some(store[id]) else None;
    }

    method Save(id: Id, entity: T, fails: bool) returns (ok: bool)
      requires Valid()
      modifies this
      ensures Valid() && order == old(order)
      ensures ok <==> !fails && id in old(store)
      ensures store == if ok then old(store)[id := entity] else old(store)
    {
      if fails || id !in store {
        return false;
      }
      store := store[id := entity];
      return true;
    }

    /** All entities, oldest first. */
    method All() returns (entities: seq<T>)
      requires Valid()
      ensures |entities| == |order|
      ensures forall i :: 0 <= i < |order| ==> order[i] in store && entities[i] == store[order[i]]
    {
      entities := [];
      for i := 0 to |order|
        invariant |entities| == i
        invariant forall k :: 0 <= k < i ==> order[k] in store && entities[k] == store[order[k]]
      {
        assert order[i] in order;
        entities := entities + [store[order[i]]];
      }
    }
  }

  class RepositoryMarketplace {
    const users: MemoryRepository<UserStatus>
    const listings: MemoryRepository<Listing>
    const reservations: MemoryRepository<Reservation>
    var log: seq<Event>

    ghost predicate Valid()
      reads this, users, listings, reservations
    {
      && users.Valid() && listings.Valid() && reservations.Valid()
      && users as object != listings && users as object != reservations && listings as object != reservations
    }

    ghost function Model(): State
      reads this, users, listings, reservations
    {
      State(users.store, listings.store, reservations.store, log)
    }

    constructor ()
      ensures Valid() && Model() == Init(map[])
      ensures fresh(users) && fresh(listings) && fresh(reservations)
    {
      users := new MemoryRepository();
      listings := new MemoryRepository();
      reservations := new MemoryRepository();
      log := [];
    }

    method RecordEvent(e: Event, fails: bool)
      modifies this
      ensures log == Record(old(log), e, fails)
    {
      if !fails {
        log := log + [e];
      }
    }

    method CreateUser(id: Id, addFails: bool) returns (r: Result<Id, Error>)
      requires Valid()
      modifies users
      ensures Valid() && (Model(), r) == Marketplace.CreateUser(old(Model()), id, addFails)
    {
      var duplicate := users.Get(id);
      var ok := users.Add(id, UserPending, addFails);
      if !ok {
        return Err(if duplicate.Some? then UserExists else StorageFailed);
      }
      return Ok(id);
    }

    method ActivateUser(id: Id, saveFails: bool) returns (r: Result<Id, Error>)
      requires Valid()
      modifies users
      ensures Valid() && (Model(), r) == Marketplace.ActivateUser(old(Model()), id, saveFails)
    {
      var user := users.Get(id);
      if user.None? {
        return Err(UserNotFound);
      }
      if user.value != UserPending {
        return Err(UserNotPending);
      }
      var ok := users.Save(id, UserActive, saveFails);
      return if ok then Ok(id) else Err(StorageFailed);
    }

    method CreateListing(id: Id, sellerId: Id, addFails: bool, recordFails: bool) returns (r: Result<Id, Error>)
      requires Valid()
      modifies this, listings
      ensures Valid() && (Model(), r) == Marketplace.CreateListing(old(Model()), id, sellerId, addFails, recordFails)
    {
      var seller := users.Get(sellerId);
      if seller.None? {
        return Err(SellerNotFound);
      }
      if seller.value != UserActive {
        return Err(SellerNotActive);
      }
      var ok := listings.Add(id, Listing(sellerId, Draft), addFails);
      if !ok {
        return Err(StorageFailed);
      }
      RecordEvent(ListingCreated(id, sellerId), recordFails);
      return Ok(id);
    }

    method PublishListing(sellerId: Id, id: Id, readyImages: Option<nat>, saveFails: bool, recordFails: bool)
      returns (r: Result<Id, Error>)
      requires Valid()
      modifies this, listings
      ensures Valid()
      ensures (Model(), r) ==
              Marketplace.PublishListing(old(Model()), sellerId, id, readyImages, saveFails, recordFails)
    {
      var seller := users.Get(sellerId);
      if seller.None? {
        return Err(SellerNotFound);
      }
      if seller.value != UserActive {
        return Err(SellerNotActive);
      }
      var listing := listings.Get(id);
      if listing.None? {
        return Err(ListingNotFound);
      }
      if listing.value.seller != sellerId {
        return Err(NotListingSeller);
      }
      if listing.value.status != Draft {
        return Err(CannotPublish);
      }
      if readyImages.Some? && readyImages.value < MIN_READY_IMAGES {
        return Err(TooFewImages);
      }
      var candidate := listing.value.(status := Published);
      var ok := listings.Save(id, candidate, saveFails);
      if !ok {
        return Err(StorageFailed);
      }
      RecordEvent(ListingPublished(id, candidate.seller), recordFails);
      return Ok(id);
    }

    method CreateReservation(id: Id, buyerId: Id, listingId: Id, addFails: bool, recordFails: bool)
      returns (r: Result<Id, Error>)
      requires Valid()
      modifies this, reservations
      ensures Valid()
      ensures (Model(), r) == Marketplace.CreateReservation(old(Model()), id, buyerId, listingId, addFails, recordFails)
    {
      var buyer := users.Get(buyerId);
      if buyer.None? {
        return Err(BuyerNotFound);
      }
      if buyer.value != UserActive {
        return Err(BuyerNotActive);
      }
      var listing := listings.Get(listingId);
      if listing.None? {
        return Err(ListingNotFound);
      }
      var seller := users.Get(listing.value.seller);
      if seller.None? {
        return Err(SellerNotFound);
      }
      if seller.value != UserActive {
        return Err(SellerNotActive);
      }
      if buyerId == listing.value.seller {
        return Err(BuyerIsSeller);
      }
      if listing.value.status != Published {
        return Err(ListingNotPublished);
      }
      var ok := reservations.Add(id, Reservation(listingId, buyerId, listing.value.seller, Pending), addFails);
      if !ok {
        return Err(StorageFailed);
      }
      RecordEvent(ReservationCreated(id, listingId, buyerId), recordFails);
      return Ok(id);
    }

    /** The scan over all reservations for one ACCEPTED on `listingId`. */
    method FindAccepted(listingId: Id) returns (found: bool)
      requires Valid()
      ensures found <==> HasAccepted(reservations.store, listingId)
    {
      var all := reservations.All();
      found := false;
      for i := 0 to |all|
        invariant found <==> exists k :: 0 <= k < i && IsAcceptedFor(all[k], listingId)
      {
        if all[i].listing == listingId && all[i].status == Accepted {
          found := true;
        }
      }
      if HasAccepted(reservations.store, listingId) {
        var x :| x in reservations.store && IsAcceptedFor(reservations.store[x], listingId);
        assert x in reservations.order;
        var k :| 0 <= k < |reservations.order| && reservations.order[k] == x;
        assert IsAcceptedFor(all[k], listingId);
      }
    }

    method AcceptReservation(id: Id, sellerId: Id, f: AcceptFaults) returns (r: Result<Id, Error>)
      requires Valid()
      modifies this, listings, reservations
      ensures Valid() && (Model(), r) == Marketplace.AcceptReservation(old(Model()), id, sellerId, f)
    {
      var seller := users.Get(sellerId);
      if seller.None? {
        return Err(SellerNotFound);
      }
      if seller.value != UserActive {
        return Err(SellerNotActive);
      }
      var reservation := reservations.Get(id);
      if reservation.None? {
        return Err(ReservationNotFound);
      }
      if reservation.value.seller != sellerId {
        return Err(NotReservationSeller);
      }
      if reservation.value.status != Pending {
        return Err(ReservationNotPending);
      }
      var taken := FindAccepted(reservation.value.listing);
      if taken {
        return Err(AlreadyAccepted);
      }

      var oldStatus := reservation.value.status;
      var accepted := reservation.value.(status := Accepted);
      var ok := reservations.Save(id, accepted, f.saveAccepted);
      if !ok {
        return Err(StorageFailed);
      }
      var listing := listings.Get(accepted.listing);
      if listing.Some? {
        ok := listings.Save(accepted.listing, listing.value.(status := Reserved), f.saveListing);
      }
      if listing.None? || !ok {
        var undone := reservations.Save(id, accepted.(status := oldStatus), f.saveRollback);
        return Err(RolledBack);
      }
      RecordEvent(ReservationAccepted(id, accepted.listing), f.recordAccepted);
      RecordEvent(ListingReserved(accepted.listing, accepted.buyer), f.recordReserved);
      return Ok(id);
    }

    method CancelReservation(id: Id, f: CancelFaults) returns (r: Result<Id, Error>)
      requires Valid()
      modifies this, listings, reservations
      ensures Valid() && (Model(), r) == Marketplace.CancelReservation(old(Model()), id, f)
    {
      var reservation := reservations.Get(id);
      if reservation.None? {
        return Err(ReservationNotFound);
      }
      var oldStatus := reservation.value.status;
      if oldStatus != Pending && oldStatus != Accepted {
        return Err(CannotCancel);
      }
      var ok := reservations.Save(id, reservation.value.(status := Cancelled), f.saveCancelled);
      if !ok {
        return Err(CannotCancel);
      }
      if oldStatus == Accepted {
        RestoreListing(reservation.value.listing, f);
      }
      RecordEvent(ReservationCancelled(id, reservation.value.listing), f.recordCancelled);
      return Ok(id);
    }

    /** Best effort: a failure leaves everything as it was. */
    method RestoreListing(listingId: Id, f: CancelFaults)
      requires Valid()
      modifies this, listings
      ensures Valid()
      ensures var s := old(Model());
              Model() == if ShouldRestore(s, listingId) && !f.saveRestored
                         then WithListingStatus(s, listingId, Published).(
                           log := Record(s.log, ListingPublished(listingId, s.listings[listingId].seller),
                                         f.recordPublished))
                         else s
    {
      var others := FindAccepted(listingId);
      var listing := listings.Get(listingId);
      if !others && listing.Some? && listing.value.status == Reserved {
        var ok := listings.Save(listingId, listing.value.(status := Published), f.saveRestored);
        if ok {
          RecordEvent(ListingPublished(listingId, listing.value.seller), f.recordPublished);
        }
      }
    }

    /** One call, as the workflow knows it. */
    method Serve(op: Op) returns (r: Result<Id, Error>)
      requires Valid()
      modifies this, users, listings, reservations
      ensures Valid() && (Model(), r) == Step(old(Model()), op)
    {
      match op {
        case OpCreateUser(id, addFails) => r := CreateUser(id, addFails);
        case OpActivateUser(id, saveFails) => r := ActivateUser(id, saveFails);
        case OpCreateListing(id, seller, addFails, recordFails) =>
          r := CreateListing(id, seller, addFails, recordFails);
        case OpPublish(seller, id, readyImages, saveFails, recordFails) =>
          r := PublishListing(seller, id, readyImages, saveFails, recordFails);
        case OpReserve(id, buyer, listing, addFails, recordFails) =>
          r := CreateReservation(id, buyer, listing, addFails, recordFails);
        case OpAccept(id, seller, f) => r := AcceptReservation(id, seller, f);
        case OpCancel(id, f) => r := CancelReservation(id, f);
      }
    }

    /** A whole run of calls on the object. */
    method Execute(ops: seq<Op>)
      requires Valid()
      modifies this, users, listings, reservations
      ensures Valid() && Model() == Run(old(Model()), ops)
    {
      hide Step;
      for i := 0 to |ops|
        invariant Valid() && Model() == Run(old(Model()), ops[..i])
      {
        var r := Serve(ops[i]);
        assert ops[..i + 1][..i] == ops[..i];
      }
      assert ops[..|ops|] == ops;
    }
  }
}
