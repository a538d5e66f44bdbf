/** `MarketplaceService` over the in-memory domain services, whose stored entities are
    assigned in place. */
module MarketplaceServicePath {
  import opened Common
  import opened Marketplace
  import opened MarketplaceServices

  class UserService {
    var store: map<Id, UserStatus>

    constructor (users: map<Id, UserStatus>)
      ensures store == users
    {
      store := users;
    }

    method CreateUser(id: Id)
      modifies this
      ensures store == old(store)[id := UserPending]
    {
      store := store[id := UserPending];
    }

    method Activate(id: Id) returns (error: Option<Error>)
      modifies this
      ensures error.None? <==> id in old(store) && old(store)[id] == UserPending
      ensures error.Some? ==> error.value == if id in old(store) then UserNotPending else UserNotFound
      ensures store == if error.None? then old(store)[id := UserActive] else old(store)
    {
      if id !in store {
        return Some(UserNotFound);
      }
      if store[id] != UserPending {
        return Some(UserNotPending);
      }
      store := store[id := UserActive];
      return None;
    }
  }

  class ListingService {
    var store: map<Id, Listing>

    constructor ()
      ensures store == map[]
    {
      store := map[];
    }

    method CreateListing(id: Id, seller: Id)
      modifies this
      ensures store == old(store)[id := Listing(seller, Draft)]
    {
      store := store[id := Listing(seller, Draft)];
    }

    /** Raises unless the listing exists and is in the state `source`. */
    method Move(id: Id, source: ListingStatus, target: ListingStatus) returns (ok: bool)
      modifies this
      ensures ok <==> id in old(store) && old(store)[id].status == source
      ensures store == if ok then old(store)[id := old(store)[id].(status := target)] else old(store)
    {
      if id !in store || store[id].status != source {
        return false;
      }
      store := store[id := store[id].(status := target)];
      return true;
    }

    method Publish(id: Id) returns (ok: bool)
      modifies this
      ensures ok <==> id in old(store) && old(store)[id].status == Draft
      ensures store == if ok then old(store)[id := old(store)[id].(status := Published)] else old(store)
    {
      ok := Move(id, Draft, Published);
    }

    method Reserve(id: Id) returns (ok: bool)
      modifies this
      ensures ok <==> id in old(store) && old(store)[id].status == Published
      ensures store == if ok then old(store)[id := old(store)[id].(status := Reserved)] else old(store)
    {
      ok := Move(id, Published, Reserved);
    }
  }

  class ReservationService {
    var store: map<Id, Reservation>

    constructor ()
      ensures store == map[]
    {
      store := map[];
    }

    method CreateReservation(id: Id, listing: Id, buyer: Id, seller: Id)
      modifies this
      ensures store == old(store)[id := Reservation(listing, buyer, seller, Pending)]
    {
      store := store[id := Reservation(listing, buyer, seller, Pending)];
    }

    method SetStatus(id: Id, status: ReservationStatus)
      requires id in store
      modifies this
      ensures store == old(store)[id := old(store)[id].(status := status)]
    {
      store := store[id := store[id].(status := status)];
    }

    method Accept(id: Id) returns (ok: bool)
      modifies this
      ensures ok <==> id in old(store) && old(store)[id].status == Pending
      ensures store == if ok then old(store)[id := old(store)[id].(status := Accepted)] else old(store)
    {
      if id !in store || store[id].status != Pending {
        return false;
      }
      SetStatus(id, Accepted);
      return true;
    }

    method Cancel(id: Id) returns (ok: bool)
      modifies this
      ensures ok <==> id in old(store) && old(store)[id].status in {Pending, Accepted}
      ensures store == if ok then old(store)[id := old(store)[id].(status := Cancelled)] else old(store)
    {
      if id !in store || (store[id].status != Pending && store[id].status != Accepted) {
        return false;
      }
      SetStatus(id, Cancelled);
      return true;
    }

    method FindAccepted(listing: Id) returns (found: bool)
      ensures found <==> HasAccepted(store, listing)
    {
      var todo := store.Keys;
      found := false;
      while todo != {}
        invariant todo <= store.Keys
        invariant found <==> exists id :: id in store && id !in todo && IsAcceptedFor(store[id], listing)
        decreases todo
      {
        var id :| id in todo;
        todo := todo - {id};
        if store[id].listing == listing && store[id].status == Accepted {
          found := true;
        }
      }
    }
  }

  class InMemoryMarketplace {
    const users: UserService
    const listings: ListingService
    const reservations: ReservationService
    var log: seq<Event>

    ghost function Model(): State
      reads this, users, listings, reservations
    {
      State(users.store, listings.store, reservations.store, log)
    }

    constructor (initial: map<Id, UserStatus>)
      ensures Model() == Init(initial)
      ensures fresh(users) && fresh(listings) && fresh(reservations)
    {
      users := new UserService(initial);
      listings := new ListingService();
      reservations := new ReservationService();
      log := [];
    }

    method CreateUser(id: Id) returns (r: Result<Id, Error>)
      modifies users
      ensures (Model(), r) == ServiceCreateUser(old(Model()), id)
    {
      users.CreateUser(id);
      return Ok(id);
    }

    method ActivateUser(id: Id) returns (r: Result<Id, Error>)
      modifies users
      ensures (Model(), r) == ServiceActivateUser(old(Model()), id)
    {
      var error := users.Activate(id);
      return if error.None? then Ok(id) else Err(error.value);
    }

    method CreateListing(id: Id, seller: Id) returns (r: Result<Id, Error>)
      modifies this, listings
      ensures (Model(), r) == ServiceCreateListing(old(Model()), id, seller)
    {
      if seller !in users.store {
        return Err(SellerNotFound);
      }
      if users.store[seller] != UserActive {
        return Err(SellerNotActive);
      }
      listings.CreateListing(id, seller);
      log := log + [ListingCreated(id, seller)];
      return Ok(id);
    }

    method PublishListing(seller: Id, id: Id, readyImages: Option<nat>) returns (r: Result<Id, Error>)
      modifies this, listings
      ensures (Model(), r) == ServicePublish(old(Model()), seller, id, readyImages)
    {
      if seller !in users.store {
        return Err(SellerNotFound);
      }
      if users.store[seller] != UserActive {
        return Err(SellerNotActive);
      }
      if id !in listings.store {
        return Err(ListingNotFound);
      }
      if listings.store[id].seller != seller {
        return Err(NotListingSeller);
      }
      if readyImages.Some? && readyImages.value < MIN_READY_IMAGES {
        return Err(TooFewImages);
      }
      var ok := listings.Publish(id);
      if !ok {
        return Err(CannotPublish);
      }
      log := log + [ListingPublished(id, listings.store[id].seller)];
      return Ok(id);
    }

    method CreateReservation(id: Id, buyer: Id, listing: Id) returns (r: Result<Id, Error>)
      modifies this, reservations
      ensures (Model(), r) == ServiceReserve(old(Model()), id, buyer, listing)
    {
      if buyer !in users.store {
        return Err(BuyerNotFound);
      }
      if users.store[buyer] != UserActive {
        return Err(BuyerNotActive);
      }
      if listing !in listings.store {
        return Err(ListingNotFound);
      }
      var found := listings.store[listing];
      if found.seller !in users.store {
        return Err(SellerNotFound);
      }
      if users.store[found.seller] != UserActive {
        return Err(SellerNotActive);
      }
      if buyer == found.seller {
        return Err(BuyerIsSeller);
      }
      if found.status != Published {
        return Err(ListingNotPublished);
      }
      reservations.CreateReservation(id, listing, buyer, found.seller);
      log := log + [ReservationCreated(id, listing, buyer)];
      return Ok(id);
    }

    method AcceptReservation(id: Id, seller: Id) returns (r: Result<Id, Error>)
      modifies this, listings, reservations
      ensures (Model(), r) == ServiceAccept(old(Model()), id, seller)
    {
      if seller !in users.store {
        return Err(SellerNotFound);
      }
      if users.store[seller] != UserActive {
        return Err(SellerNotActive);
      }
      if id !in reservations.store {
        return Err(ReservationNotFound);
      }
      var reservation := reservations.store[id];
      if reservation.seller != seller {
        return Err(NotReservationSeller);
      }
      if reservation.status != Pending {
        return Err(ReservationNotPending);
      }
      var taken := reservations.FindAccepted(reservation.listing);
      if taken {
        return Err(AlreadyAccepted);
      }
      var accepted := reservations.Accept(id);
      var reserved := listings.Reserve(reservation.listing);
      if !reserved {
        if id in reservations.store {
          reservations.SetStatus(id, reservation.status);
        }
        return Err(RolledBack);
      }
      log := log + [ReservationAccepted(id, reservation.listing)];
      log := log + [ListingReserved(reservation.listing, reservation.buyer)];
      return Ok(id);
    }

    method CancelReservation(id: Id) returns (r: Result<Id, Error>)
      modifies this, listings, reservations
      ensures (Model(), r) == ServiceCancel(old(Model()), id)
    {
      if id !in reservations.store {
        return Err(ReservationNotFound);
      }
      var reservation := reservations.store[id];
      var cancelled := reservations.Cancel(id);
      if !cancelled {
        return Err(CannotCancel);
      }
      if reservation.status == Accepted {
        var others := reservations.FindAccepted(reservation.listing);
        if !others && reservation.listing in listings.store {
          var restored := listings.Move(reservation.listing, Reserved, Published);
          if restored {
            log := log + [ListingPublished(reservation.listing, listings.store[reservation.listing].seller)];
          }
        }
      }
      log := log + [ReservationCancelled(id, reservation.listing)];
      return Ok(id);
    }

    method Serve(op: Op) returns (r: Result<Id, Error>)
      modifies this, users, listings, reservations
      ensures (Model(), r) == ServiceStep(old(Model()), op)
    {
      match op {
        case OpCreateUser(id, _) => r := CreateUser(id);
        case OpActivateUser(id, _) => r := ActivateUser(id);
        case OpCreateListing(id, seller, _, _) => r := CreateListing(id, seller);
        case OpPublish(seller, id, readyImages, _, _) => r := PublishListing(seller, id, readyImages);
        case OpReserve(id, buyer, listing, _, _) => r := CreateReservation(id, buyer, listing);
        case OpAccept(id, seller, _) => r := AcceptReservation(id, seller);
        case OpCancel(id, _) => r := CancelReservation(id);
      }
    }

    method Execute(ops: seq<Op>)
      modifies this, users, listings, reservations
      ensures Model() == ServiceRun(old(Model()), ops)
    {
      hide ServiceStep;
      for i := 0 to |ops|
        invariant Model() == ServiceRun(old(Model()), ops[..i])
      {
        var r := Serve(ops[i]);
        assert ops[..i + 1][..i] == ops[..i];
      }
      assert ops[..|ops|] == ops;
    }
  }
}
