/** The theorems about runs, carried over to the two service objects. */
module MarketplaceObjects {
  import opened Marketplace
  import opened MarketplaceSafety
  import opened MarketplaceReplay
  import opened MarketplaceServices
  import opened MarketplaceRepositoryPath
  import opened MarketplaceServicePath

  /** Whatever writes fail during the calls, the repositories never hold two ACCEPTED reservations of one
      listing, and a reservation contradicts its listing exactly after the failed repairs of the run. */
  method ServeOverRepositories(ops: seq<Op>) returns (service: RepositoryMarketplace)
    ensures service.Valid() && service.Model() == Run(Init(map[]), ops)
    ensures forall r, q | HoldsAccepted(service, r) && HoldsAccepted(service, q) ::
              service.reservations.store[r].listing == service.reservations.store[q].listing ==> r == q
    ensures forall r | HoldsAccepted(service, r) ::
              !IsReserved(service.Model(), service.reservations.store[r].listing) <==> r in Exposed(Init(map[]), ops)
    ensures forall l :: IsReserved(service.Model(), l) && !HasAccepted(service.reservations.store, l) <==>
              l in Orphaned(Init(map[]), ops)
    ensures Inv(service.Model(), Exposed(Init(map[]), ops), Orphaned(Init(map[]), ops))
    ensures AllRecorded(ops) ==> Agrees(Replay(service.log), service.Model(), Stuck(Init(map[]), ops))
  {
    hide Run, Stuck, Exposed, Orphaned, Unrestored, AllRecorded, Agrees;
    service := new RepositoryMarketplace();
    service.Execute(ops);
    RunInv(map[], ops);
    if AllRecorded(ops) {
      ReplayAgrees(map[], ops);
    }
  }

  predicate HoldsAccepted(service: RepositoryMarketplace, r: Id)
    reads service.reservations
  {
    r in service.reservations.store && service.reservations.store[r].status == Accepted
  }

  /** Without failing writes both objects hold the same after the same calls. */
  method ServeOverBoth(ops: seq<Op>) returns (a: RepositoryMarketplace, b: InMemoryMarketplace)
    requires FaultFree(ops) && NewIds(Init(map[]), ops)
    ensures a.users.store == b.users.store && a.listings.store == b.listings.store
    ensures a.reservations.store == b.reservations.store && a.log == b.log
  {
    hide Run, ServiceRun, FaultFree, NewIds, Inv;
    a := new RepositoryMarketplace();
    a.Execute(ops);
    b := new InMemoryMarketplace(map[]);
    b.Execute(ops);
    SameState(map[], ops);
  }
}
