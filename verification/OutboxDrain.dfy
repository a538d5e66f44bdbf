/** Repeated passes always come to an end, although handlers save new events while being dispatched. */
module OutboxDrain {
  import opened Common
  import opened Events
  import opened Outbox
  import opened OutboxTotals
  import opened OutboxBooks

  /** What is left to do, at most, before nothing is pending. */
  function Remaining(s: Sys, R: nat): int
  {
    Total(s.box, Work(R))
  }

  lemma RemainingNonNegative(s: Sys, R: nat)
    ensures Remaining(s, R) >= 0
  {
    SumNonNegative(s.box.rows, s.box.order, Work(R));
  }

  lemma SaveAdds(s: Sys, R: nat, e: Event)
    requires R >= 1 && s.box.Valid() && e.id !in s.box.rows && e.eventType == TrustChange
    ensures Remaining(Save(s, e), R) == Remaining(s, R) + R
  {
    TotalPut(s.box, e, Work(R));
  }

  lemma OneMore(n: nat, R: nat)
    ensures (n + 1) * R == n * R + R
  {
  }

  lemma {:induction false} SavesAdd(s: Sys, R: nat, es: seq<Event>)
    requires R >= 1 && Books(s, R) && NewIds(s.box, es)
    requires forall i :: 0 <= i < |es| ==> es[i].eventType == TrustChange
    ensures Remaining(SaveAll(s, es), R) == Remaining(s, R) + |es| * R
  {
    if es != [] {
      hide Books, Save, Remaining, NewIds, Adds;
      var prefix, e := es[..|es| - 1], es[|es| - 1];
      NewIdsPrefix(s.box, es);
      SavesAdd(s, R, prefix);
      SaveAllKeepsBooks(s, R, prefix);
      StillNew(s.box, es, SaveAll(s, prefix).box);
      BooksAreValid(SaveAll(s, prefix), R);
      SaveAdds(SaveAll(s, prefix), R, e);
      OneMore(|prefix|, R);
    }
  }

  /** The dispatches one attempt of a pending entry stands for: itself and what it may save. */
  function Share(row: Row, R: nat): nat
  {
    1 + if SavesEvents(row.event.eventType) then MAX_SAVES * R else 0
  }

  lemma AttemptCosts(row: Row, R: nat)
    requires row.Pending() && row.retry < R
    ensures Worth(Work(R), row.(retry := row.retry + 1)) == Worth(Work(R), row) - Share(row, R)
    ensures Worth(Work(R), row) >= Share(row, R)
    ensures Worth(Work(R), row.(published := true)) == 0
    ensures Worth(Work(R), row.(retry := row.retry + 1, dead := true)) == 0
  {
    OneMore(R - row.retry - 1, Share(row, R));
    MonotoneProduct(0, R - row.retry - 1, Share(row, R));
  }

  /** One outcome, without the saves: the entry's own share shrinks by a whole dispatch. */
  lemma SettleLowers(s: Sys, R: nat, id: EventId, ok: bool)
    requires Books(s, R) && s.box.IsPending(id)
    ensures Remaining(Settle(s, R, id, ok), R) <= Remaining(s, R) - Share(s.box.rows[id], R)
  {
    var row := s.box.rows[id];
    AttemptCosts(row, R);
    hide Share, Worth;
    if ok {
      TotalWith(s.box, id, row.(published := true), Work(R));
    } else {
      var retried := row.(retry := row.retry + 1);
      TotalWith(s.box, id, retried, Work(R));
      if retried.retry >= R {
        TotalWith(Retry(s, id).box, id, retried.(dead := true), Work(R));
      }
    }
  }

  /** Every dispatch strictly lowers the measure, whatever its handlers do and save. */
  lemma {:induction false} ProcessLowers(s: Sys, R: nat, id: EventId, runs: seq<HandlerRun>)
    requires R >= 1 && Books(s, R) && s.box.IsPending(id) && Allowed(s.box, id, runs)
    ensures Remaining(Process(s, R, id, runs), R) < Remaining(s, R)
  {
    hide Books, SaveAll, Descend, NewIds, Settle, Remaining;
    var (ok, drafts) := Dispatched(runs);
    var es := Descend(s.box.rows[id].event, drafts);
    DescendIds(s.box, s.box.rows[id].event, drafts);
    DescendLength(s.box.rows[id].event, drafts);
    SaveAllKeepsBooks(s, R, es);
    SavesAdd(s, R, es);
    SettleLowers(SaveAll(s, es), R, id, ok);
    MonotoneProduct(|drafts|, MAX_SAVES, R);
  }

  lemma DescendLength(e: Event, drafts: seq<Event>)
    ensures |Descend(e, drafts)| == |drafts|
  {
  }

  lemma MonotoneProduct(a: nat, b: nat, c: nat)
    ensures a <= b ==> a * c <= b * c
  {
  }

  lemma {:induction false} ProcessAllLowers(s: Sys, R: nat, batch: seq<EventId>, handlers: Handlers)
    requires R >= 1 && Books(s, R) && WellBehaved(handlers)
    requires Distinct(batch) && forall id :: id in batch ==> s.box.IsPending(id)
    ensures Remaining(ProcessAll(s, R, batch, handlers), R) <= Remaining(s, R) - |batch|
  {
    if batch != [] {
      var prefix, id := batch[..|batch| - 1], batch[|batch| - 1];
      assert batch == prefix + [id] && id !in prefix;
      ProcessAllLowers(s, R, prefix, handlers);
      ProcessAllKeepsBooks(s, R, prefix, handlers);
      var t := ProcessAll(s, R, prefix, handlers);
      assert s.box.IsPending(id);
      assert t.box.Valid() && t.box.IsPending(id);
      hide Process, Books, Allowed, Remaining;
      ProcessLowers(t, R, id, handlers(t.box, id));
    }
  }

  /** `n` passes in a row. */
  function Passes(s: Sys, R: nat, limit: Option<nat>, handlers: Handlers, n: nat): Sys
  {
    if n == 0 then s else RunOnce(Passes(s, R, limit, handlers, n - 1), R, limit, handlers)
  }

  predicate Drained(s: Sys)
  {
    Unpublished(s.box.rows, s.box.order, None) == []
  }

  lemma PassLowers(s: Sys, R: nat, limit: Option<nat>, handlers: Handlers)
    requires R >= 1 && Books(s, R) && WellBehaved(handlers) && (limit.Some? ==> limit.value > 0)
    ensures Drained(s) ==> RunOnce(s, R, limit, handlers).box == s.box
    ensures !Drained(s) ==> Remaining(RunOnce(s, R, limit, handlers), R) < Remaining(s, R)
  {
    BoundIrrelevant(s.box.rows, s.box.order, R);
    BatchIsPending(s, R, limit);
    if !Drained(s) {
      ProcessAllLowers(s, R, Batch(s, R, limit), handlers);
    }
  }

  lemma {:induction false} PassesLower(s: Sys, R: nat, limit: Option<nat>, handlers: Handlers, n: nat)
    requires R >= 1 && Books(s, R) && WellBehaved(handlers) && (limit.Some? ==> limit.value > 0)
    ensures var t := Passes(s, R, limit, handlers, n);
            Books(t, R) && (Drained(t) || Remaining(t, R) <= Remaining(s, R) - n)
  {
    if n > 0 {
      hide Books, WellBehaved, Remaining, RunOnce;
      PassesLower(s, R, limit, handlers, n - 1);
      var t := Passes(s, R, limit, handlers, n - 1);
      RunOnceKeepsBooks(t, R, limit, handlers);
      PassLowers(t, R, limit, handlers);
    }
  }

  /** From any reachable state, for any handler outcomes, `Remaining` passes are enough: after them,
      and after any further pass, every entry is published or a dead letter. */
  lemma {:induction false} PassesDrain(s: Sys, R: nat, limit: Option<nat>, handlers: Handlers, n: nat)
    requires R >= 1 && Books(s, R) && WellBehaved(handlers) && (limit.Some? ==> limit.value > 0)
    requires n > Remaining(s, R)
    ensures var t := Passes(s, R, limit, handlers, n);
            forall id :: id in t.box.rows ==> (t.box.rows[id].published <==> !t.box.rows[id].dead)
  {
    PassesLower(s, R, limit, handlers, n);
    var t := Passes(s, R, limit, handlers, n);
    RemainingNonNegative(t, R);
    UnpublishedIsExact(t.box.rows, t.box.order, None);
    forall id | id in t.box.rows ensures t.box.rows[id].published <==> !t.box.rows[id].dead {
      assert id in t.box.order;
      assert id !in Unpublished(t.box.rows, t.box.order, None);
    }
  }
}
