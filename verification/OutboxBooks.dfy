/** Sums over the rows of an outbox. */
module OutboxTotals {
  import opened Common
  import opened Events
  import opened Outbox

  /** What is summed: retry counts, or entries of one state, or the work a drain still has to do. */
  datatype Kind = Retries | Dead | Published | Waiting | Work(R: nat)

  /** The dispatches a pending entry can still cause: its own, and those of the events it may save. */
  function Worth(k: Kind, row: Row): int
  {
    match k
    case Retries => row.retry
    case Dead => if row.dead then 1 else 0
    case Published => if row.published then 1 else 0
    case Waiting => if row.Pending() then 1 else 0
    case Work(R) =>
      if row.Pending() && row.retry < R
      then (R - row.retry) * (1 + if SavesEvents(row.event.eventType) then MAX_SAVES * R else 0)
      else 0
  }

  function Sum(rows: map<EventId, Row>, order: seq<EventId>, k: Kind): int
  {
    if order == [] then 0
    else
      var id := order[|order| - 1];
      Sum(rows, order[..|order| - 1], k) + (if id in rows then Worth(k, rows[id]) else 0)
  }

  function Total(b: Box, k: Kind): int
  {
    Sum(b.rows, b.order, k)
  }

  lemma {:induction false} SumFrame(rows: map<EventId, Row>, order: seq<EventId>, id: EventId, row: Row, k: Kind)
    requires id !in order
    ensures Sum(rows[id := row], order, k) == Sum(rows, order, k)
  {
    if order != [] {
      assert order[|order| - 1] != id;
      SumFrame(rows, order[..|order| - 1], id, row, k);
    }
  }

  lemma {:induction false} SumUpdate(rows: map<EventId, Row>, order: seq<EventId>, id: EventId, row: Row, k: Kind)
    requires Distinct(order) && id in order && id in rows
    ensures Sum(rows[id := row], order, k) == Sum(rows, order, k) - Worth(k, rows[id]) + Worth(k, row)
  {
    var prefix, last := order[..|order| - 1], order[|order| - 1];
    if last == id {
      SumFrame(rows, prefix, id, row, k);
    } else {
      SumUpdate(rows, prefix, id, row, k);
    }
  }

  lemma TotalWith(b: Box, id: EventId, row: Row, k: Kind)
    requires b.Valid() && id in b.rows
    ensures b.With(id, row).Valid()
    ensures Total(b.With(id, row), k) == Total(b, k) - Worth(k, b.rows[id]) + Worth(k, row)
  {
    SumUpdate(b.rows, b.order, id, row, k);
  }

  lemma TotalPut(b: Box, e: Event, k: Kind)
    requires b.Valid() && e.id !in b.rows
    ensures Put(b, e).Valid() && Put(b, e).order == b.order + [e.id]
    ensures Total(Put(b, e), k) == Total(b, k) + Worth(k, Row(e, false, 0, false))
  {
    var c := Put(b, e);
    assert c.order[..|b.order|] == b.order;
    SumFrame(b.rows, b.order, e.id, Row(e, false, 0, false), k);
  }

  lemma {:induction false} DepthIsTotal(rows: map<EventId, Row>, order: seq<EventId>)
    ensures |Unpublished(rows, order, None)| == Sum(rows, order, Waiting)
  {
    if order != [] {
      DepthIsTotal(rows, order[..|order| - 1]);
    }
  }

  /** Retry counts of pending entries are below the bound, so the bound filters nothing. */
  lemma {:induction false} BoundIrrelevant(rows: map<EventId, Row>, order: seq<EventId>, R: nat)
    requires forall id :: id in rows && rows[id].Pending() ==> rows[id].retry < R
    ensures Unpublished(rows, order, Some(R)) == Unpublished(rows, order, None)
  {
    if order != [] {
      BoundIrrelevant(rows, order[..|order| - 1], R);
    }
  }

  /** The listing contains exactly the entries it should, each once, in save order. */
  lemma {:induction false} UnpublishedIsExact(rows: map<EventId, Row>, order: seq<EventId>, bound: Option<nat>)
    requires Distinct(order)
    ensures Distinct(Unpublished(rows, order, bound))
    ensures forall id :: id in Unpublished(rows, order, bound) <==>
              id in order && id in rows && rows[id].Pending() && (bound.Some? ==> rows[id].retry < bound.value)
  {
    if order != [] {
      var prefix, last := order[..|order| - 1], order[|order| - 1];
      UnpublishedIsExact(rows, prefix, bound);
      assert order == prefix + [last] && last !in prefix;
    }
  }

  lemma {:induction false} SumNonNegative(rows: map<EventId, Row>, order: seq<EventId>, k: Kind)
    ensures Sum(rows, order, k) >= 0
  {
    if order != [] {
      SumNonNegative(rows, order[..|order| - 1], k);
      var id := order[|order| - 1];
      if id in rows {
        WorthNonNegative(k, rows[id]);
      }
    }
  }

  lemma WorthNonNegative(k: Kind, row: Row)
    ensures Worth(k, row) >= 0
  {
  }
}

/** The counters balance against the rows after every operation. */
module OutboxBooks {
  import opened Common
  import opened Events
  import opened Outbox
  import opened OutboxTotals

  /** Published and dead exclude each other; an entry is dead exactly when its retries are used up. */
  ghost predicate RowsSettled(b: Box, R: nat)
  {
    forall id :: id in b.rows ==>
      && !(b.rows[id].published && b.rows[id].dead)
      && b.rows[id].retry <= R
      && (b.rows[id].dead <==> b.rows[id].retry == R)
  }

  ghost predicate Balanced(s: Sys, R: nat)
  {
    && s.metrics.retries == Total(s.box, Retries) + R * s.requeued
    && s.metrics.deadLetters == Total(s.box, Dead) + s.requeued
    && s.metrics.published == Total(s.box, Published)
    && s.metrics.handlerFailures == s.metrics.retries
  }

  ghost predicate Books(s: Sys, R: nat)
  {
    && s.box.Valid()
    && RowsSettled(s.box, R)
    && Balanced(s, R)
    && s.metrics.queueDepth == Total(s.box, Waiting)
  }

  lemma BooksAreValid(s: Sys, R: nat)
    requires Books(s, R)
    ensures s.box.Valid()
  {
  }

  lemma InitialBooks(R: nat)
    requires R >= 1
    ensures Books(INITIAL, R)
  {
  }

  lemma SyncCounts(s: Sys, R: nat, bound: Option<nat>)
    requires s.box.Valid() && RowsSettled(s.box, R) && (bound.Some? ==> bound.value == R)
    ensures Sync(s, bound).metrics.queueDepth == Total(s.box, Waiting)
  {
    DepthIsTotal(s.box.rows, s.box.order);
    if bound.Some? {
      BoundIrrelevant(s.box.rows, s.box.order, R);
    }
  }

  lemma SaveKeepsBooks(s: Sys, R: nat, e: Event)
    requires R >= 1 && Books(s, R) && e.id !in s.box.rows
    ensures Books(Save(s, e), R)
    ensures Save(s, e).box.rows == s.box.rows[e.id := Row(e, false, 0, false)]
  {
    var t := s.(box := Put(s.box, e));
    TotalPut(s.box, e, Retries);
    TotalPut(s.box, e, Dead);
    TotalPut(s.box, e, Published);
    SyncCounts(t, R, None);
  }

  lemma NewIdsPrefix(b: Box, es: seq<Event>)
    requires NewIds(b, es) && es != []
    ensures NewIds(b, es[..|es| - 1])
  {
  }

  /** Saving only adds rows, and only those of the saved events. */
  ghost predicate Adds(b: Box, es: seq<Event>, c: Box)
  {
    && (forall id :: id in b.rows ==> id in c.rows && c.rows[id] == b.rows[id])
    && (forall id :: id in c.rows ==> id in b.rows || exists i :: 0 <= i < |es| && es[i].id == id)
  }

  lemma AddsOne(b: Box, es: seq<Event>, c: Box, e: Event, d: Box)
    requires Adds(b, es, c) && e.id !in c.rows && d.rows == c.rows[e.id := Row(e, false, 0, false)]
    ensures Adds(b, es + [e], d)
  {
    var all := es + [e];
    forall id | id in d.rows && id !in b.rows ensures exists i :: 0 <= i < |all| && all[i].id == id {
      if id == e.id {
        assert all[|es|].id == id;
      } else {
        var i :| 0 <= i < |es| && es[i].id == id;
        assert all[i].id == id;
      }
    }
  }

  lemma StillNew(b: Box, es: seq<Event>, c: Box)
    requires es != [] && NewIds(b, es) && Adds(b, es[..|es| - 1], c)
    ensures es[|es| - 1].id !in c.rows
  {
  }

  lemma {:induction false} SaveAllKeepsBooks(s: Sys, R: nat, es: seq<Event>)
    requires R >= 1 && Books(s, R) && NewIds(s.box, es)
    ensures Books(SaveAll(s, es), R)
    ensures Adds(s.box, es, SaveAll(s, es).box)
  {
    if es != [] {
      hide Books, Adds, NewIds, Save;
      var prefix, e := es[..|es| - 1], es[|es| - 1];
      NewIdsPrefix(s.box, es);
      SaveAllKeepsBooks(s, R, prefix);
      StillNew(s.box, es, SaveAll(s, prefix).box);
      SaveKeepsBooks(SaveAll(s, prefix), R, e);
      AddsOne(s.box, prefix, SaveAll(s, prefix).box, e, SaveAll(s, es).box);
      assert es == prefix + [e];
    }
  }

  lemma PublishKeepsBooks(s: Sys, R: nat, id: EventId)
    requires Books(s, R) && s.box.IsPending(id)
    ensures Books(Publish(s, R, id), R)
  {
    var row := s.box.rows[id].(published := true);
    TotalWith(s.box, id, row, Retries);
    TotalWith(s.box, id, row, Dead);
    TotalWith(s.box, id, row, Published);
    SyncCounts(s.(box := s.box.With(id, row)), R, Some(R));
  }

  /** A failed dispatch either leaves retries to use, or uses up the last one and buries the entry. */
  lemma FailureKeepsBooks(s: Sys, R: nat, id: EventId)
    requires Books(s, R) && s.box.IsPending(id)
    ensures Books(Settle(s, R, id, false), R)
  {
    var t := Retry(s, id);
    var row := s.box.rows[id].(retry := s.box.rows[id].retry + 1);
    TotalWith(s.box, id, row, Retries);
    TotalWith(s.box, id, row, Dead);
    TotalWith(s.box, id, row, Published);
    if row.retry < R {
      SyncCounts(t, R, None);
    } else {
      var dead := row.(dead := true);
      TotalWith(t.box, id, dead, Retries);
      TotalWith(t.box, id, dead, Dead);
      TotalWith(t.box, id, dead, Published);
      assert t.box.With(id, dead) == s.box.With(id, dead);
      SyncCounts(t.(box := t.box.With(id, dead)), R, Some(R));
    }
  }

  /** What an entry's processing leaves untouched. */
  ghost predicate OnlyTouches(s: Sys, t: Sys, id: EventId)
  {
    forall x :: x in s.box.rows && x != id ==> x in t.box.rows && t.box.rows[x] == s.box.rows[x]
  }

  lemma DescendIds(b: Box, e: Event, drafts: seq<Event>)
    requires NewIds(b, drafts)
    ensures NewIds(b, Descend(e, drafts))
    ensures forall i :: 0 <= i < |drafts| ==> Descend(e, drafts)[i].eventType == drafts[i].eventType
  {
  }

  lemma SettleKeepsBooks(s: Sys, R: nat, id: EventId, ok: bool)
    requires Books(s, R) && s.box.IsPending(id)
    ensures Books(Settle(s, R, id, ok), R)
    ensures OnlyTouches(s, Settle(s, R, id, ok), id)
  {
    if ok {
      PublishKeepsBooks(s, R, id);
    } else {
      FailureKeepsBooks(s, R, id);
    }
  }

  lemma ProcessKeepsBooks(s: Sys, R: nat, id: EventId, runs: seq<HandlerRun>)
    requires R >= 1 && Books(s, R) && s.box.IsPending(id) && Allowed(s.box, id, runs)
    ensures Books(Process(s, R, id, runs), R)
    ensures OnlyTouches(s, Process(s, R, id, runs), id)
  {
    hide Books, SaveAll, Descend, NewIds, Settle;
    var (ok, drafts) := Dispatched(runs);
    var es := Descend(s.box.rows[id].event, drafts);
    DescendIds(s.box, s.box.rows[id].event, drafts);
    SaveAllKeepsBooks(s, R, es);
    SettleKeepsBooks(SaveAll(s, es), R, id, ok);
  }

  lemma {:induction false} ProcessAllKeepsBooks(s: Sys, R: nat, batch: seq<EventId>, handlers: Handlers)
    requires R >= 1 && Books(s, R) && WellBehaved(handlers)
    requires Distinct(batch) && forall id :: id in batch ==> s.box.IsPending(id)
    ensures Books(ProcessAll(s, R, batch, handlers), R)
    ensures forall x :: x in s.box.rows && x !in batch ==>
              && x in ProcessAll(s, R, batch, handlers).box.rows
              && ProcessAll(s, R, batch, handlers).box.rows[x] == s.box.rows[x]
  {
    if batch != [] {
      var prefix, id := batch[..|batch| - 1], batch[|batch| - 1];
      assert batch == prefix + [id] && id !in prefix;
      ProcessAllKeepsBooks(s, R, prefix, handlers);
      var t := ProcessAll(s, R, prefix, handlers);
      assert s.box.IsPending(id);
      assert t.box.Valid() && t.box.IsPending(id);
      hide Process, Books, Allowed;
      ProcessKeepsBooks(t, R, id, handlers(t.box, id));
    }
  }

  /** After the first entries of a batch the next one is pending still, and its handlers behave. */
  lemma NextOfBatch(s: Sys, R: nat, batch: seq<EventId>, n: nat, handlers: Handlers)
    requires R >= 1 && Books(s, R) && WellBehaved(handlers)
    requires 0 < n <= |batch| && Distinct(batch) && forall id :: id in batch ==> s.box.IsPending(id)
    ensures var t, id := ProcessAll(s, R, batch[..n - 1], handlers), batch[n - 1];
            && Books(t, R) && t.box.IsPending(id) && id in s.box.rows && t.box.rows[id] == s.box.rows[id]
            && Allowed(t.box, id, handlers(t.box, id))
            && ProcessAll(s, R, batch[..n], handlers) == Process(t, R, id, handlers(t.box, id))
  {
    ProcessAllKeepsBooks(s, R, batch[..n - 1], handlers);
    var t := ProcessAll(s, R, batch[..n - 1], handlers);
    BooksAreValid(t, R);
    assert batch[n - 1] !in batch[..n - 1] && batch[n - 1] in batch;
    assert s.box.IsPending(batch[n - 1]);
    hide Process, Books, Allowed;
    assert t.box.IsPending(batch[n - 1]);
    assert batch[..n][..n - 1] == batch[..n - 1];
  }

  /** The snapshot a pass works on. */
  lemma BatchIsPending(s: Sys, R: nat, limit: Option<nat>)
    requires s.box.Valid()
    ensures Distinct(Batch(s, R, limit))
    ensures forall id :: id in Batch(s, R, limit) ==> s.box.IsPending(id) && s.box.rows[id].retry < R
  {
    UnpublishedIsExact(s.box.rows, s.box.order, Some(R));
  }

  lemma RunOnceKeepsBooks(s: Sys, R: nat, limit: Option<nat>, handlers: Handlers)
    requires R >= 1 && Books(s, R) && WellBehaved(handlers)
    ensures Books(RunOnce(s, R, limit, handlers), R)
  {
    BatchIsPending(s, R, limit);
    var batch := Batch(s, R, limit);
    if batch == [] {
      SyncCounts(s, R, Some(R));
    } else {
      ProcessAllKeepsBooks(s, R, batch, handlers);
    }
  }

  lemma RequeueOneBalances(s: Sys, R: nat, id: EventId)
    requires R >= 1 && s.box.Valid() && RowsSettled(s.box, R) && Balanced(s, R)
    ensures var t := RequeueOne(s, id); t.box.Valid() && RowsSettled(t.box, R) && Balanced(t, R)
  {
    if id in s.box.rows && s.box.rows[id].dead {
      var row := Row(s.box.rows[id].event, false, 0, false);
      TotalWith(s.box, id, row, Retries);
      TotalWith(s.box, id, row, Dead);
      TotalWith(s.box, id, row, Published);
      assert R * (s.requeued + 1) == R * s.requeued + R;
    }
  }

  lemma {:induction false} RequeueKeepsBooks(s: Sys, R: nat, ids: seq<EventId>)
    requires R >= 1 && Books(s, R)
    ensures var t := RequeueEach(s, ids); t.box.Valid() && RowsSettled(t.box, R) && Balanced(t, R)
    ensures Books(Requeue(s, ids), R)
  {
    if ids != [] {
      RequeueKeepsBooks(s, R, ids[..|ids| - 1]);
      RequeueOneBalances(RequeueEach(s, ids[..|ids| - 1]), R, ids[|ids| - 1]);
    }
    SyncCounts(RequeueEach(s, ids), R, None);
  }

  /** What happens to an outbox between passes, and the passes themselves. */
  datatype Op =
    | Produce(event: Event)
    | Pass(limit: Option<nat>, handlers: Handlers)
    | Revive(ids: seq<EventId>)

  function Step(s: Sys, R: nat, op: Op): Sys
  {
    match op
    case Produce(e) => Save(s, e)
    case Pass(limit, handlers) => RunOnce(s, R, limit, handlers)
    case Revive(ids) => Requeue(s, ids)
  }

  function Run(R: nat, ops: seq<Op>): Sys
  {
    if ops == [] then INITIAL else Step(Run(R, ops[..|ops| - 1]), R, ops[|ops| - 1])
  }

  /** Produced events have new ids and open or outside lineage; handlers are well behaved. */
  ghost predicate Legal(R: nat, ops: seq<Op>)
  {
    ops == [] ||
    (var s, op := Run(R, ops[..|ops| - 1]), ops[|ops| - 1];
     && Legal(R, ops[..|ops| - 1])
     && (op.Produce? ==> op.event.id !in s.box.rows && op.event.causation.None?)
     && (op.Pass? ==> WellBehaved(op.handlers)))
  }

  /** After every save, pass and requeue: no entry is both published and dead, an entry is dead
      exactly when its retries are used up, and every counter equals what the rows say. */
  lemma {:induction false} BooksAlwaysBalance(R: nat, ops: seq<Op>)
    requires R >= 1 && Legal(R, ops)
    ensures Books(Run(R, ops), R)
  {
    if ops == [] {
      InitialBooks(R);
    } else {
      hide Books, WellBehaved;
      var s, op := Run(R, ops[..|ops| - 1]), ops[|ops| - 1];
      BooksAlwaysBalance(R, ops[..|ops| - 1]);
      match op
      case Produce(e) => SaveKeepsBooks(s, R, e);
      case Pass(limit, handlers) => RunOnceKeepsBooks(s, R, limit, handlers);
      case Revive(ids) => RequeueKeepsBooks(s, R, ids);
    }
  }
}
