/** The outbox pipeline as the objects that change. */
module OutboxObjects {
  import opened Common
  import opened Lineage
  import opened Events
  import opened Outbox
  import opened OutboxBooks
  import opened OutboxEffects

  class EventMetrics {
    var published: nat
    var handlerFailures: nat
    var retries: nat
    var deadLetters: nat
    var queueDepth: nat

    function Value(): Metrics
      reads this
    {
      Metrics(published, handlerFailures, retries, deadLetters, queueDepth)
    }

    constructor ()
      ensures Value() == INITIAL.metrics
    {
      published, handlerFailures, retries, deadLetters, queueDepth := 0, 0, 0, 0, 0;
    }

    method RecordPublishSuccess()
      modifies this
      ensures Value() == old(Value()).(published := old(published) + 1)
    {
      published := published + 1;
    }

    method RecordHandlerFailure()
      modifies this
      ensures Value() == old(Value()).(handlerFailures := old(handlerFailures) + 1)
    {
      handlerFailures := handlerFailures + 1;
    }

    method RecordRetry()
      modifies this
      ensures Value() == old(Value()).(retries := old(retries) + 1)
    {
      retries := retries + 1;
    }

    method RecordPermanentFailure()
      modifies this
      ensures Value() == old(Value()).(deadLetters := old(deadLetters) + 1)
    {
      deadLetters := deadLetters + 1;
    }

    method RecordQueueDepth(depth: nat)
      modifies this
      ensures Value() == old(Value()).(queueDepth := depth)
    {
      queueDepth := depth;
    }
  }

  /** The two context variables; setting one hands back what resetting needs. */
  class EventContext {
    var correlation: Option<nat>
    var causation: Option<EventId>

    function Value(): Context<nat, EventId>
      reads this
    {
      Context(correlation, causation)
    }

    constructor ()
      ensures Value() == EMPTY_CONTEXT
    {
      correlation, causation := None, None;
    }

    method Enter(c: Option<nat>, k: Option<EventId>) returns (token: Context<nat, EventId>)
      modifies this
      ensures token == old(Value()) && Value() == Context(c, k)
    {
      token := Context(correlation, causation);
      correlation := c;
      causation := k;
    }

    method Leave(token: Context<nat, EventId>)
      modifies this
      ensures Value() == token
    {
      causation := token.causation;
      correlation := token.correlation;
    }
  }

  class MemoryOutbox {
    var entries: map<EventId, Row>
    var order: seq<EventId>
    const metrics: EventMetrics
    /** How often the notifier, the worker's `wake`, has been called. */
    var notified: nat
    ghost var requeued: nat

    function Value(): Box
      reads this
    {
      Box(entries, order)
    }

    ghost function State(): Sys
      reads this, metrics
    {
      Sys(Value(), metrics.Value(), requeued)
    }

    ghost predicate Valid()
      reads this
    {
      Value().Valid()
    }

    constructor (m: EventMetrics)
      requires m.Value() == INITIAL.metrics
      ensures metrics == m && Valid() && State() == INITIAL
    {
      entries, order, metrics, notified, requeued := map[], [], m, 0, 0;
    }

    method ListUnpublished(limit: Option<nat>, bound: Option<nat>) returns (ids: seq<EventId>)
      requires Valid()
      ensures ids == Limited(Unpublished(entries, order, bound), limit)
      ensures InSaveOrder(order, ids)
    {
      LimitedInSaveOrder(entries, order, bound, limit);
      hide InSaveOrder;
      ids := [];
      for i := 0 to |order|
        invariant ids == Unpublished(entries, order[..i], bound)
      {
        assert order[i] in order;
        var row := entries[order[i]];
        assert order[..i + 1][..i] == order[..i];
        if !row.published && !row.dead && (bound.None? || row.retry < bound.value) {
          ids := ids + [order[i]];
        }
      }
      assert order[..|order|] == order;
      if limit.Some? && limit.value < |ids| {
        ids := ids[..limit.value];
      }
    }

    method SyncMetrics()
      requires Valid()
      modifies metrics
      ensures State() == Sync(old(State()), None)
    {
      var waiting := ListUnpublished(None, None);
      metrics.RecordQueueDepth(|waiting|);
    }

    method Save(e: Event)
      requires Valid()
      modifies this, metrics
      ensures Valid() && State() == Outbox.Save(old(State()), e) && notified == old(notified) + 1
    {
      if e.id !in order {
        order := order + [e.id];
      }
      entries := entries[e.id := Row(e, false, 0, false)];
      notified := notified + 1;
      SyncMetrics();
    }

    method MarkPublished(id: EventId) returns (found: bool)
      requires Valid()
      modifies this, metrics
      ensures Valid() && (found <==> id in old(entries)) && notified == old(notified)
      ensures State() ==
        if found then Sync(old(State()).(box := old(Value()).With(id, old(entries)[id].(published := true))), None)
        else old(State())
    {
      if id !in entries {
        return false;
      }
      entries := entries[id := entries[id].(published := true)];
      SyncMetrics();
      return true;
    }

    method IncrementRetry(id: EventId) returns (found: bool)
      requires Valid()
      modifies this, metrics
      ensures Valid() && (found <==> id in old(entries)) && notified == old(notified)
      ensures State() ==
        if found
        then Sync(old(State()).(
                    box := old(Value()).With(id, old(entries)[id].(retry := old(entries)[id].retry + 1))), None)
        else old(State())
    {
      if id !in entries {
        return false;
      }
      entries := entries[id := entries[id].(retry := entries[id].retry + 1)];
      SyncMetrics();
      return true;
    }

    method MarkFailed(id: EventId) returns (found: bool)
      requires Valid()
      modifies this, metrics
      ensures Valid() && (found <==> id in old(entries)) && notified == old(notified)
      ensures State() ==
        if found then Sync(old(State()).(box := old(Value()).With(id, old(entries)[id].(dead := true))), None)
        else old(State())
    {
      if id !in entries {
        return false;
      }
      entries := entries[id := entries[id].(dead := true)];
      SyncMetrics();
      return true;
    }

    method Requeue(ids: seq<EventId>) returns (revived: seq<EventId>)
      requires Valid()
      modifies this, metrics
      ensures Valid() && State() == Outbox.Requeue(old(State()), ids)
      ensures order == old(order) && entries.Keys == old(entries).Keys
      ensures forall id :: id in entries ==>
                entries[id] == if old(entries)[id].dead && id in ids then Row(old(entries)[id].event, false, 0, false)
                               else old(entries)[id]
      ensures revived == Revived(old(State()), ids)
      ensures notified == old(notified) + (if revived == [] then 0 else 1)
    {
      RequeueEachIs(State(), ids);
      revived := [];
      for i := 0 to |ids|
        invariant Valid() && State() == RequeueEach(old(State()), ids[..i])
        invariant revived == Revived(old(State()), ids[..i]) && notified == old(notified)
      {
        assert ids[..i + 1][..i] == ids[..i];
        if ids[i] in entries && entries[ids[i]].dead {
          entries := entries[ids[i] := entries[ids[i]].(published := false, retry := 0, dead := false)];
          requeued := requeued + 1;
          revived := revived + [ids[i]];
        }
      }
      assert ids[..|ids|] == ids;
      SyncMetrics();
      if revived != [] {
        notified := notified + 1;
      }
    }
  }

  lemma {:induction false} SaveAllAppend(s: Sys, a: seq<Event>, b: seq<Event>)
    ensures SaveAll(s, a + b) == SaveAll(SaveAll(s, a), b)
  {
    hide Save;
    if b == [] {
      assert a + b == a;
    } else {
      SaveAllAppend(s, a, b[..|b| - 1]);
      assert (a + b)[..|a + b| - 1] == a + b[..|b| - 1];
    }
  }

  class InProcessDispatcher {
    const outbox: MemoryOutbox
    const metrics: EventMetrics
    const context: EventContext

    ghost predicate Valid()
      reads this, outbox
    {
      outbox.metrics == metrics && outbox.Valid()
    }

    constructor (box: MemoryOutbox, ctx: EventContext)
      requires box.Valid()
      ensures outbox == box && metrics == box.metrics && context == ctx && Valid()
    {
      outbox, metrics, context := box, box.metrics, ctx;
    }

    /** One handler call: it builds and saves its events in whatever context it finds. */
    method CallHandler(run: HandlerRun, ghost e: Event)
      requires Valid() && context.Value() == Context(e.correlation, Some(e.id))
      modifies outbox, metrics
      ensures Valid()
      ensures outbox.State() == SaveAll(old(outbox.State()), Descend(e, run.saves))
    {
      hide SaveAll, Descend;
      NothingSaved(outbox.State(), e);
      for i := 0 to |run.saves|
        invariant Valid() && context.Value() == Context(e.correlation, Some(e.id))
        invariant outbox.State() == SaveAll(old(outbox.State()), Descend(e, run.saves[..i]))
      {
        OneSaved(old(outbox.State()), e, run.saves, i);
        outbox.Save(Construct(run.saves[i], context.Value()));
      }
      assert run.saves[..|run.saves|] == run.saves;
    }

    /** Handlers in order, each in a context naming the event; the context is left as it was found
        whether they return or raise. */
    method Dispatch(e: Event, runs: seq<HandlerRun>) returns (ok: bool)
      requires Valid()
      modifies outbox, metrics, context
      ensures Valid() && context.Value() == old(context.Value())
      ensures ok == Dispatched(runs).0
      ensures var saved := SaveAll(old(outbox.State()), Descend(e, Dispatched(runs).1));
              outbox.State() == if ok then saved
                                else saved.(metrics := saved.metrics.(
                                              handlerFailures := saved.metrics.handlerFailures + 1))
    {
      hide SaveAll, Descend, Dispatched;
      ghost var start := outbox.State();
      NothingLeft(outbox.State(), e, runs);
      for i := 0 to |runs|
        invariant Valid() && context.Value() == old(context.Value())
        invariant Dispatched(runs[i..]).0 == Dispatched(runs).0
        invariant SaveAll(outbox.State(), Descend(e, Dispatched(runs[i..]).1)) ==
                  SaveAll(start, Descend(e, Dispatched(runs).1))
      {
        OneHandler(outbox.State(), e, runs, i);
        var token := context.Enter(e.correlation, Some(e.id));
        CallHandler(runs[i], e);
        context.Leave(token);
        if !runs[i].completes {
          metrics.RecordHandlerFailure();
          return false;
        }
      }
      NothingLeft(outbox.State(), e, runs);
      return true;
    }
  }

  lemma NothingSaved(s: Sys, e: Event)
    ensures SaveAll(s, Descend(e, [])) == s
  {
    assert Descend(e, []) == [];
  }

  lemma OneSaved(s: Sys, e: Event, drafts: seq<Event>, i: nat)
    requires i < |drafts|
    ensures SaveAll(s, Descend(e, drafts[..i + 1])) ==
            Save(SaveAll(s, Descend(e, drafts[..i])), Construct(drafts[i], Context(e.correlation, Some(e.id))))
  {
    assert Descend(e, drafts[..i + 1])[..i] == Descend(e, drafts[..i]);
  }

  lemma NothingLeft(s: Sys, e: Event, runs: seq<HandlerRun>)
    ensures runs[0..] == runs && Dispatched(runs[|runs|..]).0
    ensures SaveAll(s, Descend(e, Dispatched(runs[|runs|..]).1)) == s
  {
    assert Descend(e, []) == [];
  }

  /** Handler `i` saves its events; what the later ones save comes after. */
  lemma OneHandler(s: Sys, e: Event, runs: seq<HandlerRun>, i: nat)
    requires i < |runs|
    ensures !runs[i].completes ==> Dispatched(runs[i..]) == (false, runs[i].saves)
    ensures runs[i].completes ==>
      && Dispatched(runs[i..]).0 == Dispatched(runs[i + 1..]).0
      && SaveAll(s, Descend(e, Dispatched(runs[i..]).1))
         == SaveAll(SaveAll(s, Descend(e, runs[i].saves)), Descend(e, Dispatched(runs[i + 1..]).1))
  {
    hide SaveAll;
    assert runs[i..][0] == runs[i] && runs[i..][1..] == runs[i + 1..];
    if runs[i].completes {
      var rest := Dispatched(runs[i + 1..]).1;
      assert Descend(e, runs[i].saves + rest) == Descend(e, runs[i].saves) + Descend(e, rest);
      SaveAllAppend(s, Descend(e, runs[i].saves), Descend(e, rest));
    }
  }

  class OutboxWorker {
    const outbox: MemoryOutbox
    const dispatcher: InProcessDispatcher
    const metrics: EventMetrics
    const maxRetry: nat
    var pending: nat

    ghost predicate Valid()
      reads this, outbox, dispatcher, metrics
    {
      && dispatcher.outbox == outbox && dispatcher.metrics == metrics && dispatcher.Valid()
      && maxRetry >= 1 && Books(outbox.State(), maxRetry)
    }

    constructor (d: InProcessDispatcher, R: nat)
      requires d.Valid() && R >= 1 && Books(d.outbox.State(), R)
      ensures outbox == d.outbox && dispatcher == d && maxRetry == R && pending == 0 && Valid()
    {
      dispatcher, outbox, metrics, maxRetry, pending := d, d.outbox, d.metrics, R, 0;
    }

    method RecordDepth()
      requires outbox.Valid() && outbox.metrics == metrics
      modifies metrics
      ensures outbox.State() == Sync(old(outbox.State()), Some(maxRetry))
    {
      var waiting := outbox.ListUnpublished(None, Some(maxRetry));
      metrics.RecordQueueDepth(|waiting|);
    }

    /** Dispatch one entry of the snapshot and record the outcome. */
    method ProcessEntry(id: EventId, event: Event, runs: seq<HandlerRun>)
      requires Valid() && outbox.Value().IsPending(id) && outbox.entries[id].event == event
      requires Allowed(outbox.Value(), id, runs)
      modifies outbox, metrics, dispatcher.context
      ensures Valid() && dispatcher.context.Value() == old(dispatcher.context.Value())
      ensures outbox.State() == Process(old(outbox.State()), maxRetry, id, runs)
    {
      hide Books, SaveAll, Descend, NewIds, Unpublished;
      ghost var before := outbox.State();
      ghost var saved := SaveAll(before, Descend(event, Dispatched(runs).1));
      DescendIds(before.box, event, Dispatched(runs).1);
      SaveAllKeepsBooks(before, maxRetry, Descend(event, Dispatched(runs).1));
      ProcessKeepsBooks(before, maxRetry, id, runs);
      var ok := dispatcher.Dispatch(event, runs);
      // Nothing removes a row, so each of these finds its entry.
      if ok {
        var found := outbox.MarkPublished(id);
        metrics.RecordPublishSuccess();
        RecordDepth();
      } else {
        var found := outbox.IncrementRetry(id);
        metrics.RecordRetry();
        if outbox.entries[id].retry >= maxRetry {
          found := outbox.MarkFailed(id);
          metrics.RecordPermanentFailure();
          RecordDepth();
        }
      }
    }

    /** One pass over a snapshot of the unpublished entries. */
    method RunOnce(limit: Option<nat>, handlers: Handlers) returns (processed: nat)
      requires Valid() && WellBehaved(handlers)
      modifies this, outbox, metrics, dispatcher.context
      ensures Valid() && pending == old(pending)
      ensures dispatcher.context.Value() == old(dispatcher.context.Value())
      ensures outbox.State() == Outbox.RunOnce(old(outbox.State()), maxRetry, limit, handlers)
      ensures processed == |Batch(old(outbox.State()), maxRetry, limit)|
    {
      hide Process, Unpublished, Sync;
      ghost var before := outbox.State();
      BatchIsPending(before, maxRetry, limit);
      assert ProcessAll(before, maxRetry, Batch(before, maxRetry, limit)[..0], handlers) == before;
      var batch := outbox.ListUnpublished(limit, Some(maxRetry));
      RunOnceKeepsBooks(before, maxRetry, limit, handlers);
      if batch == [] {
        RecordDepth();
        return 0;
      }
      hide ProcessAll, Books, WellBehaved, Allowed;
      // The snapshot holds the events as they are now.
      var snapshot := outbox.entries;
      pending := pending + |batch|;
      for i := 0 to |batch|
        invariant Valid() && pending == old(pending) + |batch|
        invariant dispatcher.context.Value() == old(dispatcher.context.Value())
        invariant outbox.State() == ProcessAll(before, maxRetry, batch[..i], handlers)
      {
        NextOfBatch(before, maxRetry, batch, i + 1, handlers);
        var id := batch[i];
        ProcessEntry(id, snapshot[id].event, handlers(outbox.Value(), id));
      }
      assert batch[..|batch|] == batch;
      pending := Max(0, pending - |batch|);
      return |batch|;
    }
  }
}
