/** Domain events, the lineage context they are built in, and the handler registrations. */
module Events {
  import opened Common
  import opened Lineage

  type EventId = nat

  /** The event types that have handlers, the ones the trust handlers save, and all others. */
  datatype EventType =
    | ImageUploaded
    | TransactionCompleted
    | ReservationCompleted
    | PaymentReleased
    | ReviewSubmitted
    | DisputeResolved
    | TrustChange
    | OtherEvent

  datatype Event = Event(
    id: EventId,
    eventType: EventType,
    aggregate: nat,
    occurredAt: int,
    correlation: Option<nat>,
    causation: Option<EventId>)

  const EMPTY_CONTEXT: Context<nat, EventId> := Context(None, None)

  /** Construction fills in whatever lineage the caller left open. */
  function Construct(e: Event, ctx: Context<nat, EventId>): Event
  {
    e.(correlation := Inherited(e.correlation, ctx.correlation), causation := Inherited(e.causation, ctx.causation))
  }

  /** The registered handlers of each event type. */
  function HandlerCount(t: EventType): nat
  {
    if t in {TrustChange, OtherEvent} then 0 else 1
  }

  /** Whether the registered handler saves trust events. */
  predicate SavesEvents(t: EventType)
  {
    t in {TransactionCompleted, ReservationCompleted, PaymentReleased, ReviewSubmitted, DisputeResolved}
  }

  /** The most events one call of a registered handler saves. */
  const MAX_SAVES := 4

  /** One handler call: the events it saves, and whether it then returns or raises. */
  datatype HandlerRun = HandlerRun(completes: bool, saves: seq<Event>)

  /** Handlers run in order up to the first that raises. */
  function Dispatched(runs: seq<HandlerRun>): (bool, seq<Event>)
  {
    if runs == [] then (true, [])
    else if !runs[0].completes then (false, runs[0].saves)
    else
      var (ok, saves) := Dispatched(runs[1..]);
      (ok, runs[0].saves + saves)
  }
}

/** The in-memory outbox, its counters, and one pass of the worker, on values. */
module Outbox {
  import opened Common
  import opened Lineage
  import opened Events

  datatype Row = Row(event: Event, published: bool, retry: nat, dead: bool) {
    predicate Pending() { !published && !dead }
  }

  /** Rows by entry id, and the ids in the order they were first saved. */
  datatype Box = Box(rows: map<EventId, Row>, order: seq<EventId>) {
    ghost predicate Valid()
    {
      && Distinct(order)
      && forall id :: id in order <==> id in rows
    }

    predicate IsPending(id: EventId) { id in rows && rows[id].Pending() }

    function With(id: EventId, row: Row): Box
    {
      this.(rows := rows[id := row])
    }
  }

  const EMPTY_BOX := Box(map[], [])

  function Put(b: Box, e: Event): Box
  {
    Box(b.rows[e.id := Row(e, false, 0, false)], if e.id in b.rows then b.order else b.order + [e.id])
  }

  /** Entries neither published nor dead, below the retry bound if there is one, oldest first. */
  function Unpublished(rows: map<EventId, Row>, order: seq<EventId>, bound: Option<nat>): seq<EventId>
  {
    if order == [] then []
    else
      var id := order[|order| - 1];
      Unpublished(rows, order[..|order| - 1], bound) +
      (if id in rows && rows[id].Pending() && (bound.Some? ==> rows[id].retry < bound.value) then [id] else [])
  }

  function Depth(b: Box, bound: Option<nat>): nat
  {
    |Unpublished(b.rows, b.order, bound)|
  }

  datatype Metrics = Metrics(published: nat, handlerFailures: nat, retries: nat, deadLetters: nat, queueDepth: nat)

  /** The outbox with its counters; `requeued` counts the entries brought back from the dead. */
  datatype Sys = Sys(box: Box, metrics: Metrics, requeued: nat)

  const INITIAL := Sys(EMPTY_BOX, Metrics(0, 0, 0, 0, 0), 0)

  function Sync(s: Sys, bound: Option<nat>): Sys
  {
    s.(metrics := s.metrics.(queueDepth := Depth(s.box, bound)))
  }

  function Save(s: Sys, e: Event): Sys
  {
    Sync(s.(box := Put(s.box, e)), None)
  }

  function SaveAll(s: Sys, es: seq<Event>): Sys
  {
    if es == [] then s else Save(SaveAll(s, es[..|es| - 1]), es[|es| - 1])
  }

  /** `mark_published` and the counters recorded with it. */
  function Publish(s: Sys, R: nat, id: EventId): Sys
    requires id in s.box.rows
  {
    var t := s.(box := s.box.With(id, s.box.rows[id].(published := true)));
    Sync(t.(metrics := t.metrics.(published := t.metrics.published + 1)), Some(R))
  }

  /** A raising dispatch: the failure is counted, then `increment_retry`. */
  function Retry(s: Sys, id: EventId): Sys
    requires id in s.box.rows
  {
    var t := s.(box := s.box.With(id, s.box.rows[id].(retry := s.box.rows[id].retry + 1)));
    Sync(t.(metrics := t.metrics.(handlerFailures := t.metrics.handlerFailures + 1,
                                  retries := t.metrics.retries + 1)), None)
  }

  /** `mark_failed` and the counters recorded with it. */
  function Bury(s: Sys, R: nat, id: EventId): Sys
    requires id in s.box.rows
  {
    var t := s.(box := s.box.With(id, s.box.rows[id].(dead := true)));
    Sync(t.(metrics := t.metrics.(deadLetters := t.metrics.deadLetters + 1)), Some(R))
  }

  /** Events a handler builds carry the lineage of the event being dispatched. */
  function Descend(e: Event, drafts: seq<Event>): seq<Event>
  {
    seq(|drafts|, i requires 0 <= i < |drafts| => Construct(drafts[i], Context(e.correlation, Some(e.id))))
  }

  /** The outcome of one dispatch is recorded, the handler's own saves having happened. */
  function Settle(s: Sys, R: nat, id: EventId, ok: bool): Sys
    requires id in s.box.rows
  {
    if ok then Publish(s, R, id)
    else
      var t := Retry(s, id);
      if t.box.rows[id].retry >= R then Bury(t, R, id) else t
  }

  /** One entry of a batch. */
  function Process(s: Sys, R: nat, id: EventId, runs: seq<HandlerRun>): Sys
    requires id in s.box.rows
  {
    var (ok, drafts) := Dispatched(runs);
    var t := SaveAll(s, Descend(s.box.rows[id].event, drafts));
    if id in t.box.rows then Settle(t, R, id, ok) else t
  }

  /** How handlers behave, whatever they look at. */
  type Handlers = (Box, EventId) -> seq<HandlerRun>

  function ProcessAll(s: Sys, R: nat, batch: seq<EventId>, handlers: Handlers): Sys
  {
    if batch == [] then s
    else
      var t := ProcessAll(s, R, batch[..|batch| - 1], handlers);
      var id := batch[|batch| - 1];
      if id in t.box.rows then Process(t, R, id, handlers(t.box, id)) else t
  }

  function Batch(s: Sys, R: nat, limit: Option<nat>): seq<EventId>
  {
    Limited(Unpublished(s.box.rows, s.box.order, Some(R)), limit)
  }

  /** One `run_once`. */
  function RunOnce(s: Sys, R: nat, limit: Option<nat>, handlers: Handlers): Sys
  {
    var batch := Batch(s, R, limit);
    if batch == [] then Sync(s, Some(R)) else ProcessAll(s, R, batch, handlers)
  }

  function RequeueOne(s: Sys, id: EventId): Sys
  {
    if id in s.box.rows && s.box.rows[id].dead
    then s.(box := s.box.With(id, Row(s.box.rows[id].event, false, 0, false)), requeued := s.requeued + 1)
    else s
  }

  function RequeueEach(s: Sys, ids: seq<EventId>): Sys
  {
    if ids == [] then s else RequeueOne(RequeueEach(s, ids[..|ids| - 1]), ids[|ids| - 1])
  }

  /** The entries a requeue brings back, in the order they were asked for. */
  function Revived(s: Sys, ids: seq<EventId>): seq<EventId>
  {
    if ids == [] then []
    else
      var t, id := RequeueEach(s, ids[..|ids| - 1]), ids[|ids| - 1];
      Revived(s, ids[..|ids| - 1]) + (if id in t.box.rows && t.box.rows[id].dead then [id] else [])
  }

  function Requeue(s: Sys, ids: seq<EventId>): Sys
  {
    Sync(RequeueEach(s, ids), None)
  }

  // ---- What handlers may do ----

  /** The ids of `es` are new to the outbox and differ from each other. */
  ghost predicate NewIds(b: Box, es: seq<Event>)
  {
    && (forall i :: 0 <= i < |es| ==> es[i].id !in b.rows)
    && (forall i, j :: 0 <= i < j < |es| ==> es[i].id != es[j].id)
  }

  /** Saved events are new, of the trust types, at most four, and leave their lineage open. */
  ghost predicate Allowed(b: Box, id: EventId, runs: seq<HandlerRun>)
    requires id in b.rows
  {
    var t, drafts := b.rows[id].event.eventType, Dispatched(runs).1;
    && |runs| == HandlerCount(t)
    && |drafts| <= (if SavesEvents(t) then MAX_SAVES else 0)
    && NewIds(b, drafts)
    && (forall i :: 0 <= i < |drafts| ==>
          drafts[i].eventType == TrustChange && drafts[i].correlation.None? && drafts[i].causation.None?)
  }

  ghost predicate WellBehaved(handlers: Handlers)
  {
    forall b: Box, id: EventId :: b.Valid() && b.IsPending(id) ==> Allowed(b, id, handlers(b, id))
  }
}
