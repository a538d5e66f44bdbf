/** The worker thread, its producers and the callers of `wait_until_idle`, interleaved.

    A label is one atomic step: a critical section of the outbox lock or of the worker's condition.
  */
module OutboxIdle {
  import opened Common
  import opened Events
  import opened Outbox
  import opened OutboxTotals
  import opened OutboxBooks

  /** Where the worker thread is in `run_once`. */
  datatype Pc =
    | Resting
    | Snapped(batch: seq<EventId>)
    | Working(batch: seq<EventId>, next: nat)
    | Dispatching(batch: seq<EventId>, next: nat)
    | Exhausted(batch: seq<EventId>, next: nat)

  /** `counter` is the worker's `_pending`; `waiter` is the condition lock held by a caller that
      looked at the counter, and whether it saw zero. */
  datatype Machine = Machine(sys: Sys, pc: Pc, counter: int, waiter: Option<bool>)

  datatype Label =
    | Snapshot(limit: Option<nat>)
    | GrowPending
    | StartDispatch
    | HandlerSaves(event: Event)
    | DispatchReturns
    | DispatchRaises
    | MarkFailed
    | ShrinkPending
    | Produce(event: Event)
    | Revive(ids: seq<EventId>)
    | WaiterReadsCounter
    | WaiterGoesOn
    | WaiterAnswersIdle

  /** The second half of `_is_idle`: nothing is listed as unpublished. */
  predicate NothingListed(s: Sys, R: nat)
  {
    Unpublished(s.box.rows, s.box.order, Some(R)) == []
  }

  /** The entry the worker is at. */
  function Current(pc: Pc): Option<EventId>
  {
    match pc
    case Working(batch, next) => if next < |batch| then Some(batch[next]) else None
    case Dispatching(batch, next) => if next < |batch| then Some(batch[next]) else None
    case Exhausted(batch, next) => if next < |batch| then Some(batch[next]) else None
    case _ => None
  }

  /** Whether the step can happen now. */
  predicate Enabled(m: Machine, R: nat, l: Label)
  {
    match l
    case Snapshot(_) => m.pc.Resting?
    case GrowPending => m.pc.Snapped? && m.waiter.None?
    case StartDispatch => m.pc.Working? && Current(m.pc).Some?
    case HandlerSaves(e) => m.pc.Dispatching? && e.id !in m.sys.box.rows
    case DispatchReturns => m.pc.Dispatching? && Current(m.pc).Some? && Current(m.pc).value in m.sys.box.rows
    case DispatchRaises => m.pc.Dispatching? && Current(m.pc).Some? && Current(m.pc).value in m.sys.box.rows
    case MarkFailed => m.pc.Exhausted? && Current(m.pc).Some? && Current(m.pc).value in m.sys.box.rows
    case ShrinkPending => m.pc.Working? && m.pc.next == |m.pc.batch| && m.waiter.None?
    case Produce(e) => e.id !in m.sys.box.rows
    case Revive(_) => true
    case WaiterReadsCounter => m.waiter.None?
    case WaiterGoesOn => m.waiter.Some?
    case WaiterAnswersIdle => m.waiter == Some(true) && NothingListed(m.sys, R)
  }

  function After(m: Machine, R: nat, l: Label): Machine
    requires Enabled(m, R, l)
  {
    match l
    case Snapshot(limit) =>
      var batch := Batch(m.sys, R, limit);
      if batch == [] then m.(sys := Sync(m.sys, Some(R))) else m.(pc := Snapped(batch))
    case GrowPending => m.(counter := m.counter + |m.pc.batch|, pc := Working(m.pc.batch, 0))
    case StartDispatch => m.(pc := Dispatching(m.pc.batch, m.pc.next))
    case HandlerSaves(e) => m.(sys := Save(m.sys, e))
    case DispatchReturns =>
      m.(sys := Publish(m.sys, R, Current(m.pc).value), pc := Working(m.pc.batch, m.pc.next + 1))
    case DispatchRaises =>
      var s := Retry(m.sys, Current(m.pc).value);
      m.(sys := s,
         pc := if s.box.rows[Current(m.pc).value].retry >= R then Exhausted(m.pc.batch, m.pc.next)
               else Working(m.pc.batch, m.pc.next + 1))
    case MarkFailed =>
      m.(sys := Bury(m.sys, R, Current(m.pc).value), pc := Working(m.pc.batch, m.pc.next + 1))
    case ShrinkPending => m.(counter := Max(0, m.counter - |m.pc.batch|), pc := Resting)
    case Produce(e) => m.(sys := Save(m.sys, e))
    case Revive(ids) => m.(sys := Requeue(m.sys, ids))
    case WaiterReadsCounter => m.(waiter := Some(m.counter == 0))
    case WaiterGoesOn => m.(waiter := None)
    case WaiterAnswersIdle => m.(waiter := None)
  }

  const START := Machine(INITIAL, Resting, 0, None)

  /** The state after a schedule, or `None` if it asks for a step that cannot happen then. */
  function Execute(m: Machine, R: nat, labels: seq<Label>): Option<Machine>
  {
    if labels == [] then Some(m)
    else
      var k, l := Execute(m, R, labels[..|labels| - 1]), labels[|labels| - 1];
      if k.Some? && Enabled(k.value, R, l) then Some(After(k.value, R, l)) else None
  }

  /** The entries of the snapshot the worker has not settled yet. */
  function Unsettled(pc: Pc): seq<EventId>
  {
    match pc
    case Resting => []
    case Snapped(batch) => batch
    case Working(batch, next) => if next <= |batch| then batch[next..] else []
    case Dispatching(batch, next) => if next <= |batch| then batch[next..] else []
    case Exhausted(batch, next) => if next < |batch| then batch[next + 1..] else []
  }

  /** An entry between its last retry and `mark_failed`. */
  predicate InWindow(pc: Pc, id: EventId)
  {
    pc.Exhausted? && Current(pc) == Some(id)
  }

  ghost predicate Rows(m: Machine, R: nat)
  {
    && m.sys.box.Valid()
    && forall id :: id in m.sys.box.rows ==>
         && !(m.sys.box.rows[id].published && m.sys.box.rows[id].dead)
         && (m.sys.box.rows[id].Pending() ==> m.sys.box.rows[id].retry < R || InWindow(m.pc, id))
  }

  ghost predicate Snapshots(m: Machine, R: nat)
  {
    && (!m.pc.Resting? ==> m.pc.batch != [] && Distinct(m.pc.batch))
    && (m.pc.Working? ==> m.pc.next <= |m.pc.batch|)
    && (m.pc.Dispatching? || m.pc.Exhausted? ==> m.pc.next < |m.pc.batch|)
    && (forall id :: id in Unsettled(m.pc) ==> m.sys.box.IsPending(id) && m.sys.box.rows[id].retry < R)
    && (m.pc.Exhausted? ==> m.sys.box.IsPending(Current(m.pc).value))
  }

  /** The counter says how much of a snapshot is under way, and cannot move while a waiter looks. */
  ghost predicate Counts(m: Machine)
  {
    && m.counter == (if m.pc.Resting? || m.pc.Snapped? then 0 else |m.pc.batch|)
    && (m.waiter == Some(true) ==> m.counter == 0)
  }

  ghost predicate Inv(m: Machine, R: nat)
  {
    Rows(m, R) && Snapshots(m, R) && Counts(m)
  }

  /** Steps that only add rows, or bring dead ones back. */
  lemma RevivedRows(s: Sys, ids: seq<EventId>)
    requires s.box.Valid()
    ensures var t := RequeueEach(s, ids);
            && t.box.Valid() && t.box.rows.Keys == s.box.rows.Keys
            && forall id :: id in s.box.rows ==>
                 t.box.rows[id] == s.box.rows[id]
                 || (s.box.rows[id].dead && t.box.rows[id] == Row(s.box.rows[id].event, false, 0, false))
  {
    if ids != [] {
      RevivedRows(s, ids[..|ids| - 1]);
    }
  }

  lemma SaveKeepsInv(m: Machine, R: nat, e: Event)
    requires R >= 1 && Inv(m, R) && e.id !in m.sys.box.rows
    ensures Inv(m.(sys := Save(m.sys, e)), R)
  {
    hide Unpublished, Sum;
    TotalPut(m.sys.box, e, Waiting);
    var n := m.(sys := Save(m.sys, e));
    assert n.sys.box.rows == m.sys.box.rows[e.id := Row(e, false, 0, false)];
    assert Rows(n, R);
  }

  lemma ReviveKeepsInv(m: Machine, R: nat, ids: seq<EventId>)
    requires R >= 1 && Inv(m, R)
    ensures Inv(m.(sys := Requeue(m.sys, ids)), R)
  {
    RevivedRows(m.sys, ids);
  }

  lemma SnapshotKeepsInv(m: Machine, R: nat, limit: Option<nat>)
    requires R >= 1 && Inv(m, R) && m.pc.Resting?
    ensures Inv(After(m, R, Snapshot(limit)), R)
  {
    BatchIsPending(m.sys, R, limit);
  }

  /** What an outcome does: it changes the current entry only, and moves on, or leaves it for `mark_failed`. */
  ghost predicate Outcome(m: Machine, n: Machine, R: nat, id: EventId)
  {
    && (m.pc.Dispatching? || m.pc.Exhausted?) && Current(m.pc) == Some(id)
    && id in n.sys.box.rows && n.sys.box == m.sys.box.With(id, n.sys.box.rows[id])
    && !(n.sys.box.rows[id].published && n.sys.box.rows[id].dead)
    && n.counter == m.counter && n.waiter == m.waiter
    && if n.sys.box.rows[id].Pending() && n.sys.box.rows[id].retry >= R
       then n.pc == Exhausted(m.pc.batch, m.pc.next)
       else n.pc == Working(m.pc.batch, m.pc.next + 1)
  }

  lemma OutcomeHappens(m: Machine, R: nat, l: Label)
    requires R >= 1 && Inv(m, R) && Enabled(m, R, l)
    requires l.DispatchReturns? || l.DispatchRaises? || l.MarkFailed?
    ensures Current(m.pc).Some? && Outcome(m, After(m, R, l), R, Current(m.pc).value)
  {
    hide Unpublished, Sum, Distinct;
    assert m.pc.Dispatching? ==> m.pc.batch[m.pc.next] in Unsettled(m.pc);
  }

  lemma OutcomeKeepsRows(m: Machine, n: Machine, R: nat, id: EventId)
    requires Rows(m, R) && Outcome(m, n, R, id) && id in m.sys.box.rows
    ensures Rows(n, R)
  {
  }

  lemma OutcomeKeepsSnapshots(m: Machine, n: Machine, R: nat, id: EventId)
    requires Snapshots(m, R) && Outcome(m, n, R, id) && id in m.sys.box.rows
    ensures Snapshots(n, R)
  {
    var batch, next := m.pc.batch, m.pc.next;
    assert batch[next..] == [id] + batch[next + 1..];
    assert id !in batch[next + 1..];
    forall x | x in Unsettled(n.pc) ensures n.sys.box.IsPending(x) && n.sys.box.rows[x].retry < R {
      assert x in batch[next + 1..] && x in Unsettled(m.pc);
    }
  }

  lemma OutcomeKeepsInv(m: Machine, R: nat, l: Label)
    requires R >= 1 && Inv(m, R) && Enabled(m, R, l)
    requires l.DispatchReturns? || l.DispatchRaises? || l.MarkFailed?
    ensures Inv(After(m, R, l), R)
  {
    OutcomeHappens(m, R, l);
    OutcomeKeepsRows(m, After(m, R, l), R, Current(m.pc).value);
    hide After, Rows;
    OutcomeKeepsSnapshots(m, After(m, R, l), R, Current(m.pc).value);
    hide Snapshots;
  }

  lemma StepKeepsInv(m: Machine, R: nat, l: Label)
    requires R >= 1 && Inv(m, R) && Enabled(m, R, l)
    ensures Inv(After(m, R, l), R)
  {
    match l
    case Snapshot(limit) => SnapshotKeepsInv(m, R, limit);
    case HandlerSaves(e) => SaveKeepsInv(m, R, e);
    case Produce(e) => SaveKeepsInv(m, R, e);
    case Revive(ids) => ReviveKeepsInv(m, R, ids);
    case DispatchReturns => OutcomeKeepsInv(m, R, l);
    case DispatchRaises => OutcomeKeepsInv(m, R, l);
    case MarkFailed => OutcomeKeepsInv(m, R, l);
    case GrowPending => assert m.pc.batch[0..] == m.pc.batch;
    case _ =>
  }

  lemma {:induction false} ReachableInv(R: nat, labels: seq<Label>)
    requires R >= 1 && Execute(START, R, labels).Some?
    ensures Inv(Execute(START, R, labels).value, R)
  {
    if labels != [] {
      hide Inv;
      ReachableInv(R, labels[..|labels| - 1]);
      StepKeepsInv(Execute(START, R, labels[..|labels| - 1]).value, R, labels[|labels| - 1]);
    }
  }

  /** Entries still to be settled are listed, whichever window the worker is in. */
  lemma ListedWhileUnsettled(m: Machine, R: nat)
    requires Inv(m, R) && NothingListed(m.sys, R)
    ensures Unsettled(m.pc) == []
    ensures forall id :: id in m.sys.box.rows && m.sys.box.rows[id].Pending() ==> InWindow(m.pc, id)
  {
    var listed := Unpublished(m.sys.box.rows, m.sys.box.order, Some(R));
    UnpublishedIsExact(m.sys.box.rows, m.sys.box.order, Some(R));
    forall id | id in m.sys.box.rows
      ensures m.sys.box.rows[id].Pending() ==> m.sys.box.rows[id].retry >= R
    {
      assert id in m.sys.box.order && id !in listed;
    }
    EmptyOrMember(Unsettled(m.pc));
  }

  /** Under every interleaving, at the moment `_is_idle` answers true no dispatch is in flight, no
      snapshot is held, and every entry is published or a dead letter, and not both. */
  lemma {:induction false} IdleMeansSettled(R: nat, labels: seq<Label>)
    requires R >= 1 && Execute(START, R, labels).Some?
    requires Enabled(Execute(START, R, labels).value, R, WaiterAnswersIdle)
    ensures var m := Execute(START, R, labels).value;
            && m.pc.Resting?
            && forall id :: id in m.sys.box.rows ==> (m.sys.box.rows[id].published <==> !m.sys.box.rows[id].dead)
  {
    ReachableInv(R, labels);
    ListedWhileUnsettled(Execute(START, R, labels).value, R);
  }

  /** Conversely, once everything is settled and the worker rests, a waiter gets its answer. */
  lemma {:induction false} SettledMeansIdle(R: nat, labels: seq<Label>)
    requires R >= 1 && Execute(START, R, labels).Some?
    requires var m := Execute(START, R, labels).value;
             && m.waiter.None? && m.pc.Resting?
             && forall id :: id in m.sys.box.rows ==> m.sys.box.rows[id].published || m.sys.box.rows[id].dead
    ensures Enabled(After(Execute(START, R, labels).value, R, WaiterReadsCounter), R, WaiterAnswersIdle)
  {
    var m := Execute(START, R, labels).value;
    ReachableInv(R, labels);
    var listed := Unpublished(m.sys.box.rows, m.sys.box.order, Some(R));
    UnpublishedIsExact(m.sys.box.rows, m.sys.box.order, Some(R));
    EmptyOrMember(listed);
  }
}
