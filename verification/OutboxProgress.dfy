/** Progress of the interleaved worker: with any limits and any interruptions, its dispatches use up what
    producers and requeues brought in. */
module OutboxProgress {
  import opened Common
  import opened Events
  import opened Outbox
  import opened OutboxTotals
  import opened OutboxDrain
  import opened OutboxIdle

  predicate IsOutcome(l: Label)
  {
    l.DispatchReturns? || l.DispatchRaises?
  }

  /** Completed dispatches of a schedule. */
  function Outcomes(labels: seq<Label>): nat
  {
    if labels == [] then 0
    else Outcomes(labels[..|labels| - 1]) + (if IsOutcome(labels[|labels| - 1]) then 1 else 0)
  }

  /** Events that were produced or asked to be revived. */
  function Arrivals(labels: seq<Label>): nat
  {
    if labels == [] then 0
    else Arrivals(labels[..|labels| - 1]) + Arriving(labels[|labels| - 1])
  }

  function Arriving(l: Label): nat
  {
    match l
    case Produce(_) => 1
    case Revive(ids) => |ids|
    case _ => 0
  }

  /** Events the dispatch in flight has saved so far. */
  function InFlight(labels: seq<Label>): nat
  {
    if labels == [] then 0
    else SavedAfter(InFlight(labels[..|labels| - 1]), labels[|labels| - 1])
  }

  function SavedAfter(saved: nat, l: Label): nat
  {
    if l.StartDispatch? || IsOutcome(l) then 0 else if l.HandlerSaves? then saved + 1 else saved
  }

  /** How many events the handlers of the entry being dispatched may save. */
  function Allowance(m: Machine): nat
  {
    match Current(m.pc)
    case None => 0
    case Some(id) =>
      if id in m.sys.box.rows && SavesEvents(m.sys.box.rows[id].event.eventType) then MAX_SAVES else 0
  }

  predicate Obeys(m: Machine, saved: nat, l: Label)
  {
    l.HandlerSaves? ==> l.event.eventType == TrustChange && saved < Allowance(m)
  }

  /** Handlers save what the registered ones can: trust events, and at most four of them. */
  predicate Obedient(R: nat, labels: seq<Label>)
  {
    labels == [] ||
    (var prefix, last := labels[..|labels| - 1], labels[|labels| - 1];
     && Obedient(R, prefix)
     && match Execute(START, R, prefix)
        case None => true
        case Some(m) => Obeys(m, InFlight(prefix), last))
  }

  /** The dispatches one arriving event can cause, with those of the events its handlers save. */
  function Unit(R: nat): nat
  {
    R * (1 + MAX_SAVES * R)
  }

  // ---- What a step does to the measure ----

  lemma FreshWorth(e: Event, R: nat)
    ensures 0 <= Worth(Work(R), Row(e, false, 0, false)) <= Unit(R)
  {
    MonotoneProduct(1, 1 + MAX_SAVES * R, R);
  }

  lemma {:induction false} RevivingAdds(s: Sys, R: nat, ids: seq<EventId>)
    requires s.box.Valid()
    ensures RequeueEach(s, ids).box.Valid()
    ensures Remaining(RequeueEach(s, ids), R) <= Remaining(s, R) + |ids| * Unit(R)
  {
    if ids != [] {
      hide Unit, Worth, Sum;
      var t, id := RequeueEach(s, ids[..|ids| - 1]), ids[|ids| - 1];
      RevivingAdds(s, R, ids[..|ids| - 1]);
      OneMore(|ids| - 1, Unit(R));
      if id in t.box.rows && t.box.rows[id].dead {
        TotalWith(t.box, id, Row(t.box.rows[id].event, false, 0, false), Work(R));
        FreshWorth(t.box.rows[id].event, R);
        WorthNonNegative(Work(R), t.box.rows[id]);
      }
    }
  }

  lemma PublishLowers(s: Sys, R: nat, id: EventId)
    requires s.box.Valid() && s.box.IsPending(id) && s.box.rows[id].retry < R
    ensures Remaining(Publish(s, R, id), R) <= Remaining(s, R) - Share(s.box.rows[id], R)
  {
    AttemptCosts(s.box.rows[id], R);
    hide Worth, Sum, Unpublished, Share;
    TotalWith(s.box, id, s.box.rows[id].(published := true), Work(R));
  }

  lemma RetryLowers(s: Sys, R: nat, id: EventId)
    requires s.box.Valid() && s.box.IsPending(id) && s.box.rows[id].retry < R
    ensures Remaining(Retry(s, id), R) <= Remaining(s, R) - Share(s.box.rows[id], R)
  {
    var row := s.box.rows[id];
    AttemptCosts(row, R);
    hide Worth, Sum, Unpublished, Share;
    TotalWith(s.box, id, row.(retry := row.retry + 1), Work(R));
  }

  lemma CurrentIsPending(m: Machine, R: nat)
    requires Inv(m, R) && m.pc.Dispatching?
    ensures Current(m.pc).Some? && m.sys.box.IsPending(Current(m.pc).value)
    ensures m.sys.box.rows[Current(m.pc).value].retry < R
  {
    assert m.pc.batch[m.pc.next..][0] == Current(m.pc).value;
    assert Current(m.pc).value in Unsettled(m.pc);
  }

  lemma OutcomeLowers(m: Machine, R: nat, l: Label)
    requires Inv(m, R) && Enabled(m, R, l) && IsOutcome(l)
    ensures Remaining(After(m, R, l).sys, R) <= Remaining(m.sys, R) - 1 - Allowance(m) * R
  {
    CurrentIsPending(m, R);
    hide Remaining, Publish, Retry, Inv;
    if l.DispatchReturns? {
      PublishLowers(m.sys, R, Current(m.pc).value);
    } else {
      RetryLowers(m.sys, R, Current(m.pc).value);
    }
  }

  lemma BuryingLowers(m: Machine, R: nat)
    requires Inv(m, R) && Enabled(m, R, MarkFailed)
    ensures Remaining(After(m, R, MarkFailed).sys, R) <= Remaining(m.sys, R)
  {
    var id := Current(m.pc).value;
    hide Sum, Unpublished;
    WorthNonNegative(Work(R), m.sys.box.rows[id]);
    TotalWith(m.sys.box, id, m.sys.box.rows[id].(dead := true), Work(R));
  }

  lemma SavingAdds(m: Machine, R: nat, l: Label)
    requires R >= 1 && Inv(m, R) && Enabled(m, R, l) && (l.HandlerSaves? || l.Produce?)
    ensures l.HandlerSaves? && l.event.eventType == TrustChange ==>
              Remaining(After(m, R, l).sys, R) == Remaining(m.sys, R) + R
    ensures Remaining(After(m, R, l).sys, R) <= Remaining(m.sys, R) + Unit(R)
  {
    hide Unpublished, Unit, Sum;
    TotalPut(m.sys.box, l.event, Work(R));
    FreshWorth(l.event, R);
  }

  lemma OtherKeeps(m: Machine, R: nat, l: Label)
    requires Enabled(m, R, l) && !IsOutcome(l)
    requires !l.HandlerSaves? && !l.Produce? && !l.Revive? && !l.MarkFailed?
    ensures Remaining(After(m, R, l).sys, R) == Remaining(m.sys, R)
  {
    hide Unpublished, Sum;
  }

  /** The bookkeeping of the theorem, and what keeps it. */
  ghost predicate Paid(m: Machine, R: nat, outcomes: nat, arrivals: nat, saved: nat)
  {
    && outcomes + Due(m, R, saved) <= Unit(R) * arrivals
    && saved <= (if m.pc.Dispatching? then Allowance(m) else 0)
  }

  /** A step changes neither the event being dispatched nor its type. */
  lemma AllowanceStays(m: Machine, R: nat, l: Label)
    requires Inv(m, R) && Enabled(m, R, l) && m.pc.Dispatching? && After(m, R, l).pc.Dispatching?
    ensures Allowance(After(m, R, l)) == Allowance(m)
  {
    hide Unpublished, Sum;
    if l.Revive? {
      RevivedRows(m.sys, l.ids);
    }
    CurrentIsPending(m, R);
  }

  lemma PhaseOf(m: Machine, R: nat, l: Label)
    requires Enabled(m, R, l)
    ensures After(m, R, l).pc.Dispatching? ==> m.pc.Dispatching? || l.StartDispatch?
    ensures m.pc.Dispatching? && !IsOutcome(l) ==> After(m, R, l).pc.Dispatching?
    ensures l.HandlerSaves? ==> m.pc.Dispatching?
    ensures l.StartDispatch? ==> !m.pc.Dispatching?
    ensures IsOutcome(l) ==> m.pc.Dispatching?
  {
    hide Unpublished;
  }

  /** What the saved events of the dispatch in flight are worth. */
  function Lent(R: nat, saved: nat): int
  {
    R * saved
  }

  lemma Lending(R: nat, saved: nat, allowed: nat)
    ensures saved <= allowed ==> Lent(R, saved) <= allowed * R
    ensures Lent(R, saved + 1) == Lent(R, saved) + R
    ensures Lent(R, 0) == 0
  {
    MonotoneProduct(saved, allowed, R);
  }

  /** It is set off against the measure. */
  function Due(m: Machine, R: nat, saved: nat): int
  {
    Remaining(m.sys, R) - Lent(R, saved)
  }

  lemma DueAtOutcome(m: Machine, R: nat, l: Label, saved: nat)
    requires Inv(m, R) && Enabled(m, R, l) && IsOutcome(l) && saved <= Allowance(m)
    ensures 1 + Due(After(m, R, l), R, 0) <= Due(m, R, saved)
  {
    Lending(R, saved, Allowance(m));
    hide *;
    OutcomeLowers(m, R, l);
    DueIs(m, R, saved);
    DueIs(After(m, R, l), R, 0);
  }

  lemma DueIs(m: Machine, R: nat, saved: nat)
    ensures Due(m, R, saved) == Remaining(m.sys, R) - Lent(R, saved)
  {
  }

  lemma DueAtSave(m: Machine, R: nat, l: Label, saved: nat)
    requires R >= 1 && Inv(m, R) && Enabled(m, R, l) && l.HandlerSaves? && l.event.eventType == TrustChange
    ensures Due(After(m, R, l), R, saved + 1) == Due(m, R, saved)
  {
    Lending(R, saved, 0);
    hide *;
    SavingAdds(m, R, l);
    DueIs(m, R, saved);
    DueIs(After(m, R, l), R, saved + 1);
  }

  lemma DueOtherwise(m: Machine, R: nat, l: Label, saved: nat)
    requires R >= 1 && Inv(m, R) && Enabled(m, R, l) && !IsOutcome(l) && !l.HandlerSaves?
    ensures Due(After(m, R, l), R, saved) <= Due(m, R, saved) + Arriving(l) * Unit(R)
  {
    DueIs(m, R, saved);
    DueIs(After(m, R, l), R, saved);
    ArrivalCounts(l, R);
    hide *;
    if l.Produce? {
      SavingAdds(m, R, l);
    } else if l.MarkFailed? {
      BuryingLowers(m, R);
    } else if l.Revive? {
      Revives(m, R, l.ids);
    } else {
      OtherKeeps(m, R, l);
    }
  }

  lemma ArrivalCounts(l: Label, R: nat)
    ensures Arriving(l) * Unit(R) == if l.Produce? then Unit(R) else if l.Revive? then |l.ids| * Unit(R) else 0
  {
    hide Unit;
  }

  /** A step lowers what is due by its outcomes, up to what arrives with it. */
  lemma DueStep(m: Machine, R: nat, l: Label, saved: nat)
    requires R >= 1 && Inv(m, R) && Enabled(m, R, l) && Obeys(m, saved, l)
    requires saved <= (if m.pc.Dispatching? then Allowance(m) else 0)
    ensures (if IsOutcome(l) then 1 else 0) + Due(After(m, R, l), R, SavedAfter(saved, l)) <=
            Due(m, R, saved) + Arriving(l) * Unit(R)
  {
    PhaseOf(m, R, l);
    SavedIs(saved, l, R);
    hide Inv, After, Enabled, Unit, Allowance, Due, Arriving, SavedAfter;
    if IsOutcome(l) {
      DueAtOutcome(m, R, l, saved);
    } else if l.HandlerSaves? {
      DueAtSave(m, R, l, saved);
    } else {
      DueOtherwise(m, R, l, saved);
    }
  }

  lemma SavedIs(saved: nat, l: Label, R: nat)
    ensures IsOutcome(l) || l.HandlerSaves? ==> Arriving(l) * Unit(R) == 0
    ensures SavedAfter(saved, l) ==
            if l.StartDispatch? || IsOutcome(l) then 0 else if l.HandlerSaves? then saved + 1 else saved
  {
    hide Unit;
  }

  lemma PaidStep(m: Machine, R: nat, l: Label, outcomes: nat, arrivals: nat, saved: nat)
    requires R >= 1 && Inv(m, R) && Enabled(m, R, l)
    requires Paid(m, R, outcomes, arrivals, saved) && Obeys(m, saved, l)
    ensures Paid(After(m, R, l), R, outcomes + (if IsOutcome(l) then 1 else 0), arrivals + Arriving(l),
                 SavedAfter(saved, l))
  {
    PhaseOf(m, R, l);
    if m.pc.Dispatching? && After(m, R, l).pc.Dispatching? {
      AllowanceStays(m, R, l);
    }
    Arrive(R, arrivals, Arriving(l));
    hide Inv, After, Enabled, Remaining, Unit, Allowance, Arriving;
    DueStep(m, R, l, saved);
  }

  lemma Revives(m: Machine, R: nat, ids: seq<EventId>)
    requires Inv(m, R)
    ensures Remaining(After(m, R, Label.Revive(ids)).sys, R) <= Remaining(m.sys, R) + |ids| * Unit(R)
  {
    hide Unit, Unpublished, Sum;
    RevivingAdds(m.sys, R, ids);
  }

  lemma Arrive(R: nat, a: nat, b: nat)
    ensures Unit(R) * (a + b) == Unit(R) * a + b * Unit(R)
  {
    hide Unit;
  }

  /** Under every interleaving and with any limits: each completed dispatch uses up a part of what arrived,
      and what is left over bounds the dispatches to come. So there are at most R * (1 + 4R) dispatches for
      each event that is produced or revived, beside what the dispatch in flight has saved. */
  lemma {:induction false} DispatchesArePaidFor(R: nat, labels: seq<Label>)
    requires R >= 1 && Execute(START, R, labels).Some? && Obedient(R, labels)
    ensures var m := Execute(START, R, labels).value;
            && Outcomes(labels) + Remaining(m.sys, R) <= Unit(R) * Arrivals(labels) + R * InFlight(labels)
            && InFlight(labels) <= 4
  {
    AllPaid(R, labels);
    hide Unit, Remaining;
    Lending(R, InFlight(labels), MAX_SAVES);
  }

  lemma {:induction false} AllPaid(R: nat, labels: seq<Label>)
    requires R >= 1 && Execute(START, R, labels).Some? && Obedient(R, labels)
    ensures Paid(Execute(START, R, labels).value, R, Outcomes(labels), Arrivals(labels), InFlight(labels))
  {
    hide *;
    if labels == [] {
      NothingPaid(R);
    } else {
      var prefix, l := labels[..|labels| - 1], labels[|labels| - 1];
      LastLabel(R, labels);
      AllPaid(R, prefix);
      ReachableInv(R, prefix);
      PaidStep(Execute(START, R, prefix).value, R, l, Outcomes(prefix), Arrivals(prefix), InFlight(prefix));
    }
  }

  lemma NothingPaid(R: nat)
    ensures Paid(START, R, 0, 0, 0) && Execute(START, R, []) == Some(START)
    ensures Outcomes([]) == Arrivals([]) == InFlight([]) == 0
  {
  }

  lemma LastLabel(R: nat, labels: seq<Label>)
    requires labels != [] && Execute(START, R, labels).Some? && Obedient(R, labels)
    ensures var prefix, l := labels[..|labels| - 1], labels[|labels| - 1];
            && Execute(START, R, prefix).Some? && Obedient(R, prefix)
            && Enabled(Execute(START, R, prefix).value, R, l)
            && Execute(START, R, labels) == Some(After(Execute(START, R, prefix).value, R, l))
            && Obeys(Execute(START, R, prefix).value, InFlight(prefix), l)
            && Outcomes(labels) == Outcomes(prefix) + (if IsOutcome(l) then 1 else 0)
            && Arrivals(labels) == Arrivals(prefix) + Arriving(l)
            && InFlight(labels) == SavedAfter(InFlight(prefix), l)
  {
    hide Enabled, After, Obeys, Arriving, SavedAfter;
  }

  predicate IsWorkers(l: Label)
  {
    l.Snapshot? || l.GrowPending? || l.StartDispatch? || IsOutcome(l) || l.MarkFailed? || l.ShrinkPending?
  }

  /** The worker is never stuck: while an entry is pending and no waiter holds its lock, it has a step, and
      from rest that step takes a batch. */
  lemma {:induction false} WorkerCanMove(R: nat, labels: seq<Label>, id: EventId) returns (l: Label)
    requires R >= 1 && Execute(START, R, labels).Some? && Execute(START, R, labels).value.waiter.None?
    requires Execute(START, R, labels).value.sys.box.IsPending(id)
    ensures var m := Execute(START, R, labels).value;
            && IsWorkers(l) && Enabled(m, R, l)
            && (m.pc.Resting? ==> After(m, R, l).pc.Snapped?)
  {
    ReachableInv(R, labels);
    var m := Execute(START, R, labels).value;
    hide Execute;
    match m.pc
    case Resting =>
      l := Snapshot(None);
      UnpublishedIsExact(m.sys.box.rows, m.sys.box.order, Some(R));
      assert id in Unpublished(m.sys.box.rows, m.sys.box.order, Some(R));
    case Snapped(_) =>
      l := GrowPending;
    case Working(batch, next) =>
      l := if next < |batch| then StartDispatch else ShrinkPending;
    case Dispatching(batch, next) =>
      l := DispatchReturns;
      CurrentIsPending(m, R);
    case Exhausted(_, _) =>
      l := MarkFailed;
  }
}
