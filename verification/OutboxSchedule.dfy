/** A pass without interference is one schedule of the interleaved machine. */
module OutboxSchedule {
  import opened Common
  import opened Events
  import opened Outbox
  import opened OutboxBooks
  import opened OutboxIdle

  lemma {:induction false} ExecuteAppend(m: Machine, R: nat, a: seq<Label>, b: seq<Label>)
    requires Execute(m, R, a).Some?
    ensures Execute(m, R, a + b) == Execute(Execute(m, R, a).value, R, b)
  {
    hide Enabled, After;
    if b == [] {
      assert a + b == a;
    } else {
      ExecuteAppend(m, R, a, b[..|b| - 1]);
      assert (a + b)[..|a + b| - 1] == a + b[..|b| - 1];
    }
  }

  lemma ExecuteOne(m: Machine, R: nat, l: Label)
    ensures Execute(m, R, [l]) == if Enabled(m, R, l) then Some(After(m, R, l)) else None
  {
    assert [l][..0] == [];
  }

  lemma Then(m: Machine, R: nat, a: seq<Label>, l: Label)
    requires Execute(m, R, a).Some? && Enabled(Execute(m, R, a).value, R, l)
    ensures Execute(m, R, a + [l]) == Some(After(Execute(m, R, a).value, R, l))
  {
    ExecuteAppend(m, R, a, [l]);
    ExecuteOne(Execute(m, R, a).value, R, l);
  }

  lemma {:induction false} SavesSchedule(m: Machine, R: nat, es: seq<Event>) returns (labels: seq<Label>)
    requires R >= 1 && Books(m.sys, R) && NewIds(m.sys.box, es) && m.pc.Dispatching?
    ensures Execute(m, R, labels) == Some(m.(sys := SaveAll(m.sys, es)))
  {
    labels := [];
    if es != [] {
      hide Books, NewIds, Adds, Save, Execute;
      var prefix, e := es[..|es| - 1], es[|es| - 1];
      NewIdsPrefix(m.sys.box, es);
      labels := SavesSchedule(m, R, prefix);
      SaveAllKeepsBooks(m.sys, R, prefix);
      StillNew(m.sys.box, es, SaveAll(m.sys, prefix).box);
      Then(m, R, labels, HandlerSaves(e));
      labels := labels + [HandlerSaves(e)];
    }
  }

  lemma OutcomeSchedule(m: Machine, R: nat, ok: bool) returns (labels: seq<Label>)
    requires m.pc.Dispatching? && Current(m.pc).Some? && Current(m.pc).value in m.sys.box.rows
    ensures Execute(m, R, labels) == Some(m.(sys := Settle(m.sys, R, Current(m.pc).value, ok),
                                             pc := Working(m.pc.batch, m.pc.next + 1)))
  {
    hide Execute;
    labels := [if ok then DispatchReturns else DispatchRaises];
    ExecuteOne(m, R, labels[0]);
    if !ok && Retry(m.sys, Current(m.pc).value).box.rows[Current(m.pc).value].retry >= R {
      Then(m, R, labels, MarkFailed);
      labels := labels + [MarkFailed];
    }
  }

  lemma EntrySchedule(m: Machine, R: nat, runs: seq<HandlerRun>) returns (labels: seq<Label>)
    requires R >= 1 && Books(m.sys, R) && m.pc.Working? && Current(m.pc).Some?
    requires m.sys.box.IsPending(Current(m.pc).value) && Allowed(m.sys.box, Current(m.pc).value, runs)
    ensures Execute(m, R, labels) == Some(m.(sys := Process(m.sys, R, Current(m.pc).value, runs),
                                             pc := Working(m.pc.batch, m.pc.next + 1)))
  {
    hide Execute, Books, NewIds, SaveAll, Descend, Settle;
    var id := Current(m.pc).value;
    var (ok, drafts) := Dispatched(runs);
    var es := Descend(m.sys.box.rows[id].event, drafts);
    DescendIds(m.sys.box, m.sys.box.rows[id].event, drafts);
    SaveAllKeepsBooks(m.sys, R, es);
    ExecuteOne(m, R, StartDispatch);
    var begun := After(m, R, StartDispatch);
    var saves := SavesSchedule(begun, R, es);
    ExecuteAppend(m, R, [StartDispatch], saves);
    var outcome := OutcomeSchedule(begun.(sys := SaveAll(m.sys, es)), R, ok);
    labels := [StartDispatch] + saves + outcome;
    ExecuteAppend(m, R, [StartDispatch] + saves, outcome);
  }

  lemma {:induction false} BatchSchedule(m: Machine, R: nat, n: nat, handlers: Handlers) returns (labels: seq<Label>)
    requires R >= 1 && Books(m.sys, R) && WellBehaved(handlers)
    requires m.pc.Working? && m.pc.next == 0 && n <= |m.pc.batch| && Distinct(m.pc.batch)
    requires forall id :: id in m.pc.batch ==> m.sys.box.IsPending(id)
    ensures Execute(m, R, labels) == Some(m.(sys := ProcessAll(m.sys, R, m.pc.batch[..n], handlers),
                                             pc := Working(m.pc.batch, n)))
  {
    labels := [];
    if n > 0 {
      var batch := m.pc.batch;
      labels := BatchSchedule(m, R, n - 1, handlers);
      NextOfBatch(m.sys, R, batch, n, handlers);
      hide Execute, Process, Books, Allowed, ProcessAll, WellBehaved;
      var t := ProcessAll(m.sys, R, batch[..n - 1], handlers);
      var entry := EntrySchedule(m.(sys := t, pc := Working(batch, n - 1)), R, handlers(t.box, batch[n - 1]));
      ExecuteAppend(m, R, labels, entry);
      labels := labels + entry;
    }
  }

  /** A resting worker whose pass nobody interrupts goes through exactly the states of `RunOnce`,
      and rests again with its counter unchanged. */
  lemma {:induction false} PassIsASchedule(m: Machine, R: nat, limit: Option<nat>, handlers: Handlers)
    returns (labels: seq<Label>)
    requires R >= 1 && Books(m.sys, R) && WellBehaved(handlers)
    requires m.pc.Resting? && m.waiter.None? && m.counter >= 0
    ensures Execute(m, R, labels) == Some(m.(sys := RunOnce(m.sys, R, limit, handlers)))
  {
    hide Execute, ProcessAll, Unpublished, Sync, WellBehaved;
    BooksAreValid(m.sys, R);
    BatchIsPending(m.sys, R, limit);
    hide Books;
    var batch := Batch(m.sys, R, limit);
    labels := [Snapshot(limit)];
    ExecuteOne(m, R, Snapshot(limit));
    if batch != [] {
      Then(m, R, labels, GrowPending);
      labels := labels + [GrowPending];
      var working := m.(counter := m.counter + |batch|, pc := Working(batch, 0));
      var all := BatchSchedule(working, R, |batch|, handlers);
      assert batch[..|batch|] == batch;
      ExecuteAppend(m, R, labels, all);
      labels := labels + all;
      Then(m, R, labels, ShrinkPending);
      labels := labels + [ShrinkPending];
    }
  }
}
