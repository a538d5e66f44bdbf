/** Causation and correlation of the entries an outbox holds. */
module OutboxLineage {
  import opened Common
  import opened Lineage
  import opened Events
  import opened Outbox
  import opened OutboxBooks
  import opened OutboxEffects

  /** The event `e` may be saved after those of `b`: it starts a line, or continues one. */
  ghost predicate Continues(b: Box, e: Event)
  {
    e.causation.Some? ==>
      && e.causation.value in b.rows
      && b.rows[e.causation.value].event.correlation == e.correlation
  }

  /** Entries are filed under their event's id, and whatever caused an entry was saved before it
      and has the same correlation. */
  ghost predicate LineageSound(b: Box)
  {
    && b.Valid()
    && (forall id :: id in b.rows ==> b.rows[id].event.id == id)
    && (forall i :: 0 <= i < |b.order| ==> Anchored(b, i))
  }

  ghost predicate Anchored(b: Box, i: nat)
    requires i < |b.order|
  {
    b.order[i] in b.rows &&
    (b.rows[b.order[i]].event.causation.Some? ==>
       exists j :: 0 <= j < i && b.order[j] in b.rows
                   && b.order[j] == b.rows[b.order[i]].event.causation.value
                   && b.rows[b.order[j]].event.correlation == b.rows[b.order[i]].event.correlation)
  }

  lemma PutKeepsLineage(b: Box, e: Event)
    requires LineageSound(b) && e.id !in b.rows && Continues(b, e)
    ensures LineageSound(Put(b, e))
  {
    var c := Put(b, e);
    forall i | 0 <= i < |c.order| ensures Anchored(c, i) {
      if i < |b.order| {
        assert Anchored(b, i);
        if b.rows[b.order[i]].event.causation.Some? {
          var j :| 0 <= j < i && b.order[j] in b.rows
                   && b.order[j] == b.rows[b.order[i]].event.causation.value
                   && b.rows[b.order[j]].event.correlation == b.rows[b.order[i]].event.correlation;
          assert c.order[j] == b.order[j];
        }
      } else if e.causation.Some? {
        assert e.causation.value in b.order;
        var j :| 0 <= j < |b.order| && b.order[j] == e.causation.value;
        assert c.order[j] == b.order[j];
      }
    }
  }

  /** Marking an entry changes nothing about any event. */
  ghost predicate SameEvents(b: Box, c: Box)
  {
    && c.order == b.order && c.rows.Keys == b.rows.Keys
    && forall id :: id in b.rows ==> c.rows[id].event == b.rows[id].event
  }

  lemma MarkingKeepsLineage(b: Box, c: Box)
    requires LineageSound(b) && SameEvents(b, c)
    ensures LineageSound(c)
  {
    forall i | 0 <= i < |c.order| ensures Anchored(c, i) {
      assert Anchored(b, i);
    }
  }

  lemma {:induction false} SavesKeepLineage(s: Sys, id: EventId, drafts: seq<Event>)
    requires LineageSound(s.box) && id in s.box.rows && NewIds(s.box, drafts)
    requires forall i :: 0 <= i < |drafts| ==> drafts[i].correlation.None? && drafts[i].causation.None?
    ensures var t := SaveAll(s, Descend(s.box.rows[id].event, drafts));
            && LineageSound(t.box)
            && Adds(s.box, drafts, t.box)
  {
    var e := s.box.rows[id].event;
    if drafts == [] {
      assert Descend(e, drafts) == [];
    } else {
      var prefix, d := drafts[..|drafts| - 1], drafts[|drafts| - 1];
      NewIdsPrefix(s.box, drafts);
      SavesKeepLineage(s, id, prefix);
      var t := SaveAll(s, Descend(e, prefix));
      assert Descend(e, drafts)[..|drafts| - 1] == Descend(e, prefix);
      var next := Construct(d, Context(e.correlation, Some(e.id)));
      assert Descend(e, drafts)[|drafts| - 1] == next;
      StillNew(s.box, drafts, t.box);
      hide LineageSound, Adds;
      NextIsSound(s, t, id, drafts, next);
    }
  }

  lemma NextIsSound(s: Sys, t: Sys, id: EventId, drafts: seq<Event>, next: Event)
    requires drafts != [] && id in s.box.rows && s.box.rows[id].event.id == id
    requires LineageSound(t.box) && Adds(s.box, drafts[..|drafts| - 1], t.box)
    requires next.id == drafts[|drafts| - 1].id && next.id !in t.box.rows
    requires next.causation == Some(id) && next.correlation == s.box.rows[id].event.correlation
    ensures LineageSound(Save(t, next).box)
    ensures Adds(s.box, drafts, Save(t, next).box)
  {
    PutKeepsLineage(t.box, next);
    hide LineageSound;
    var prefix := drafts[..|drafts| - 1];
    var c := Save(t, next).box;
    forall x | x in c.rows && x !in s.box.rows ensures exists i :: 0 <= i < |drafts| && drafts[i].id == x {
      if x == next.id {
        assert drafts[|drafts| - 1].id == x;
      } else {
        var i :| 0 <= i < |prefix| && prefix[i].id == x;
        assert drafts[i].id == x;
      }
    }
  }

  lemma ProcessKeepsLineage(s: Sys, R: nat, id: EventId, runs: seq<HandlerRun>)
    requires LineageSound(s.box) && id in s.box.rows && Allowed(s.box, id, runs)
    ensures LineageSound(Process(s, R, id, runs).box)
  {
    var (ok, drafts) := Dispatched(runs);
    SavesKeepLineage(s, id, drafts);
    var t := SaveAll(s, Descend(s.box.rows[id].event, drafts));
    hide LineageSound, SaveAll, Descend;
    MarkingKeepsLineage(t.box, Settle(t, R, id, ok).box);
  }

  lemma {:induction false} PassKeepsLineage(s: Sys, R: nat, batch: seq<EventId>, handlers: Handlers)
    requires R >= 1 && Books(s, R) && LineageSound(s.box) && WellBehaved(handlers)
    requires Distinct(batch) && forall id :: id in batch ==> s.box.IsPending(id)
    ensures LineageSound(ProcessAll(s, R, batch, handlers).box)
  {
    if batch != [] {
      var prefix, id := batch[..|batch| - 1], batch[|batch| - 1];
      assert batch == prefix + [id] && id !in prefix;
      PassKeepsLineage(s, R, prefix, handlers);
      ProcessAllKeepsBooks(s, R, prefix, handlers);
      var t := ProcessAll(s, R, prefix, handlers);
      assert s.box.IsPending(id);
      assert t.box.Valid() && t.box.IsPending(id);
      hide Process, Books, Allowed, LineageSound;
      ProcessKeepsLineage(t, R, id, handlers(t.box, id));
    }
  }

  lemma {:induction false} RequeueKeepsLineage(s: Sys, ids: seq<EventId>)
    requires LineageSound(s.box)
    ensures LineageSound(RequeueEach(s, ids).box)
  {
    if ids != [] {
      hide LineageSound;
      var t := RequeueEach(s, ids[..|ids| - 1]);
      RequeueKeepsLineage(s, ids[..|ids| - 1]);
      MarkingKeepsLineage(t.box, RequeueOne(t, ids[|ids| - 1]).box);
    }
  }

  /** After any run in which producers start new lines: every causation link leads to an entry saved
      earlier, and correlation is constant along it. */
  lemma {:induction false} CausesComeFirst(R: nat, ops: seq<Op>)
    requires R >= 1 && Legal(R, ops)
    ensures LineageSound(Run(R, ops).box)
  {
    if ops != [] {
      hide Books, LineageSound, WellBehaved;
      var s, op := Run(R, ops[..|ops| - 1]), ops[|ops| - 1];
      CausesComeFirst(R, ops[..|ops| - 1]);
      BooksAlwaysBalance(R, ops[..|ops| - 1]);
      match op
      case Produce(e) => PutKeepsLineage(s.box, e);
      case Revive(ids) => RequeueKeepsLineage(s, ids);
      case Pass(limit, handlers) =>
        BooksAreValid(s, R);
        BatchIsPending(s, R, limit);
        PassKeepsLineage(s, R, Batch(s, R, limit), handlers);
    }
  }

  /** The entries that producers saved. */
  function Produced(ops: seq<Op>): set<EventId>
  {
    if ops == [] then {}
    else
      var last := ops[|ops| - 1];
      Produced(ops[..|ops| - 1]) + (if last.Produce? then {last.event.id} else {})
  }

  ghost predicate CauselessAre(b: Box, produced: set<EventId>)
  {
    && Filed(b)
    && produced <= b.rows.Keys
    && forall id :: id in b.rows ==> (b.rows[id].event.causation.None? <==> id in produced)
  }

  lemma ProducedHasNone(b: Box, e: Event, c: Box, produced: set<EventId>)
    requires CauselessAre(b, produced) && e.causation.None? && c.rows == b.rows[e.id := Row(e, false, 0, false)]
    ensures CauselessAre(c, produced + {e.id})
  {
  }

  lemma OthersHaveOne(b: Box, c: Box, produced: set<EventId>)
    requires CauselessAre(b, produced) && Filed(c)
    requires forall id :: id in b.rows ==> id in c.rows && c.rows[id].event == b.rows[id].event
    requires forall id :: id in c.rows && id !in b.rows ==> c.rows[id].event.causation.Some?
    ensures CauselessAre(c, produced)
  {
  }

  lemma RevivedAreFiled(s: Sys, R: nat, ids: seq<EventId>)
    requires R >= 1 && Books(s, R) && Filed(s.box)
    ensures Filed(Requeue(s, ids).box)
    ensures forall id :: id in s.box.rows ==>
              id in Requeue(s, ids).box.rows && Requeue(s, ids).box.rows[id].event == s.box.rows[id].event
    ensures forall id :: id in Requeue(s, ids).box.rows ==> id in s.box.rows
  {
    hide Books, Batch;
    RequeueIs(s, R, ids);
  }

  /** After any run: an entry has no cause exactly if a producer saved it. */
  lemma {:induction false} CauselessIff(R: nat, ops: seq<Op>)
    requires R >= 1 && Legal(R, ops)
    ensures CauselessAre(Run(R, ops).box, Produced(ops))
  {
    if ops != [] {
      var s, op, produced := Run(R, ops[..|ops| - 1]), ops[|ops| - 1], Produced(ops[..|ops| - 1]);
      CauselessIff(R, ops[..|ops| - 1]);
      BooksAlwaysBalance(R, ops[..|ops| - 1]);
      assert Filed(s.box);
      hide Books, WellBehaved, CauselessAre, Filed, Save, Requeue, RunOnce;
      match op
      case Produce(e) =>
        SavedIs(s, e);
        ProducedHasNone(s.box, e, Save(s, e).box, produced);
      case Revive(ids) =>
        RevivedAreFiled(s, R, ids);
        OthersHaveOne(s.box, Requeue(s, ids).box, produced);
      case Pass(limit, handlers) =>
        PassCauses(s, R, limit, handlers);
        OthersHaveOne(s.box, RunOnce(s, R, limit, handlers).box, produced);
    }
  }
}