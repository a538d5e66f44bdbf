/** What the operations do to the rows, and in which order: read off rows and save positions alone. */
module OutboxEffects {
  import opened Common
  import opened Events
  import opened Outbox
  import opened OutboxTotals
  import opened OutboxBooks

  /** The event types that have a handler, and those whose handler saves trust events. */
  lemma RegisteredHandlers(t: EventType)
    ensures HandlerCount(t) == 1 <==>
            || t == ImageUploaded || t == EventType.TransactionCompleted || t == ReservationCompleted
            || t == PaymentReleased || t == EventType.ReviewSubmitted || t == EventType.DisputeResolved
    ensures HandlerCount(t) <= 1
    ensures SavesEvents(t) <==> HandlerCount(t) == 1 && t != ImageUploaded
  {
  }

  // ---- The order of the listing ----

  /** The entry saved at position `i` waits, below the retry bound if there is one. */
  predicate WaitsAt(rows: map<EventId, Row>, order: seq<EventId>, bound: Option<nat>, i: nat)
    requires i < |order|
  {
    && order[i] in rows && !rows[order[i]].published && !rows[order[i]].dead
    && (bound.Some? ==> rows[order[i]].retry < bound.value)
  }

  /** How many of the entries saved before position `i` wait. */
  function Ahead(rows: map<EventId, Row>, order: seq<EventId>, bound: Option<nat>, i: nat): nat
    requires i <= |order|
  {
    if i == 0 then 0
    else Ahead(rows, order, bound, i - 1) + (if WaitsAt(rows, order, bound, i - 1) then 1 else 0)
  }

  lemma {:induction false} AheadInPrefix(rows: map<EventId, Row>, order: seq<EventId>, bound: Option<nat>, i: nat)
    requires i < |order|
    ensures Ahead(rows, order[..|order| - 1], bound, i) == Ahead(rows, order, bound, i)
  {
    if i > 0 {
      AheadInPrefix(rows, order, bound, i - 1);
    }
  }

  lemma {:induction false} AheadGrows(rows: map<EventId, Row>, order: seq<EventId>, bound: Option<nat>, i: nat, j: nat)
    requires i < j <= |order|
    ensures Ahead(rows, order, bound, i) <= Ahead(rows, order, bound, j)
    ensures WaitsAt(rows, order, bound, i) ==> Ahead(rows, order, bound, i) < Ahead(rows, order, bound, j)
  {
    if i < j - 1 {
      AheadGrows(rows, order, bound, i, j - 1);
    }
  }

  lemma {:induction false} ListedByPosition(rows: map<EventId, Row>, order: seq<EventId>, bound: Option<nat>)
    ensures |Unpublished(rows, order, bound)| == Ahead(rows, order, bound, |order|)
    ensures forall i :: 0 <= i < |order| && WaitsAt(rows, order, bound, i) ==>
              && Ahead(rows, order, bound, i) < |Unpublished(rows, order, bound)|
              && Unpublished(rows, order, bound)[Ahead(rows, order, bound, i)] == order[i]
  {
    if order != [] {
      var n := |order| - 1;
      var prefix := order[..n];
      ListedByPosition(rows, prefix, bound);
      AheadInPrefix(rows, order, bound, n);
      forall i | 0 <= i < |order| && WaitsAt(rows, order, bound, i)
        ensures Ahead(rows, order, bound, i) < |Unpublished(rows, order, bound)|
        ensures Unpublished(rows, order, bound)[Ahead(rows, order, bound, i)] == order[i]
      {
        AheadInPrefix(rows, order, bound, i);
        if i < n {
          assert WaitsAt(rows, prefix, bound, i);
        }
      }
    }
  }

  lemma {:induction false} PositionOf(rows: map<EventId, Row>, order: seq<EventId>, bound: Option<nat>, k: nat)
    returns (i: nat)
    requires k < Ahead(rows, order, bound, |order|)
    ensures i < |order| && WaitsAt(rows, order, bound, i) && Ahead(rows, order, bound, i) == k
  {
    i := FindPosition(rows, order, bound, k, |order|);
  }

  lemma {:induction false} FindPosition(rows: map<EventId, Row>, order: seq<EventId>, bound: Option<nat>,
                                        k: nat, n: nat)
    returns (i: nat)
    requires n <= |order| && k < Ahead(rows, order, bound, n)
    ensures i < |order| && WaitsAt(rows, order, bound, i) && Ahead(rows, order, bound, i) == k
  {
    if k < Ahead(rows, order, bound, n - 1) {
      i := FindPosition(rows, order, bound, k, n - 1);
    } else {
      i := n - 1;
    }
  }

  /** `a` was saved before `b`. */
  ghost predicate SavedBefore(order: seq<EventId>, a: EventId, b: EventId)
  {
    exists i, j :: 0 <= i < j < |order| && order[i] == a && order[j] == b
  }

  /** Among listed entries, the earlier listed is the earlier saved. */
  ghost predicate InSaveOrder(order: seq<EventId>, ids: seq<EventId>)
  {
    forall k, m :: 0 <= k < m < |ids| ==> SavedBefore(order, ids[k], ids[m])
  }

  lemma {:induction false} ListedInSaveOrder(rows: map<EventId, Row>, order: seq<EventId>, bound: Option<nat>)
    ensures InSaveOrder(order, Unpublished(rows, order, bound))
  {
    ListedByPosition(rows, order, bound);
    var listed := Unpublished(rows, order, bound);
    hide Unpublished;
    forall k, m | 0 <= k < m < |listed| ensures SavedBefore(order, listed[k], listed[m]) {
      var i := PositionOf(rows, order, bound, k);
      var j := PositionOf(rows, order, bound, m);
      if j < i {
        AheadGrows(rows, order, bound, j, i);
      }
    }
  }

  lemma LimitedInSaveOrder(rows: map<EventId, Row>, order: seq<EventId>, bound: Option<nat>, limit: Option<nat>)
    ensures InSaveOrder(order, Limited(Unpublished(rows, order, bound), limit))
  {
    ListedInSaveOrder(rows, order, bound);
    hide Unpublished, SavedBefore;
  }

  /** A pass with limit `n` takes the `n` pending entries that were saved first: the one with `k` others ahead of
      it comes `k`-th. */
  lemma {:induction false} BatchIsTheOldest(s: Sys, R: nat, limit: Option<nat>, i: nat)
    requires Books(s, R) && i < |s.box.order|
    ensures var rows, order, batch := s.box.rows, s.box.order, Batch(s, R, limit);
            var ahead := Ahead(rows, order, None, i);
            && (order[i] in batch <==>
                WaitsAt(rows, order, None, i) && (limit.Some? ==> ahead < limit.value))
            && (order[i] in batch ==> ahead < |batch| && batch[ahead] == order[i])
  {
    var rows, order := s.box.rows, s.box.order;
    BoundIrrelevant(rows, order, R);
    ListedByPosition(rows, order, None);
    UnpublishedIsExact(rows, order, None);
    hide Unpublished, Books, Ahead;
    TakenIff(Unpublished(rows, order, None), limit, order[i], Ahead(rows, order, None, i));
  }

  lemma TakenIff(listed: seq<EventId>, limit: Option<nat>, id: EventId, k: nat)
    requires Distinct(listed) && (id in listed ==> k < |listed| && listed[k] == id)
    ensures id in Limited(listed, limit) <==> id in listed && (limit.Some? ==> k < limit.value)
    ensures id in Limited(listed, limit) ==> k < |Limited(listed, limit)| && Limited(listed, limit)[k] == id
  {
    if id in Limited(listed, limit) {
      var j :| 0 <= j < |Limited(listed, limit)| && Limited(listed, limit)[j] == id;
      assert listed[j] == listed[k];
    }
  }

  // ---- Saving ----

  /** Saving a known id makes its row a fresh one where it stands; a new id is appended. */
  lemma SavedIs(s: Sys, e: Event)
    ensures var t := Save(s, e);
            && t.box.rows == s.box.rows[e.id := Row(e, false, 0, false)]
            && t.box.order == (if e.id in s.box.rows then s.box.order else s.box.order + [e.id])
            && t.requeued == s.requeued && t.metrics == s.metrics.(queueDepth := t.metrics.queueDepth)
  {
  }

  function EventIds(es: seq<Event>): seq<EventId>
  {
    seq(|es|, i requires 0 <= i < |es| => es[i].id)
  }

  /** New events are appended in order, each as a fresh row. */
  ghost predicate Appends(b: Box, es: seq<Event>, c: Box)
  {
    && c.order == b.order + EventIds(es)
    && (forall id :: id in b.rows ==> id in c.rows && c.rows[id] == b.rows[id])
    && (forall i :: 0 <= i < |es| ==> es[i].id in c.rows && c.rows[es[i].id] == Row(es[i], false, 0, false))
    && (forall id :: id in c.rows && id !in b.rows ==> id in EventIds(es))
  }

  lemma AppendsOne(b: Box, es: seq<Event>, c: Box)
    requires es != [] && NewIds(b, es) && Appends(b, es[..|es| - 1], c)
    ensures es[|es| - 1].id !in c.rows && Appends(b, es, Put(c, es[|es| - 1]))
  {
    var n := |es| - 1;
    assert EventIds(es) == EventIds(es[..n]) + [es[n].id];
    assert es[n].id !in EventIds(es[..n]);
    assert EventIds(es)[n] == es[n].id;
  }

  lemma {:induction false} SavedAppends(s: Sys, es: seq<Event>)
    requires NewIds(s.box, es)
    ensures Appends(s.box, es, SaveAll(s, es).box)
  {
    if es == [] {
      assert EventIds(es) == [] && s.box.order + [] == s.box.order;
    } else {
      hide Appends, NewIds;
      NewIdsPrefix(s.box, es);
      SavedAppends(s, es[..|es| - 1]);
      AppendsOne(s.box, es, SaveAll(s, es[..|es| - 1]).box);
    }
  }

  // ---- One dispatch ----

  /** The saves of all the runs, one after the other. */
  function SavesOf(runs: seq<HandlerRun>): seq<Event>
  {
    if runs == [] then [] else SavesOf(runs[..|runs| - 1]) + runs[|runs| - 1].saves
  }

  lemma SavesOfLast(runs: seq<HandlerRun>)
    requires runs != []
    ensures SavesOf(runs) == SavesOf(runs[..|runs| - 1]) + runs[|runs| - 1].saves
  {
  }

  lemma {:induction false} SavesOfHead(r: HandlerRun, rest: seq<HandlerRun>)
    ensures SavesOf([r] + rest) == r.saves + SavesOf(rest)
  {
    if rest == [] {
      assert [r] + rest == [r] && [r][..0] == [];
    } else {
      var prefix, last := rest[..|rest| - 1], rest[|rest| - 1];
      SavesOfHead(r, prefix);
      SavesOfLast([r] + rest);
      SavesOfLast(rest);
      assert ([r] + rest)[..|rest|] == [r] + prefix;
      hide SavesOf;
      assert r.saves + SavesOf(prefix) + last.saves == r.saves + (SavesOf(prefix) + last.saves);
    }
  }

  /** If the first `n` handlers return and the next raises, those and that one have saved, and no other. */
  lemma {:induction false} DispatchStopsAtTheFirstRaise(runs: seq<HandlerRun>, n: nat)
    requires n <= |runs| && (forall i :: 0 <= i < n ==> runs[i].completes) && (n < |runs| ==> !runs[n].completes)
    ensures Dispatched(runs) == (n == |runs|, SavesOf(if n == |runs| then runs else runs[..n + 1]))
  {
    if runs != [] {
      if n > 0 {
        DispatchStopsAtTheFirstRaise(runs[1..], n - 1);
        var rest := if n == |runs| then runs[1..] else runs[1..][..n];
        SavesOfHead(runs[0], rest);
        assert [runs[0]] + rest == if n == |runs| then runs else runs[..n + 1];
      } else {
        assert runs[..1] == [runs[0]] + [] && runs[0].saves + [] == runs[0].saves;
        SavesOfHead(runs[0], []);
      }
    }
  }

  /** What the outcome of a dispatch makes of its entry. */
  function Outcome(row: Row, R: nat, ok: bool): Row
  {
    if ok then Row(row.event, true, row.retry, row.dead)
    else Row(row.event, row.published, row.retry + 1, row.retry + 1 == R)
  }

  /** A dispatch of `id` has touched no other row, has given its own row the outcome, and has appended only new
      entries that name it as their cause and share its correlation. */
  ghost predicate DispatchEffect(b: Box, R: nat, id: EventId, ok: bool, c: Box)
    requires id in b.rows
  {
    && b.order <= c.order
    && (forall x :: x in b.rows && x != id ==> x in c.rows && c.rows[x] == b.rows[x])
    && id in c.rows && c.rows[id] == Outcome(b.rows[id], R, ok)
    && Caused(b, id, c)
  }

  /** Entries are filed under their event's id. */
  ghost predicate Filed(b: Box)
  {
    forall id :: id in b.rows ==> b.rows[id].event.id == id
  }

  /** Open lineage is filled in with the cause. */
  lemma DescendsFrom(e: Event, drafts: seq<Event>)
    requires forall i :: 0 <= i < |drafts| ==> drafts[i].correlation.None? && drafts[i].causation.None?
    ensures |Descend(e, drafts)| == |drafts|
    ensures forall i :: 0 <= i < |drafts| ==>
              && Descend(e, drafts)[i].id == drafts[i].id && Descend(e, drafts)[i].eventType == drafts[i].eventType
              && Descend(e, drafts)[i].causation == Some(e.id) && Descend(e, drafts)[i].correlation == e.correlation
  {
  }

  lemma SettleIs(s: Sys, R: nat, id: EventId, ok: bool)
    requires id in s.box.rows && s.box.IsPending(id) && s.box.rows[id].retry < R
    ensures Settle(s, R, id, ok).box == s.box.With(id, Outcome(s.box.rows[id], R, ok))
  {
  }

  lemma PendingIsBelow(s: Sys, R: nat, id: EventId)
    requires Books(s, R) && s.box.IsPending(id)
    ensures s.box.rows[id].retry < R
  {
  }

  /** New rows name `id` as their cause and have its correlation. */
  ghost predicate Caused(b: Box, id: EventId, c: Box)
    requires id in b.rows
  {
    forall x :: x in c.rows && x !in b.rows ==>
      && c.rows[x].event.causation == Some(id) && c.rows[x].event.correlation == b.rows[id].event.correlation
      && c.rows[x].event.id == x && !c.rows[x].published && c.rows[x].retry == 0 && !c.rows[x].dead
  }

  lemma AppendedAreCaused(b: Box, id: EventId, es: seq<Event>, c: Box)
    requires id in b.rows && Appends(b, es, c)
    requires forall i :: 0 <= i < |es| ==>
               es[i].causation == Some(id) && es[i].correlation == b.rows[id].event.correlation
    ensures Caused(b, id, c)
  {
    forall x | x in c.rows && x !in b.rows
      ensures c.rows[x].event.causation == Some(id) && c.rows[x].event.correlation == b.rows[id].event.correlation
      ensures c.rows[x].event.id == x && c.rows[x] == Row(c.rows[x].event, false, 0, false)
    {
      var i :| 0 <= i < |es| && EventIds(es)[i] == x;
    }
  }

  lemma OutcomeOfCaused(b: Box, R: nat, id: EventId, ok: bool, es: seq<Event>, c: Box)
    requires id in b.rows && Filed(b) && Appends(b, es, c) && Caused(b, id, c)
    ensures id in c.rows && c.rows[id] == b.rows[id]
    ensures DispatchEffect(b, R, id, ok, c.With(id, Outcome(b.rows[id], R, ok)))
    ensures Filed(c.With(id, Outcome(b.rows[id], R, ok)))
  {
  }

  lemma {:induction false} DispatchIs(s: Sys, R: nat, id: EventId, runs: seq<HandlerRun>)
    requires Books(s, R) && Filed(s.box) && s.box.IsPending(id) && Allowed(s.box, id, runs)
    ensures DispatchEffect(s.box, R, id, Dispatched(runs).0, Process(s, R, id, runs).box)
    ensures Filed(Process(s, R, id, runs).box)
  {
    var (ok, drafts) := Dispatched(runs);
    var e := s.box.rows[id].event;
    var es := Descend(e, drafts);
    var t := SaveAll(s, es);
    DescendsFrom(e, drafts);
    DescendIds(s.box, e, drafts);
    PendingIsBelow(s, R, id);
    hide SaveAll, Settle, Descend, Books, NewIds, Dispatched, Appends, Caused, DispatchEffect, Outcome;
    SavedAppends(s, es);
    AppendedAreCaused(s.box, id, es, t.box);
    OutcomeOfCaused(s.box, R, id, ok, es, t.box);
    SettleIs(t, R, id, ok);
  }

  // ---- One pass ----

  predicate CausedAt(b: Box, i: nat, id: EventId)
    requires i < |b.order|
  {
    b.order[i] in b.rows && b.rows[b.order[i]].event.causation == Some(id)
  }

  ghost predicate HasCause(b: Box, i: nat, batch: seq<EventId>)
    requires i < |b.order|
  {
    exists k :: 0 <= k < |batch| && CausedAt(b, i, batch[k])
  }

  /** Every entry that was added has a cause in the batch, and those of earlier causes were saved earlier. */
  ghost predicate CausedInOrder(b: Box, batch: seq<EventId>, c: Box)
  {
    && (forall i :: |b.order| <= i < |c.order| ==> HasCause(c, i, batch))
    && (forall i, j, k, m ::
          && |b.order| <= i < j < |c.order| && 0 <= k < |batch| && 0 <= m < |batch|
          && CausedAt(c, i, batch[k]) && CausedAt(c, j, batch[m])
          ==> k <= m)
  }

  /** Every entry of the batch has been dispatched once, with either outcome, and nothing else has changed. */
  ghost predicate BatchOutcomes(b: Box, R: nat, batch: seq<EventId>, c: Box)
  {
    && b.order <= c.order
    && (forall id :: id in b.rows ==> id in c.rows)
    && (forall id :: id in b.rows && id !in batch ==> c.rows[id] == b.rows[id])
    && (forall id :: id in b.rows && id in batch ==>
          c.rows[id] == Outcome(b.rows[id], R, true) || c.rows[id] == Outcome(b.rows[id], R, false))
  }

  lemma OutcomesOneMore(b: Box, R: nat, batch: seq<EventId>, id: EventId, ok: bool, c: Box, d: Box)
    requires BatchOutcomes(b, R, batch, c) && id !in batch && id in b.rows && id in c.rows
    requires DispatchEffect(c, R, id, ok, d)
    ensures BatchOutcomes(b, R, batch + [id], d)
  {
  }

  lemma CausesStay(b: Box, R: nat, id: EventId, ok: bool, c: Box, i: nat, cause: EventId)
    requires b.Valid() && id in b.rows && DispatchEffect(b, R, id, ok, c) && i < |b.order|
    ensures i < |c.order| && (CausedAt(c, i, cause) <==> CausedAt(b, i, cause))
  {
    assert b.order[i] in b.order && c.order[i] == b.order[i];
  }

  lemma NewCauses(b: Box, R: nat, id: EventId, ok: bool, c: Box, i: nat)
    requires b.Valid() && c.Valid() && id in b.rows && DispatchEffect(b, R, id, ok, c)
    requires |b.order| <= i < |c.order|
    ensures CausedAt(c, i, id)
  {
    assert c.order[i] in c.order;
    assert c.order[i] !in b.order;
  }

  lemma CausedOneMore(b: Box, R: nat, batch: seq<EventId>, id: EventId, ok: bool, c: Box, d: Box)
    requires CausedInOrder(b, batch, c) && id !in batch && Distinct(batch) && |b.order| <= |c.order|
    requires c.Valid() && d.Valid() && id in c.rows && DispatchEffect(c, R, id, ok, d)
    ensures CausedInOrder(b, batch + [id], d)
  {
    var more, n := batch + [id], |batch|;
    hide DispatchEffect, CausedInOrder;
    forall i | |b.order| <= i < |d.order| ensures HasCause(d, i, more) {
      var k := CauseOf(b, R, batch, id, ok, c, d, i);
    }
    forall i, j, k, m | |b.order| <= i < j < |d.order| && 0 <= k < |more| && 0 <= m < |more|
                        && CausedAt(d, i, more[k]) && CausedAt(d, j, more[m])
      ensures k <= m
    {
      if j < |c.order| {
        CausesStay(c, R, id, ok, d, i, more[k]);
        CausesStay(c, R, id, ok, d, j, more[m]);
        BothEarlier(b, batch, c, id, i, j, k, m);
      } else {
        NewCauses(c, R, id, ok, d, j);
        assert more[m] == more[n];
      }
    }
    CausedIs(b, more, d);
  }

  lemma CausedIs(b: Box, batch: seq<EventId>, c: Box)
    requires forall i :: |b.order| <= i < |c.order| ==> HasCause(c, i, batch)
    requires forall i, j, k, m ::
               && |b.order| <= i < j < |c.order| && 0 <= k < |batch| && 0 <= m < |batch|
               && CausedAt(c, i, batch[k]) && CausedAt(c, j, batch[m])
               ==> k <= m
    ensures CausedInOrder(b, batch, c)
  {
  }

  lemma BothEarlier(b: Box, batch: seq<EventId>, c: Box, id: EventId, i: nat, j: nat, k: nat, m: nat)
    requires CausedInOrder(b, batch, c) && id !in batch && Distinct(batch)
    requires |b.order| <= i < j < |c.order| && k <= |batch| && m <= |batch|
    requires CausedAt(c, i, (batch + [id])[k]) && CausedAt(c, j, (batch + [id])[m])
    ensures k <= m
  {
    assert HasCause(c, i, batch) && HasCause(c, j, batch);
    var a :| 0 <= a < |batch| && CausedAt(c, i, batch[a]);
    var z :| 0 <= z < |batch| && CausedAt(c, j, batch[z]);
    assert (batch + [id])[k] == batch[a] && (batch + [id])[m] == batch[z];
  }

  lemma CauseOf(b: Box, R: nat, batch: seq<EventId>, id: EventId, ok: bool, c: Box, d: Box, i: nat) returns (k: nat)
    requires CausedInOrder(b, batch, c) && |b.order| <= i < |d.order| && |b.order| <= |c.order|
    requires c.Valid() && d.Valid() && id in c.rows && DispatchEffect(c, R, id, ok, d)
    ensures k < |batch + [id]| && CausedAt(d, i, (batch + [id])[k])
  {
    if i < |c.order| {
      assert HasCause(c, i, batch);
      k :| 0 <= k < |batch| && CausedAt(c, i, batch[k]);
      CausesStay(c, R, id, ok, d, i, batch[k]);
    } else {
      NewCauses(c, R, id, ok, d, i);
      k := |batch|;
    }
  }

  lemma {:induction false} PassIs(s: Sys, R: nat, batch: seq<EventId>, handlers: Handlers)
    requires R >= 1 && Books(s, R) && Filed(s.box) && WellBehaved(handlers)
    requires Distinct(batch) && forall id :: id in batch ==> s.box.IsPending(id)
    ensures var t := ProcessAll(s, R, batch, handlers);
            Filed(t.box) && BatchOutcomes(s.box, R, batch, t.box) && CausedInOrder(s.box, batch, t.box)
  {
    hide Books, WellBehaved, DispatchEffect, CausedInOrder, Process, Allowed, Filed;
    if batch == [] {
      NothingDispatched(s.box, R);
    } else {
      var n := |batch| - 1;
      var prefix, id := batch[..n], batch[n];
      assert batch == prefix + [id] && id !in prefix;
      PassIs(s, R, prefix, handlers);
      var t := ProcessAll(s, R, prefix, handlers);
      NextOfBatch(s, R, batch, |batch|, handlers);
      assert batch[..|batch|] == batch;
      DispatchIs(t, R, id, handlers(t.box, id));
      var ok := Dispatched(handlers(t.box, id)).0;
      var u := Process(t, R, id, handlers(t.box, id));
      ProcessKeepsBooks(t, R, id, handlers(t.box, id));
      BooksAreValid(t, R);
      BooksAreValid(u, R);
      OutcomesOneMore(s.box, R, prefix, id, ok, t.box, u.box);
      CausedOneMore(s.box, R, prefix, id, ok, t.box, u.box);
    }
  }

  lemma NothingDispatched(b: Box, R: nat)
    ensures BatchOutcomes(b, R, [], b) && CausedInOrder(b, [], b)
  {
  }

  /** One pass with limit `n`: the `n` entries that were saved first among the pending ones are dispatched once
      each, all other rows stay as they are, and what the handlers save comes in the same order. */
  lemma {:induction false} PassTakesTheOldest(s: Sys, R: nat, limit: Option<nat>, handlers: Handlers)
    requires R >= 1 && Books(s, R) && Filed(s.box) && WellBehaved(handlers)
    ensures var b, c := s.box, RunOnce(s, R, limit, handlers).box;
            && b.order <= c.order
            && (forall i :: 0 <= i < |b.order| ==> b.order[i] in b.rows && b.order[i] in c.rows)
            && (forall i :: 0 <= i < |b.order| ==>
                  if WaitsAt(b.rows, b.order, None, i) &&
                     (limit.Some? ==> Ahead(b.rows, b.order, None, i) < limit.value)
                  then || c.rows[b.order[i]] == Outcome(b.rows[b.order[i]], R, true)
                       || c.rows[b.order[i]] == Outcome(b.rows[b.order[i]], R, false)
                  else c.rows[b.order[i]] == b.rows[b.order[i]])
            && CausesFollow(b, c)
  {
    var b, batch := s.box, Batch(s, R, limit);
    BooksAreValid(s, R);
    BatchIsPending(s, R, limit);
    PassIs(s, R, batch, handlers);
    var c := RunOnce(s, R, limit, handlers).box;
    hide ProcessAll, Books, WellBehaved, Filed, Outcome, Ahead, CausedInOrder;
    forall i | 0 <= i < |b.order|
      ensures b.order[i] in b.rows
      ensures b.order[i] in batch <==> WaitsAt(b.rows, b.order, None, i) &&
                                       (limit.Some? ==> Ahead(b.rows, b.order, None, i) < limit.value)
    {
      assert b.order[i] in b.order;
      BatchIsTheOldest(s, R, limit, i);
    }
    hide Batch;
    if batch == [] {
      NothingDispatched(b, R);
    }
    BatchFollows(s, R, limit, c);
  }

  /** Entries that were added after `b` come in the order in which their causes were saved. */
  ghost predicate CausesFollow(b: Box, c: Box)
  {
    forall i, j, x, y :: |b.order| <= i < j < |c.order| && CausedAt(c, i, x) && CausedAt(c, j, y) && x != y ==>
      SavedBefore(b.order, x, y)
  }

  lemma BatchFollows(s: Sys, R: nat, limit: Option<nat>, c: Box)
    requires CausedInOrder(s.box, Batch(s, R, limit), c)
    ensures CausesFollow(s.box, c)
  {
    var b, batch := s.box, Batch(s, R, limit);
    LimitedInSaveOrder(b.rows, b.order, Some(R), limit);
    assert InSaveOrder(b.order, batch);
    hide Unpublished, Batch, SavedBefore;
    forall i, j, x, y | |b.order| <= i < j < |c.order| && CausedAt(c, i, x) && CausedAt(c, j, y) && x != y
      ensures SavedBefore(b.order, x, y)
    {
      assert HasCause(c, i, batch) && HasCause(c, j, batch);
      var k :| 0 <= k < |batch| && CausedAt(c, i, batch[k]);
      var m :| 0 <= m < |batch| && CausedAt(c, j, batch[m]);
    }
  }

  /** A pass changes no event, and whatever it adds has a cause. */
  lemma PassCauses(s: Sys, R: nat, limit: Option<nat>, handlers: Handlers)
    requires R >= 1 && Books(s, R) && Filed(s.box) && WellBehaved(handlers)
    ensures var b, c := s.box, RunOnce(s, R, limit, handlers).box;
            && Filed(c)
            && (forall id :: id in b.rows ==> id in c.rows && c.rows[id].event == b.rows[id].event)
            && (forall id :: id in c.rows && id !in b.rows ==> c.rows[id].event.causation.Some?)
  {
    var b, batch := s.box, Batch(s, R, limit);
    BooksAreValid(s, R);
    BatchIsPending(s, R, limit);
    PassIs(s, R, batch, handlers);
    RunOnceKeepsBooks(s, R, limit, handlers);
    BooksAreValid(RunOnce(s, R, limit, handlers), R);
    hide ProcessAll, Books, WellBehaved, Batch;
    if batch == [] {
      NothingDispatched(b, R);
    }
    var c := RunOnce(s, R, limit, handlers).box;
    forall id | id in c.rows && id !in b.rows ensures c.rows[id].event.causation.Some? {
      assert id in c.order;
      var i :| 0 <= i < |c.order| && c.order[i] == id;
      assert HasCause(c, i, batch);
    }
  }

  // ---- Requeueing ----

  /** A requeue makes exactly the dead entries it is asked for fresh again, in place. */
  lemma {:induction false} RequeueEachIs(s: Sys, ids: seq<EventId>)
    ensures var b, c := s.box, RequeueEach(s, ids).box;
            && c.order == b.order && c.rows.Keys == b.rows.Keys
            && forall id :: id in b.rows ==>
                 c.rows[id] == if b.rows[id].dead && id in ids then Row(b.rows[id].event, false, 0, false)
                               else b.rows[id]
  {
    if ids != [] {
      var prefix, last := ids[..|ids| - 1], ids[|ids| - 1];
      assert ids == prefix + [last];
      RequeueEachIs(s, prefix);
    }
  }

  /** So what was dead and is asked for is in the next unlimited batch, and nothing dead is left of it. */
  lemma {:induction false} RequeueIs(s: Sys, R: nat, ids: seq<EventId>)
    requires R >= 1 && Books(s, R)
    ensures var b, t := s.box, Requeue(s, ids);
            && t.box.order == b.order && t.box.rows.Keys == b.rows.Keys
            && (forall id :: id in b.rows ==>
                  t.box.rows[id] == if b.rows[id].dead && id in ids then Row(b.rows[id].event, false, 0, false)
                                    else b.rows[id])
            && (forall id :: id in b.rows && b.rows[id].dead && id in ids ==> id in Batch(t, R, None))
  {
    RequeueEachIs(s, ids);
    var t := Requeue(s, ids);
    UnpublishedIsExact(t.box.rows, t.box.order, Some(R));
    hide RequeueEach, Unpublished;
    BooksAreValid(s, R);
  }

  /** The call returns each entry it revives once. */
  lemma {:induction false} RevivedAre(s: Sys, ids: seq<EventId>)
    ensures Distinct(Revived(s, ids))
    ensures forall id :: id in Revived(s, ids) <==> id in ids && id in s.box.rows && s.box.rows[id].dead
  {
    if ids != [] {
      var prefix, last := ids[..|ids| - 1], ids[|ids| - 1];
      assert ids == prefix + [last];
      RevivedAre(s, prefix);
      RequeueEachIs(s, prefix);
    }
  }
}
