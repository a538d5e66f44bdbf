/** Delivery is at least once and the trust handlers are not idempotent: how often an event is counted. */
module TrustCounting {
  import opened Common
  import opened Events
  import opened Outbox
  import B = OutboxBooks
  import opened TrustPipeline

  // ---- One participant of one event ----

  /** The dispatches of entry `id` that stored the `k`-th change it asks for. */
  function Countings(inputs: seq<Input>, id: EventId, k: nat): nat
  {
    if inputs == [] then 0
    else Countings(inputs[..|inputs| - 1], id, k) + (if Reaches(inputs[|inputs| - 1], id, k) then 1 else 0)
  }

  predicate Reaches(i: Input, id: EventId, k: nat)
  {
    i.Attempt? && i.id == id && k < i.done
  }

  /** Those among them that raised afterwards. */
  function RaisedCountings(inputs: seq<Input>, id: EventId, k: nat): nat
  {
    if inputs == [] then 0
    else
      RaisedCountings(inputs[..|inputs| - 1], id, k) +
      (if Reaches(inputs[|inputs| - 1], id, k) && !inputs[|inputs| - 1].ok then 1 else 0)
  }

  predicate IsPublished(l: Line, id: EventId)
  {
    id in l.sys.box.rows && l.sys.box.rows[id].published
  }

  /** Between the outboxes entries come, and only `published` becomes published. */
  ghost predicate Grows(s: Sys, t: Sys, published: Option<EventId>)
  {
    && s.box.order <= t.box.order
    && (forall id :: id in s.box.rows ==>
          && id in t.box.rows && t.box.rows[id].event == s.box.rows[id].event
          && (t.box.rows[id].published <==> s.box.rows[id].published || published == Some(id)))
    && (forall id :: id in t.box.rows && id !in s.box.rows ==> !t.box.rows[id].published)
  }

  /** What one input does to the entries. */
  ghost predicate Moves(l: Line, m: Line, i: Input)
  {
    && Grows(l.sys, m.sys, if i.Attempt? && i.ok then Some(i.id) else None)
    && (forall id :: id in l.sys.box.rows && id in m.sys.box.rows ==> Asked(m, id) == Asked(l, id))
  }

  lemma GrowsMoves(l: Line, m: Line, i: Input)
    requires Grows(l.sys, m.sys, if i.Attempt? && i.ok then Some(i.id) else None)
    requires forall id :: id in l.sys.box.rows ==>
               (id in l.market <==> id in m.market) && (id in l.market ==> m.market[id] == l.market[id])
    ensures Moves(l, m, i)
  {
    hide T.Changes;
  }

  lemma {:induction false} SaveAllGrows(s: Sys, R: nat, es: seq<Event>)
    requires R >= 1 && B.Books(s, R) && NewIds(s.box, es)
    ensures Grows(s, SaveAll(s, es), None)
  {
    if es != [] {
      hide B.Books, NewIds, Save, B.Adds, Grows;
      var prefix, e := es[..|es| - 1], es[|es| - 1];
      var t := SaveAll(s, prefix);
      B.NewIdsPrefix(s.box, es);
      SaveAllGrows(s, R, prefix);
      B.SaveAllKeepsBooks(s, R, prefix);
      B.StillNew(s.box, es, t.box);
      SaveGrows(t, e);
      GrowsOn(s, t, SaveAll(s, es), None);
    } else {
      assert SaveAll(s, es) == s;
    }
  }

  lemma GrowsOn(s: Sys, t: Sys, u: Sys, published: Option<EventId>)
    requires Grows(s, t, None) && Grows(t, u, published)
    requires published.Some? ==> published.value in s.box.rows
    ensures Grows(s, u, published)
  {
  }

  lemma SaveGrows(s: Sys, e: Event)
    requires e.id !in s.box.rows
    ensures Grows(s, Save(s, e), None)
  {
  }

  lemma SettleGrows(s: Sys, R: nat, id: EventId, ok: bool)
    requires id in s.box.rows
    ensures Grows(s, Settle(s, R, id, ok), if ok then Some(id) else None)
  {
  }

  lemma GrowsKeeps(s: Sys, t: Sys, id: EventId)
    requires Grows(s, t, None) && id in s.box.rows
    ensures id in t.box.rows
  {
  }

  lemma ProcessGrows(s: Sys, R: nat, id: EventId, ok: bool, drafts: seq<Event>)
    requires R >= 1 && B.Books(s, R) && s.box.IsPending(id) && NewIds(s.box, drafts)
    requires HandlerCount(s.box.rows[id].event.eventType) == 0 ==> ok && drafts == []
    ensures Grows(s, Process(s, R, id, Calls(s.box.rows[id].event.eventType, ok, drafts)),
                  if ok then Some(id) else None)
  {
    var e := s.box.rows[id].event;
    OneRun(e.eventType, ok, drafts);
    var t := SaveAll(s, Descend(e, drafts));
    hide B.Books, SaveAll, Settle, Calls, NewIds, Descend, Grows;
    B.DescendIds(s.box, e, drafts);
    SaveAllGrows(s, R, Descend(e, drafts));
    GrowsKeeps(s, t, id);
    SettleGrows(t, R, id, ok);
    GrowsOn(s, t, Settle(t, R, id, ok), if ok then Some(id) else None);
  }

  lemma AttemptMoves(l: Line, R: nat, i: Input)
    requires R >= 1 && B.Books(l.sys, R) && Enabled(l, R, i) && i.Attempt?
    ensures Moves(l, Step(l, R, i), i)
  {
    var e := l.sys.box.rows[i.id].event;
    if HandlerCount(e.eventType) == 0 {
      NoHandlerNoSaves(l, R, i);
    }
    EnabledSteps(l, R, i);
    hide B.Books, Kept, Process, Keeps, Performed, Unused, Grows, Calls, Texts, Moves;
    DraftsAreNew(l, i.ids, Kept(l, i), e.occurredAt);
    ProcessGrows(l.sys, R, i.id, i.ok, Drafts(i.ids, Kept(l, i), e.occurredAt));
    GrowsMoves(l, Step(l, R, i), i);
  }

  lemma VerifyMoves(l: Line, R: nat, i: Input)
    requires R >= 1 && B.Books(l.sys, R) && Enabled(l, R, i) && i.Verify?
    ensures Moves(l, Step(l, R, i), i)
  {
    EnabledSteps(l, R, i);
    hide B.Books, SaveAll, Kept, Keeps, Performed, Unused, Grows, Texts, Moves;
    DraftsAreNew(l, i.ids, Kept(l, i), i.at);
    SaveAllGrows(l.sys, R, Drafts(i.ids, Kept(l, i), i.at));
    GrowsMoves(l, Step(l, R, i), i);
  }

  lemma ProduceMoves(l: Line, R: nat, i: Input)
    requires Enabled(l, R, i) && i.Produce?
    ensures Moves(l, Step(l, R, i), i)
  {
    SaveGrows(l.sys, i.event);
    hide Grows, Moves, Save;
    GrowsMoves(l, Step(l, R, i), i);
  }

  lemma {:induction false} RevivedStayUnpublished(s: Sys, ids: seq<EventId>)
    requires forall id :: id in s.box.rows && s.box.rows[id].dead ==> !s.box.rows[id].published
    ensures var t := RequeueEach(s, ids);
            && t.box.order == s.box.order && t.box.rows.Keys == s.box.rows.Keys
            && forall id :: id in s.box.rows ==>
                 && t.box.rows[id].event == s.box.rows[id].event
                 && t.box.rows[id].published == s.box.rows[id].published
                 && (t.box.rows[id].dead ==> !t.box.rows[id].published)
  {
    if ids != [] {
      RevivedStayUnpublished(s, ids[..|ids| - 1]);
    }
  }

  lemma ReviveMoves(l: Line, R: nat, i: Input)
    requires B.Books(l.sys, R) && i.Revive?
    ensures Moves(l, Step(l, R, i), i)
  {
    RevivedStayUnpublished(l.sys, i.revived);
    hide RequeueEach, Moves;
    GrowsMoves(l, Step(l, R, i), i);
  }

  lemma StepMoves(l: Line, R: nat, i: Input)
    requires R >= 1 && B.Books(l.sys, R) && Enabled(l, R, i)
    ensures Moves(l, Step(l, R, i), i)
  {
    hide *;
    match i
    case Produce(_, _) => ProduceMoves(l, R, i);
    case Attempt(_, _, _, _, _) => AttemptMoves(l, R, i);
    case Revive(_) => ReviveMoves(l, R, i);
    case Verify(_, _, _, _, _) => VerifyMoves(l, R, i);
  }

  /** One more input. */
  lemma CountingStep(l: Line, m: Line, R: nat, i: Input, id: EventId, k: nat)
    requires Enabled(l, R, i) && Moves(l, m, i) && id in m.sys.box.rows
    ensures id !in l.sys.box.rows ==> !Reaches(i, id, k) && !IsPublished(m, id)
    ensures id in l.sys.box.rows ==> Asked(m, id) == Asked(l, id)
    ensures id in l.sys.box.rows && k < |Asked(l, id)| ==>
              (IsPublished(m, id) <==> IsPublished(l, id) || (Reaches(i, id, k) && i.ok))
              && !(IsPublished(l, id) && Reaches(i, id, k))
  {
    hide T.Changes;
  }

  lemma {:induction false} NeverCounted(R: nat, inputs: seq<Input>, id: EventId, k: nat)
    requires R >= 1 && Run(R, inputs).Some? && id !in Run(R, inputs).value.sys.box.rows
    ensures Countings(inputs, id, k) == RaisedCountings(inputs, id, k) == 0
  {
    if inputs != [] {
      var prefix, i := inputs[..|inputs| - 1], inputs[|inputs| - 1];
      AlwaysBooks(R, prefix);
      StepMoves(Run(R, prefix).value, R, i);
      hide B.Books, Step;
      NeverCounted(R, prefix, id, k);
    }
  }

  /** A change that an entry asks for is made once when the entry is published, and once more by every
      dispatch of it that gets past that change and then raises. */
  lemma {:induction false} TimesCounted(R: nat, inputs: seq<Input>, id: EventId, k: nat)
    requires R >= 1 && Run(R, inputs).Some?
    requires var l := Run(R, inputs).value; id in l.sys.box.rows && k < |Asked(l, id)|
    ensures Countings(inputs, id, k) ==
            RaisedCountings(inputs, id, k) + (if IsPublished(Run(R, inputs).value, id) then 1 else 0)
  {
    if inputs != [] {
      var prefix, i := inputs[..|inputs| - 1], inputs[|inputs| - 1];
      var l := Run(R, prefix).value;
      AlwaysBooks(R, prefix);
      StepMoves(l, R, i);
      hide B.Books, Step;
      CountingStep(l, Run(R, inputs).value, R, i, id, k);
      hide Moves, Enabled, Asked, Reaches;
      if id in l.sys.box.rows {
        TimesCounted(R, prefix, id, k);
      } else {
        NeverCounted(R, prefix, id, k);
      }
    }
  }

  lemma {:induction false} NeverRaisedIff(inputs: seq<Input>, id: EventId, k: nat)
    ensures RaisedCountings(inputs, id, k) == 0 <==>
            forall n :: 0 <= n < |inputs| && Reaches(inputs[n], id, k) ==> inputs[n].ok
  {
    if inputs != [] {
      var prefix := inputs[..|inputs| - 1];
      NeverRaisedIff(prefix, id, k);
      assert forall n :: 0 <= n < |prefix| ==> inputs[n] == prefix[n];
    }
  }

  /** A published entry has counted for a participant exactly once if and only if no dispatch of it raised
      after making that participant's change. */
  lemma {:induction false} CountedOnceIff(R: nat, inputs: seq<Input>, id: EventId, k: nat)
    requires R >= 1 && Run(R, inputs).Some? && IsPublished(Run(R, inputs).value, id)
    requires k < |Asked(Run(R, inputs).value, id)|
    ensures Countings(inputs, id, k) == 1 <==>
            forall n :: 0 <= n < |inputs| && Reaches(inputs[n], id, k) ==> inputs[n].ok
  {
    TimesCounted(R, inputs, id, k);
    NeverRaisedIff(inputs, id, k);
  }

  // ---- The counters of one profile ----

  /** The counters that only ever grow. */
  datatype Counter = Sales | Purchases | Trades | Received | Given | Won | Lost

  function Reading(p: Trust.Profile, c: Counter): nat
  {
    match c
    case Sales => p.sales
    case Purchases => p.purchases
    case Trades => p.trades
    case Received => p.received
    case Given => p.given
    case Won => p.won
    case Lost => p.lost
  }

  predicate Counts(e: Trust.Evidence, c: Counter)
  {
    match e
    case RecordTransaction(_, role) =>
      (match role
       case Sale => c == Sales
       case Purchase => c == Purchases
       case Trade => c == Trades)
    case RecordReview(_, received, _) => c == if received then Received else Given
    case RecordDispute(_, outcome) => (outcome.Won? && c == Won) || (outcome.Lost? && c == Lost)
    case _ => false
  }

  function CounterOf(profiles: map<Trust.UserId, Trust.Profile>, user: Trust.UserId, c: Counter): nat
  {
    if user in profiles then Reading(profiles[user], c) else 0
  }

  /** How many of the changes count for `user` in `c`. */
  function Asking(changes: seq<T.Change>, user: Trust.UserId, c: Counter): nat
  {
    if changes == [] then 0
    else
      var last := changes[|changes| - 1];
      Asking(changes[..|changes| - 1], user, c) + (if last.user == user && Counts(last.evidence, c) then 1 else 0)
  }

  lemma UpdateCounts(s: T.Store, change: T.Change, at: int, user: Trust.UserId, c: Counter)
    ensures CounterOf(T.Update(s, change.user, change.evidence, at).profiles, user, c) ==
            CounterOf(s.profiles, user, c) + (if change.user == user && Counts(change.evidence, c) then 1 else 0)
  {
    hide Trust.Calculate;
  }

  lemma {:induction false} UpdateAllCounts(s: T.Store, changes: seq<T.Change>, at: int, user: Trust.UserId, c: Counter)
    ensures CounterOf(T.UpdateAll(s, changes, at).profiles, user, c) ==
            CounterOf(s.profiles, user, c) + Asking(changes, user, c)
  {
    if changes != [] {
      hide T.Update, CounterOf, Counts;
      var prefix := changes[..|changes| - 1];
      UpdateAllCounts(s, prefix, at, user, c);
      UpdateCounts(T.UpdateAll(s, prefix, at), changes[|changes| - 1], at, user, c);
    }
  }

  /** What a published entry asks for. */
  function Due(l: Line, id: EventId, user: Trust.UserId, c: Counter): nat
  {
    if IsPublished(l, id) then Asking(Asked(l, id), user, c) else 0
  }

  function DueAmong(l: Line, order: seq<EventId>, user: Trust.UserId, c: Counter): nat
  {
    if order == [] then 0
    else DueAmong(l, order[..|order| - 1], user, c) + Due(l, order[|order| - 1], user, c)
  }

  /** What the published entries ask for, each once. */
  function Credited(l: Line, user: Trust.UserId, c: Counter): nat
  {
    DueAmong(l, l.sys.box.order, user, c)
  }

  /** What raising dispatches had already changed. */
  ghost function Repeated(R: nat, inputs: seq<Input>, user: Trust.UserId, c: Counter): nat
  {
    if inputs == [] then 0
    else
      var prefix := inputs[..|inputs| - 1];
      Repeated(R, prefix, user, c) +
      (if Run(R, prefix).Some? then RepeatedBy(Run(R, prefix).value, inputs[|inputs| - 1], user, c) else 0)
  }

  function RepeatedBy(l: Line, i: Input, user: Trust.UserId, c: Counter): nat
  {
    if i.Attempt? && !i.ok then Asking(Made(l, i).0, user, c) else 0
  }

  /** What was recorded outside any dispatch. */
  function Direct(inputs: seq<Input>, user: Trust.UserId, c: Counter): nat
  {
    if inputs == [] then 0
    else
      var i := inputs[|inputs| - 1];
      Direct(inputs[..|inputs| - 1], user, c) +
      (if i.Verify? && i.user == user && Counts(i.evidence, c) then 1 else 0)
  }

  lemma {:induction false} DueFrame(l: Line, m: Line, order: seq<EventId>, user: Trust.UserId, c: Counter)
    requires forall id :: id in order ==> Due(m, id, user, c) == Due(l, id, user, c)
    ensures DueAmong(m, order, user, c) == DueAmong(l, order, user, c)
  {
    if order != [] {
      hide Due;
      assert order[|order| - 1] in order && forall id :: id in order[..|order| - 1] ==> id in order;
      DueFrame(l, m, order[..|order| - 1], user, c);
    }
  }

  lemma {:induction false} DueOfOne(l: Line, m: Line, order: seq<EventId>, one: EventId,
                                    user: Trust.UserId, c: Counter)
    requires Distinct(order) && one in order
    requires forall id :: id in order && id != one ==> Due(m, id, user, c) == Due(l, id, user, c)
    ensures DueAmong(m, order, user, c) + Due(l, one, user, c) == DueAmong(l, order, user, c) + Due(m, one, user, c)
  {
    hide Due;
    var prefix, last := order[..|order| - 1], order[|order| - 1];
    assert order == prefix + [last] && last !in prefix && last in order;
    if last == one {
      DueFrame(l, m, prefix, user, c);
    } else {
      DueOfOne(l, m, prefix, one, user, c);
    }
  }

  lemma {:induction false} NothingDue(l: Line, order: seq<EventId>, n: nat, user: Trust.UserId, c: Counter)
    requires n <= |order| && forall k :: n <= k < |order| ==> Due(l, order[k], user, c) == 0
    ensures DueAmong(l, order, user, c) == DueAmong(l, order[..n], user, c)
  {
    if n < |order| {
      hide Due;
      NothingDue(l, order[..|order| - 1], n, user, c);
      assert order[..|order| - 1][..n] == order[..n];
    } else {
      assert order[..n] == order;
    }
  }

  /** New entries are not in the old order, and not published. */
  lemma NewAreNotDue(l: Line, m: Line, i: Input, user: Trust.UserId, c: Counter)
    requires Moves(l, m, i) && l.sys.box.Valid() && m.sys.box.Valid()
    ensures Credited(m, user, c) == DueAmong(m, l.sys.box.order, user, c)
  {
    hide Asked;
    var before, after := l.sys.box.order, m.sys.box.order;
    forall k | |before| <= k < |after| ensures Due(m, after[k], user, c) == 0 {
      assert after[k] in after;
    }
    NothingDue(m, after, |before|, user, c);
    assert after[..|before|] == before;
  }

  /** An entry falls due when its dispatch returns. */
  lemma DueAfter(l: Line, m: Line, R: nat, i: Input, id: EventId, user: Trust.UserId, c: Counter)
    requires Enabled(l, R, i) && Moves(l, m, i) && id in l.sys.box.rows
    ensures if i.Attempt? && i.ok && i.id == id
            then Due(l, id, user, c) == 0 && Due(m, id, user, c) == Asking(Made(l, i).0, user, c)
            else Due(m, id, user, c) == Due(l, id, user, c)
  {
    hide Asking, T.Changes;
    if i.Attempt? && i.ok && i.id == id {
      assert Asked(l, id)[..i.done] == Asked(l, id);
    }
  }

  lemma CreditedStep(l: Line, m: Line, R: nat, i: Input, user: Trust.UserId, c: Counter)
    requires Enabled(l, R, i) && Moves(l, m, i) && l.sys.box.Valid() && m.sys.box.Valid()
    ensures Credited(m, user, c) ==
            Credited(l, user, c) + (if i.Attempt? && i.ok then Asking(Made(l, i).0, user, c) else 0)
  {
    var order := l.sys.box.order;
    NewAreNotDue(l, m, i, user, c);
    hide Moves, Due, Asking, Made;
    forall id | id in order
      ensures if i.Attempt? && i.ok && i.id == id
              then Due(l, id, user, c) == 0 && Due(m, id, user, c) == Asking(Made(l, i).0, user, c)
              else Due(m, id, user, c) == Due(l, id, user, c)
    {
      DueAfter(l, m, R, i, id, user, c);
    }
    if i.Attempt? && i.ok {
      DueOfOne(l, m, order, i.id, user, c);
    } else {
      DueFrame(l, m, order, user, c);
    }
  }

  lemma ProfilesAfter(l: Line, R: nat, i: Input, user: Trust.UserId, c: Counter)
    requires R >= 1 && B.Books(l.sys, R) && Enabled(l, R, i)
    ensures CounterOf(Step(l, R, i).profiles, user, c) ==
            CounterOf(l.profiles, user, c) + Asking(Made(l, i).0, user, c)
  {
    StepAdvances(l, R, i);
    var (changes, at) := Made(l, i);
    UpdateAllCounts(T.Store(l.profiles, []), changes, at, user, c);
    hide Step, Made, B.Books, CounterOf, Kept, Keeps, Stream, T.UpdateAll;
  }

  lemma CountersStep(l: Line, m: Line, R: nat, i: Input, user: Trust.UserId, c: Counter)
    requires R >= 1 && B.Books(l.sys, R) && Enabled(l, R, i) && m == Step(l, R, i)
    ensures CounterOf(m.profiles, user, c) + Credited(l, user, c) ==
            CounterOf(l.profiles, user, c) + Credited(m, user, c) + RepeatedBy(l, i, user, c)
            + (if i.Verify? && i.user == user && Counts(i.evidence, c) then 1 else 0)
  {
    StepMoves(l, R, i);
    StepAdvances(l, R, i);
    B.BooksAreValid(l.sys, R);
    B.BooksAreValid(m.sys, R);
    hide Moves, Step, Credited, B.Books, CounterOf, Asking, Made, Stream;
    CreditedStep(l, m, R, i, user, c);
    ProfilesAfter(l, R, i, user, c);
    DirectStep(l, i, user, c);
  }

  lemma DirectStep(l: Line, i: Input, user: Trust.UserId, c: Counter)
    ensures i.Verify? ==> Asking(Made(l, i).0, user, c) == if i.user == user && Counts(i.evidence, c) then 1 else 0
    ensures i.Produce? || i.Revive? ==> Asking(Made(l, i).0, user, c) == 0
  {
    if i.Verify? {
      assert Made(l, i).0[..0] == [];
    }
  }

  /** Each counter of a profile is what the published entries ask for, plus what raising dispatches had
      already changed, plus what was recorded directly. */
  lemma {:induction false} CountersAddUp(R: nat, inputs: seq<Input>, user: Trust.UserId, c: Counter)
    requires R >= 1 && Run(R, inputs).Some?
    ensures CounterOf(Run(R, inputs).value.profiles, user, c) ==
            Credited(Run(R, inputs).value, user, c) + Repeated(R, inputs, user, c) + Direct(inputs, user, c)
  {
    if inputs != [] {
      var prefix, i := inputs[..|inputs| - 1], inputs[|inputs| - 1];
      CountersAddUp(R, prefix, user, c);
      AlwaysBooks(R, prefix);
      hide B.Books, Step, Enabled, CounterOf, Credited, RepeatedBy, Counts;
      CountersStep(Run(R, prefix).value, Run(R, inputs).value, R, i, user, c);
    }
  }

  /** The `n`-th input is a dispatch that raised after a change that counts for `user` in `c`. */
  ghost predicate RepeatsAt(R: nat, inputs: seq<Input>, n: nat, user: Trust.UserId, c: Counter)
    requires n < |inputs|
  {
    Run(R, inputs[..n]).Some? && RepeatedBy(Run(R, inputs[..n]).value, inputs[n], user, c) > 0
  }

  lemma {:induction false} NothingRepeatedIff(R: nat, inputs: seq<Input>, user: Trust.UserId, c: Counter)
    ensures Repeated(R, inputs, user, c) == 0 <==>
            forall n :: 0 <= n < |inputs| ==> !RepeatsAt(R, inputs, n, user, c)
  {
    if inputs != [] {
      hide *;
      var prefix := inputs[..|inputs| - 1];
      NothingRepeatedIff(R, prefix, user, c);
      RepeatedLast(R, inputs, user, c);
      if Repeated(R, inputs, user, c) == 0 {
        forall n | 0 <= n < |inputs| ensures !RepeatsAt(R, inputs, n, user, c) {
          if n < |prefix| { RepeatedBefore(R, inputs, n, user, c); }
        }
      } else if Repeated(R, prefix, user, c) > 0 {
        var n :| 0 <= n < |prefix| && RepeatsAt(R, prefix, n, user, c);
        RepeatedBefore(R, inputs, n, user, c);
      }
    }
  }

  lemma RepeatedLast(R: nat, inputs: seq<Input>, user: Trust.UserId, c: Counter)
    requires inputs != []
    ensures Repeated(R, inputs, user, c) == 0 <==>
            Repeated(R, inputs[..|inputs| - 1], user, c) == 0 && !RepeatsAt(R, inputs, |inputs| - 1, user, c)
  {
    hide Run, RepeatedBy;
  }

  lemma RepeatedBefore(R: nat, inputs: seq<Input>, n: nat, user: Trust.UserId, c: Counter)
    requires n < |inputs| - 1
    ensures RepeatsAt(R, inputs, n, user, c) <==> RepeatsAt(R, inputs[..|inputs| - 1], n, user, c)
  {
    assert inputs[..|inputs| - 1][..n] == inputs[..n];
    hide Run, RepeatedBy;
  }

  /** A counter agrees with the published events exactly if no dispatch raised after counting. */
  lemma {:induction false} CountersAreExactIff(R: nat, inputs: seq<Input>, user: Trust.UserId, c: Counter)
    requires R >= 1 && Run(R, inputs).Some?
    ensures CounterOf(Run(R, inputs).value.profiles, user, c) ==
            Credited(Run(R, inputs).value, user, c) + Direct(inputs, user, c) <==>
            forall n :: 0 <= n < |inputs| ==> !RepeatsAt(R, inputs, n, user, c)
  {
    CountersAddUp(R, inputs, user, c);
    NothingRepeatedIff(R, inputs, user, c);
  }

  // ---- A sale that counts twice ----

  lemma {:induction false} FreshIds(used: set<EventId>, n: nat) returns (ids: seq<EventId>)
    ensures |ids| == n && Distinct(ids) && forall k :: 0 <= k < n ==> ids[k] !in used
  {
    if n == 0 {
      ids := [];
    } else {
      ids := FreshIds(used, n - 1);
      var id := FreshId(used + set x | x in ids);
      ids := ids + [id];
    }
  }

  lemma {:induction false} FreshId(used: set<EventId>) returns (id: EventId)
    ensures id !in used && forall x :: x in used ==> x < id
  {
    if used == {} {
      id := 0;
    } else {
      var x :| x in used;
      var larger := FreshId(used - {x});
      id := Max(larger, x + 1);
      assert forall y :: y in used ==> y in used - {x} || y == x;
    }
  }

  /** A pending entry can be dispatched with any outcome, and with all that it emits saved. */
  lemma CanAttempt(l: Line, R: nat, id: EventId, done: nat, ok: bool) returns (i: Input)
    requires l.sys.box.IsPending(id) && done <= |Asked(l, id)| && (ok ==> done == |Asked(l, id)|)
    requires HandlerCount(l.sys.box.rows[id].event.eventType) == 0 ==> ok
    ensures i.Attempt? && i.id == id && i.done == done && i.ok == ok && Enabled(l, R, i)
  {
    hide T.Changes, T.Update;
    var n := |Performed(l, Attempt(id, done, ok, 0, [])).outbox|;
    var ids := FreshIds(l.sys.box.rows.Keys, n);
    i := Attempt(id, done, ok, n, ids);
    assert Made(l, i) == Made(l, Attempt(id, done, ok, 0, []));
    EarlierIsLess(l, i);
  }

  lemma EarlierIsLess(l: Line, i: Input)
    ensures |Earlier(l, i).outbox| <= |Performed(l, i).outbox|
  {
    hide Trust.Perform, Made;
  }

  /** A dispatch that raises leaves its entry pending until the retries are used up. */
  lemma StillPending(l: Line, R: nat, i: Input)
    requires R >= 1 && B.Books(l.sys, R) && Enabled(l, R, i) && i.Attempt? && !i.ok
    requires l.sys.box.rows[i.id].retry + 1 < R
    ensures Step(l, R, i).sys.box.IsPending(i.id)
  {
    var e := l.sys.box.rows[i.id].event;
    var drafts := Drafts(i.ids, Kept(l, i), e.occurredAt);
    EnabledSteps(l, R, i);
    OneRun(e.eventType, i.ok, drafts);
    hide B.Books, Kept, Keeps, Performed, Unused, Calls, Drafts, NewIds, Descend, SaveAll;
    DraftsAreNew(l, i.ids, Kept(l, i), e.occurredAt);
    B.DescendIds(l.sys.box, e, drafts);
    B.SaveAllKeepsBooks(l.sys, R, Descend(e, drafts));
  }

  lemma RunOne(R: nat, inputs: seq<Input>, i: Input)
    requires Run(R, inputs).Some? && Enabled(Run(R, inputs).value, R, i)
    ensures Run(R, inputs + [i]) == Some(Step(Run(R, inputs).value, R, i))
  {
    hide Enabled, Step;
    assert (inputs + [i])[..|inputs|] == inputs;
  }

  function Sale(seller: Trust.UserId, buyer: Trust.UserId): Input
  {
    Produce(Event(0, TransactionCompleted, 0, 0, None, None),
            Some(T.TransactionCompleted(0, Some(seller), Some(buyer), None)))
  }

  function SaleChanges(seller: Trust.UserId, buyer: Trust.UserId): seq<T.Change>
  {
    [T.Change(seller, Trust.RecordTransaction(0, Trust.Sale)),
     T.Change(buyer, Trust.RecordTransaction(0, Trust.Purchase))]
  }

  /** The sale is stored and waits for its first dispatch. */
  predicate Waits(l: Line, seller: Trust.UserId, buyer: Trust.UserId)
  {
    && l.profiles == map[] && l.sys.box.IsPending(0) && l.sys.box.rows[0].retry == 0
    && l.sys.box.rows[0].event.eventType == TransactionCompleted
    && Asked(l, 0) == SaleChanges(seller, buyer)
  }

  lemma SaleWaits(R: nat, seller: Trust.UserId, buyer: Trust.UserId)
    requires seller != buyer
    ensures Enabled(START, R, Sale(seller, buyer)) && Waits(Step(START, R, Sale(seller, buyer)), seller, buyer)
  {
  }

  lemma SaleIsProduced(R: nat, seller: Trust.UserId, buyer: Trust.UserId)
    requires seller != buyer
    ensures Run(R, [Sale(seller, buyer)]).Some?
    ensures Waits(Run(R, [Sale(seller, buyer)]).value, seller, buyer)
  {
    hide *;
    SaleWaits(R, seller, buyer);
    NoInputs(R);
    RunOne(R, [], Sale(seller, buyer));
    assert [] + [Sale(seller, buyer)] == [Sale(seller, buyer)];
  }

  lemma NoInputs(R: nat)
    ensures Run(R, []) == Some(START)
  {
  }

  lemma SaleCounts(seller: Trust.UserId, buyer: Trust.UserId)
    requires seller != buyer
    ensures Asking(SaleChanges(seller, buyer)[..1], seller, Sales) == 1
    ensures Asking(SaleChanges(seller, buyer)[..2], seller, Sales) == 1
  {
    var changes := SaleChanges(seller, buyer);
    assert changes[..1][..0] == [] && changes[..2][..1] == changes[..1];
  }

  lemma CountingsOfThree(seller: Trust.UserId, buyer: Trust.UserId, b: Input, c: Input)
    requires b.Attempt? && b.id == 0 && b.done == 1 && c.Attempt? && c.id == 0 && c.done == 2
    ensures Countings([Sale(seller, buyer), b, c], 0, 0) == 2
  {
    var a := Sale(seller, buyer);
    assert [a, b, c][..2] == [a, b] && [a, b][..1] == [a] && [a][..0] == [];
    assert Countings([a, b], 0, 0) == Countings([a], 0, 0) + 1;
  }

  /** The rest of the run, from the entry on. */
  lemma DispatchTwice(l: Line, R: nat, id: EventId, user: Trust.UserId, c: Counter)
    returns (first: Input, m: Line, second: Input)
    requires R >= 2 && B.Books(l.sys, R) && l.sys.box.IsPending(id) && l.sys.box.rows[id].retry == 0
    requires HandlerCount(l.sys.box.rows[id].event.eventType) == 1 && |Asked(l, id)| == 2
    ensures first.Attempt? && first.id == id && first.done == 1 && Enabled(l, R, first) && m == Step(l, R, first)
    ensures second.Attempt? && second.id == id && second.done == 2 && Enabled(m, R, second)
    ensures IsPublished(Step(m, R, second), id)
    ensures CounterOf(Step(m, R, second).profiles, user, c) ==
            CounterOf(l.profiles, user, c) + Asking(Asked(l, id)[..1], user, c) + Asking(Asked(l, id)[..2], user, c)
  {
    hide Step, Enabled, B.Books, Asked, Asking, CounterOf;
    first := CanAttempt(l, R, id, 1, false);
    EnabledSteps(l, R, first);
    StillPending(l, R, first);
    StepMoves(l, R, first);
    StepAdvances(l, R, first);
    ProfilesAfter(l, R, first, user, c);
    m := Step(l, R, first);
    second := CanAttempt(m, R, id, 2, true);
    EnabledSteps(m, R, second);
    StepMoves(m, R, second);
    ProfilesAfter(m, R, second, user, c);
  }

  lemma RunTwoMore(R: nat, produce: Input, l: Line, first: Input, m: Line, second: Input)
    requires Run(R, [produce]) == Some(l) && Enabled(l, R, first) && m == Step(l, R, first) && Enabled(m, R, second)
    ensures Run(R, [produce, first, second]) == Some(Step(m, R, second))
  {
    hide *;
    RunOne(R, [produce], first);
    assert [produce] + [first] == [produce, first];
    RunOne(R, [produce, first], second);
    assert [produce, first] + [second] == [produce, first, second];
  }

  lemma WaitingSale(l: Line, seller: Trust.UserId, buyer: Trust.UserId)
    requires Waits(l, seller, buyer) && seller != buyer
    ensures l.sys.box.IsPending(0) && l.sys.box.rows[0].retry == 0 && |Asked(l, 0)| == 2
    ensures HandlerCount(l.sys.box.rows[0].event.eventType) == 1
    ensures CounterOf(l.profiles, seller, Sales) == 0
    ensures Asking(Asked(l, 0)[..1], seller, Sales) == Asking(Asked(l, 0)[..2], seller, Sales) == 1
  {
    hide Asked, Asking;
    SaleCounts(seller, buyer);
  }

  /** A sale whose first dispatch raises after the seller's profile was stored: when it is published, the
      seller has two sales. */
  lemma {:induction false} CountedTwice(R: nat, seller: Trust.UserId, buyer: Trust.UserId) returns (inputs: seq<Input>)
    requires R >= 2 && seller != buyer
    ensures Run(R, inputs).Some? && IsPublished(Run(R, inputs).value, 0)
    ensures Countings(inputs, 0, 0) == 2
    ensures CounterOf(Run(R, inputs).value.profiles, seller, Sales) == 2
  {
    hide *;
    var produce := Sale(seller, buyer);
    SaleIsProduced(R, seller, buyer);
    AlwaysBooks(R, [produce]);
    var l := Run(R, [produce]).value;
    WaitingSale(l, seller, buyer);
    var first, m, second := DispatchTwice(l, R, 0, seller, Sales);
    RunTwoMore(R, produce, l, first, m, second);
    CountingsOfThree(seller, buyer, first, second);
    inputs := [produce, first, second];
  }

  lemma UpdateEmits(l: Line, change: T.Change, at: int)
    requires change.evidence.RecordTransaction?
    ensures Done(l, [change], at).outbox != []
  {
    hide Trust.Calculate;
    assert [change][..0] == [];
  }

  lemma SaleFolds(R: nat, seller: Trust.UserId, buyer: Trust.UserId)
    requires R >= 1 && seller != buyer && Run(R, [Sale(seller, buyer)]).Some?
    ensures Folds(Run(R, [Sale(seller, buyer)]).value)
  {
    var inputs := [Sale(seller, buyer)];
    assert inputs[..0] == [];
    NothingMade(START, Sale(seller, buyer));
    hide Folds, Step, Cut;
    UncutFolds(R, inputs);
  }

  /** A dispatch that stores the first change of `l` and saves none of its events. */
  lemma LosesFirst(l: Line, R: nat, seller: Trust.UserId, buyer: Trust.UserId)
    requires Waits(l, seller, buyer)
    ensures var i := Attempt(0, 1, false, 0, []); Enabled(l, R, i) && Cut(l, i)
  {
    var i := Attempt(0, 1, false, 0, []);
    hide Asked, T.UpdateAll;
    assert Made(l, i).0 == [SaleChanges(seller, buyer)[0]];
    assert Earlier(l, i) == T.UpdateAll(T.Store(l.profiles, []), [], Made(l, i).1);
    NothingUpdated(T.Store(l.profiles, []), Made(l, i).1);
    UpdateEmits(l, SaleChanges(seller, buyer)[0], Made(l, i).1);
  }

  lemma NothingUpdated(s: T.Store, at: int)
    ensures T.UpdateAll(s, [], at) == s
  {
  }

  /** The seller's profile is stored, and the save of its first event raises: the fold is broken. */
  lemma {:induction false} LostAnnouncement(R: nat, seller: Trust.UserId, buyer: Trust.UserId)
    returns (inputs: seq<Input>)
    requires R >= 1 && seller != buyer
    ensures Run(R, inputs).Some? && !Folds(Run(R, inputs).value)
  {
    SaleIsProduced(R, seller, buyer);
    SaleFolds(R, seller, buyer);
    AlwaysBooks(R, [Sale(seller, buyer)]);
    hide *;
    var l := Run(R, [Sale(seller, buyer)]).value;
    var i := Attempt(0, 1, false, 0, []);
    LosesFirst(l, R, seller, buyer);
    RunOne(R, [Sale(seller, buyer)], i);
    StepFoldsIff(l, R, i);
    inputs := [Sale(seller, buyer)] + [i];
  }
}
