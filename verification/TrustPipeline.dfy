/** Trust profiles behind the outbox: events are delivered at least once, handlers may raise half-way, and
    what they save goes through the outbox that delivers them. */
module TrustPipeline {
  import opened Common
  import opened Events
  import opened Outbox
  import opened OutboxBooks
  import Trust
  import T = TrustStore

  /** `text` is the trust event behind an outbox entry, `market` the marketplace event. */
  datatype Line = Line(
    profiles: map<Trust.UserId, Trust.Profile>,
    sys: Sys,
    text: map<EventId, Trust.TrustEvent>,
    market: map<EventId, T.MarketEvent>)

  const START := Line(map[], INITIAL, map[], map[])

  /** The trust entries of the outbox, in save order. */
  function Stream(rows: map<EventId, Row>, order: seq<EventId>, text: map<EventId, Trust.TrustEvent>)
    : seq<Trust.TrustEvent>
  {
    if order == [] then []
    else
      var id := order[|order| - 1];
      Stream(rows, order[..|order| - 1], text) +
      (if id in rows && rows[id].event.eventType == TrustChange && id in text then [text[id]] else [])
  }

  function StreamOf(l: Line): seq<Trust.TrustEvent>
  {
    Stream(l.sys.box.rows, l.sys.box.order, l.text)
  }

  /** What the trust handlers store, seen as one store. */
  function StoreOf(l: Line): T.Store
  {
    T.Store(l.profiles, StreamOf(l))
  }

  /** The outbox events for some trust events, before they get their lineage. */
  function Drafts(ids: seq<EventId>, events: seq<Trust.TrustEvent>, at: int): seq<Event>
    requires |ids| == |events|
  {
    seq(|ids|, i requires 0 <= i < |ids| => Event(ids[i], TrustChange, events[i].user, at, None, None))
  }

  function Texts(text: map<EventId, Trust.TrustEvent>, ids: seq<EventId>, events: seq<Trust.TrustEvent>)
    : map<EventId, Trust.TrustEvent>
    requires |ids| == |events|
  {
    if ids == [] then text
    else Texts(text, ids[..|ids| - 1], events[..|ids| - 1])[ids[|ids| - 1] := events[|ids| - 1]]
  }

  /** The changes a handler call gets done, and the events they emit. */
  function Done(l: Line, changes: seq<T.Change>, at: int): T.Store
  {
    T.UpdateAll(T.Store(l.profiles, []), changes, at)
  }

  /** An event is produced; one dispatch of a pending entry performs the first `done` changes it asks for and
      then returns or raises; dead letters are revived; a verification changes outside any dispatch. Of the
      events that the changes emit the first `kept` are saved, with the new `ids`. */
  datatype Input =
    | Produce(event: Event, content: Option<T.MarketEvent>)
    | Attempt(id: EventId, done: nat, ok: bool, kept: nat, ids: seq<EventId>)
    | Revive(revived: seq<EventId>)
    | Verify(user: Trust.UserId, evidence: Trust.Evidence, at: int, kept: nat, ids: seq<EventId>)

  /** What the entry asks the trust handlers to change. */
  function Asked(l: Line, id: EventId): seq<T.Change>
    requires id in l.sys.box.rows
  {
    if SavesEvents(l.sys.box.rows[id].event.eventType) && id in l.market then T.Changes(l.market[id]) else []
  }

  /** The changes that are made, and when. */
  function Made(l: Line, i: Input): (seq<T.Change>, int)
  {
    match i
    case Attempt(id, done, _, _, _) =>
      if id in l.sys.box.rows && done <= |Asked(l, id)|
      then (Asked(l, id)[..done], l.sys.box.rows[id].event.occurredAt)
      else ([], 0)
    case Verify(user, evidence, at, _, _) => ([T.Change(user, evidence)], at)
    case _ => ([], 0)
  }

  function Performed(l: Line, i: Input): T.Store
  {
    Done(l, Made(l, i).0, Made(l, i).1)
  }

  /** All but the last of the changes that are made. */
  function Earlier(l: Line, i: Input): T.Store
  {
    var (changes, at) := Made(l, i);
    Done(l, if changes == [] then [] else changes[..|changes| - 1], at)
  }

  /** The events that are saved: all those of the earlier changes, and some of the last one's. */
  predicate Keeps(l: Line, i: Input, kept: nat)
  {
    |Earlier(l, i).outbox| <= kept <= |Performed(l, i).outbox|
  }

  function Kept(l: Line, i: Input): seq<Trust.TrustEvent>
  {
    var all := Performed(l, i).outbox;
    if (i.Attempt? || i.Verify?) && i.kept <= |all| then all[..i.kept] else all
  }

  /** A save raises after the profile that its event is about has been stored. */
  predicate Cut(l: Line, i: Input)
  {
    (i.Attempt? || i.Verify?) && i.kept < |Performed(l, i).outbox|
  }

  ghost predicate Enabled(l: Line, R: nat, i: Input)
  {
    match i
    case Produce(e, _) => e.id !in l.sys.box.rows && e.eventType != TrustChange
    case Attempt(id, done, ok, kept, ids) =>
      && l.sys.box.IsPending(id)
      && done <= |Asked(l, id)| && Keeps(l, i, kept)
      && (ok ==> done == |Asked(l, id)| && kept == |Performed(l, i).outbox|)
      && (HandlerCount(l.sys.box.rows[id].event.eventType) == 0 ==> ok)
      && |ids| == kept && Unused(l, ids)
    case Revive(_) => true
    case Verify(_, _, _, kept, ids) => Keeps(l, i, kept) && |ids| == kept && Unused(l, ids)
  }

  /** The registered handler, if the event type has one. */
  function Calls(t: EventType, ok: bool, drafts: seq<Event>): seq<HandlerRun>
  {
    if HandlerCount(t) == 0 then [] else [HandlerRun(ok, drafts)]
  }

  ghost predicate Unused(l: Line, ids: seq<EventId>)
  {
    Distinct(ids) && forall i :: 0 <= i < |ids| ==> ids[i] !in l.sys.box.rows
  }

  function Step(l: Line, R: nat, i: Input): Line
    requires i.Attempt? ==> i.id in l.sys.box.rows
    requires i.Attempt? || i.Verify? ==> |i.ids| == |Kept(l, i)|
  {
    match i
    case Produce(e, content) =>
      l.(sys := Save(l.sys, e), market := if content.Some? then l.market[e.id := content.value] else l.market)
    case Attempt(id, _, ok, _, ids) =>
      var e := l.sys.box.rows[id].event;
      l.(profiles := Performed(l, i).profiles,
         sys := Process(l.sys, R, id, Calls(e.eventType, ok, Drafts(ids, Kept(l, i), e.occurredAt))),
         text := Texts(l.text, ids, Kept(l, i)))
    case Revive(ids) => l.(sys := Requeue(l.sys, ids))
    case Verify(_, _, at, _, ids) =>
      l.(profiles := Performed(l, i).profiles,
         sys := SaveAll(l.sys, Drafts(ids, Kept(l, i), at)),
         text := Texts(l.text, ids, Kept(l, i)))
  }

  /** The state after a run, or `None` if it asks for something that cannot happen. */
  ghost function Run(R: nat, inputs: seq<Input>): Option<Line>
  {
    if inputs == [] then Some(START)
    else
      var l, i := Run(R, inputs[..|inputs| - 1]), inputs[|inputs| - 1];
      if l.Some? && Enabled(l.value, R, i) then Some(Step(l.value, R, i)) else None
  }

  // ---- The stream ----

  lemma {:induction false} StreamFrame(rows: map<EventId, Row>, after: map<EventId, Row>, order: seq<EventId>,
                                       text: map<EventId, Trust.TrustEvent>, more: map<EventId, Trust.TrustEvent>)
    requires forall id :: id in order ==>
               && (id in rows <==> id in after) && (id in text <==> id in more)
               && (id in rows ==> after[id].event == rows[id].event) && (id in text ==> more[id] == text[id])
    ensures Stream(after, order, more) == Stream(rows, order, text)
  {
    if order != [] {
      assert order[|order| - 1] in order && forall id :: id in order[..|order| - 1] ==> id in order;
      StreamFrame(rows, after, order[..|order| - 1], text, more);
    }
  }

  /** The new entries are texts of their events, the old ones are as they were. */
  ghost predicate TextsFor(text: map<EventId, Trust.TrustEvent>, ids: seq<EventId>,
                           events: seq<Trust.TrustEvent>, more: map<EventId, Trust.TrustEvent>)
    requires |ids| == |events|
  {
    && (forall i :: 0 <= i < |ids| ==> ids[i] in more && more[ids[i]] == events[i])
    && (forall id :: id !in ids ==> (id in more <==> id in text))
    && (forall id :: id !in ids && id in text ==> more[id] == text[id])
  }

  lemma {:induction false} TextsAre(text: map<EventId, Trust.TrustEvent>, ids: seq<EventId>,
                                    events: seq<Trust.TrustEvent>)
    requires |ids| == |events| && Distinct(ids)
    ensures TextsFor(text, ids, events, Texts(text, ids, events))
  {
    if ids != [] {
      var n := |ids| - 1;
      TextsAre(text, ids[..n], events[..n]);
      assert ids == ids[..n] + [ids[n]];
    }
  }

  lemma SavedLast(s: Sys, e: Event, text: map<EventId, Trust.TrustEvent>)
    requires s.box.Valid() && e.id !in s.box.rows && e.eventType == TrustChange && e.id in text
    ensures var t := Save(s, e);
            Stream(t.box.rows, t.box.order, text) == Stream(s.box.rows, s.box.order, text) + [text[e.id]]
  {
    var t := Save(s, e);
    assert t.box.order[..|s.box.order|] == s.box.order;
    StreamFrame(s.box.rows, t.box.rows, s.box.order, text, text);
  }

  /** `es` are trust events with the texts `events`. */
  ghost predicate Carry(es: seq<Event>, events: seq<Trust.TrustEvent>, text: map<EventId, Trust.TrustEvent>)
  {
    |es| == |events| &&
    forall i :: 0 <= i < |es| ==>
      es[i].eventType == TrustChange && es[i].id in text && text[es[i].id] == events[i]
  }

  lemma CarryPrefix(es: seq<Event>, events: seq<Trust.TrustEvent>, text: map<EventId, Trust.TrustEvent>)
    requires Carry(es, events, text) && es != []
    ensures var n := |es| - 1;
            && |events| == |es| && Carry(es[..n], events[..n], text) && events == events[..n] + [events[n]]
            && es[n].eventType == TrustChange && es[n].id in text && text[es[n].id] == events[n]
  {
  }

  lemma LastIsNew(s: Sys, R: nat, es: seq<Event>)
    requires R >= 1 && Books(s, R) && NewIds(s.box, es) && es != []
    ensures var t := SaveAll(s, es[..|es| - 1]);
            t.box.Valid() && es[|es| - 1].id !in t.box.rows && SaveAll(s, es) == Save(t, es[|es| - 1])
  {
    hide Books, NewIds, Adds, Save;
    NewIdsPrefix(s.box, es);
    SaveAllKeepsBooks(s, R, es[..|es| - 1]);
    StillNew(s.box, es, SaveAll(s, es[..|es| - 1]).box);
    BooksAreValid(SaveAll(s, es[..|es| - 1]), R);
  }

  lemma SavedStep(s: Sys, R: nat, es: seq<Event>, events: seq<Trust.TrustEvent>,
                  text: map<EventId, Trust.TrustEvent>)
    requires R >= 1 && Books(s, R) && NewIds(s.box, es) && Carry(es, events, text) && es != []
    requires var t := SaveAll(s, es[..|es| - 1]);
             Stream(t.box.rows, t.box.order, text) ==
             Stream(s.box.rows, s.box.order, text) + events[..|events| - 1]
    ensures var t := SaveAll(s, es);
            Stream(t.box.rows, t.box.order, text) == Stream(s.box.rows, s.box.order, text) + events
  {
    var n := |es| - 1;
    CarryPrefix(es, events, text);
    LastIsNew(s, R, es);
    var t := SaveAll(s, es[..n]);
    hide *;
    SavedLast(t, es[n], text);
    var before := Stream(s.box.rows, s.box.order, text);
    assert before + events[..n] + [events[n]] == before + events;
  }

  /** Saving trust events appends them to the stream. */
  lemma {:induction false} SavedInOrder(s: Sys, R: nat, es: seq<Event>, events: seq<Trust.TrustEvent>,
                                        text: map<EventId, Trust.TrustEvent>)
    requires R >= 1 && Books(s, R) && NewIds(s.box, es) && Carry(es, events, text)
    ensures var t := SaveAll(s, es);
            Stream(t.box.rows, t.box.order, text) == Stream(s.box.rows, s.box.order, text) + events
  {
    if es == [] {
      assert events == [];
    } else {
      CarryPrefix(es, events, text);
      hide *;
      NewIdsPrefix(s.box, es);
      SavedInOrder(s, R, es[..|es| - 1], events[..|events| - 1], text);
      SavedStep(s, R, es, events, text);
    }
  }

  lemma {:induction false} UpdateOnTop(s: T.Store, changes: seq<T.Change>, at: int, earlier: seq<Trust.TrustEvent>)
    requires s.outbox == []
    ensures var t := T.UpdateAll(s, changes, at);
            T.UpdateAll(T.Store(s.profiles, earlier), changes, at) == T.Store(t.profiles, earlier + t.outbox)
  {
    if changes != [] {
      UpdateOnTop(s, changes[..|changes| - 1], at, earlier);
      var t, c := T.UpdateAll(s, changes[..|changes| - 1], at), changes[|changes| - 1];
      OneOnTop(t, c, at, earlier);
    }
  }

  lemma OneOnTop(t: T.Store, c: T.Change, at: int, earlier: seq<Trust.TrustEvent>)
    ensures var u := T.Update(t, c.user, c.evidence, at);
            T.Update(T.Store(t.profiles, earlier + t.outbox), c.user, c.evidence, at) ==
            T.Store(u.profiles, earlier + u.outbox)
  {
    hide Trust.Perform;
    var p := if c.user in t.profiles then t.profiles[c.user] else Trust.FreshProfile(c.user, at);
    match Trust.Perform(p, c.evidence, at)
    case None =>
    case Some((_, events)) => assert earlier + (t.outbox + events) == earlier + t.outbox + events;
  }

  // ---- One step ----

  /** The counters balance, the stream grows by what is saved, and the profiles are those that were stored. */
  ghost predicate Advances(l: Line, R: nat, i: Input)
    requires Enabled(l, R, i)
  {
    && Books(Step(l, R, i).sys, R)
    && StreamOf(Step(l, R, i)) == StreamOf(l) + Kept(l, i)
    && Step(l, R, i).profiles == Performed(l, i).profiles
  }

  lemma DraftsAreNew(l: Line, ids: seq<EventId>, events: seq<Trust.TrustEvent>, at: int)
    requires |ids| == |events| && Unused(l, ids)
    ensures NewIds(l.sys.box, Drafts(ids, events, at))
  {
  }

  /** Old entries keep their texts when new ones are added. */
  lemma OldStreamStays(l: Line, ids: seq<EventId>, events: seq<Trust.TrustEvent>)
    requires |ids| == |events| && Unused(l, ids) && l.sys.box.Valid()
    ensures Stream(l.sys.box.rows, l.sys.box.order, Texts(l.text, ids, events)) == StreamOf(l)
  {
    TextsAre(l.text, ids, events);
    StreamFrame(l.sys.box.rows, l.sys.box.rows, l.sys.box.order, l.text, Texts(l.text, ids, events));
  }

  /** Marking entries leaves the stream alone. */
  lemma MarkingKeepsStream(b: Box, c: Box, text: map<EventId, Trust.TrustEvent>)
    requires c.order == b.order && c.rows.Keys == b.rows.Keys
    requires forall id :: id in b.rows ==> c.rows[id].event == b.rows[id].event
    ensures Stream(c.rows, c.order, text) == Stream(b.rows, b.order, text)
  {
    StreamFrame(b.rows, c.rows, b.order, text, text);
  }

  /** With or without lineage, the drafts carry their texts. */
  lemma DraftsCarry(l: Line, ids: seq<EventId>, events: seq<Trust.TrustEvent>, at: int, e: Event)
    requires |ids| == |events| && Unused(l, ids)
    ensures Carry(Drafts(ids, events, at), events, Texts(l.text, ids, events))
    ensures Carry(Descend(e, Drafts(ids, events, at)), events, Texts(l.text, ids, events))
    ensures NewIds(l.sys.box, Descend(e, Drafts(ids, events, at)))
  {
    TextsAre(l.text, ids, events);
    SameIds(e, Drafts(ids, events, at));
    DraftsAreNew(l, ids, events, at);
    DescendIds(l.sys.box, e, Drafts(ids, events, at));
    hide Texts, Descend;
  }

  /** Nothing is saved where there is no handler. */
  lemma NoHandlerNoSaves(l: Line, R: nat, i: Input)
    requires Enabled(l, R, i) && i.Attempt? && HandlerCount(l.sys.box.rows[i.id].event.eventType) == 0
    ensures i.ok && i.ids == [] && Kept(l, i) == []
  {
    ChangesAreFew(l, i.id);
    hide Asked;
  }

  /** The saves of one dispatch and its outcome. */
  lemma ProcessStream(s: Sys, R: nat, id: EventId, ok: bool, drafts: seq<Event>, events: seq<Trust.TrustEvent>,
                      text: map<EventId, Trust.TrustEvent>)
    requires R >= 1 && Books(s, R) && id in s.box.rows
    requires NewIds(s.box, Descend(s.box.rows[id].event, drafts))
    requires Carry(Descend(s.box.rows[id].event, drafts), events, text)
    requires HandlerCount(s.box.rows[id].event.eventType) == 0 ==> ok && drafts == []
    ensures var t := Process(s, R, id, Calls(s.box.rows[id].event.eventType, ok, drafts));
            Stream(t.box.rows, t.box.order, text) == Stream(s.box.rows, s.box.order, text) + events
  {
    OneRun(s.box.rows[id].event.eventType, ok, drafts);
    var es := Descend(s.box.rows[id].event, drafts);
    hide Books, NewIds, SaveAll, Stream, Carry, Descend, Dispatched, Calls;
    SavedInOrder(s, R, es, events, text);
    SaveAllKeepsBooks(s, R, es);
    var t := SaveAll(s, es);
    MarkingKeepsStream(t.box, Settle(t, R, id, ok).box, text);
  }

  lemma AttemptStream(l: Line, R: nat, i: Input)
    requires R >= 1 && Books(l.sys, R) && Enabled(l, R, i) && i.Attempt?
    ensures StreamOf(Step(l, R, i)) == StreamOf(l) + Kept(l, i)
  {
    var events, e := Kept(l, i), l.sys.box.rows[i.id].event;
    BooksAreValid(l.sys, R);
    if HandlerCount(e.eventType) == 0 {
      NoHandlerNoSaves(l, R, i);
    }
    hide Books, Performed, Kept, Keeps, Stream, Process, Carry, Texts, Unused, Calls;
    DraftsCarry(l, i.ids, events, e.occurredAt, e);
    OldStreamStays(l, i.ids, events);
    ProcessStream(l.sys, R, i.id, i.ok, Drafts(i.ids, events, e.occurredAt), events, Texts(l.text, i.ids, events));
  }

  lemma OneRun(t: EventType, ok: bool, drafts: seq<Event>)
    requires HandlerCount(t) == 0 ==> ok && drafts == []
    ensures Dispatched(Calls(t, ok, drafts)) == (ok, drafts)
  {
    assert [HandlerRun(ok, drafts)][1..] == [];
    assert drafts + [] == drafts;
  }

  lemma SameIds(e: Event, drafts: seq<Event>)
    ensures |Descend(e, drafts)| == |drafts|
    ensures forall i :: 0 <= i < |drafts| ==>
              Descend(e, drafts)[i].id == drafts[i].id && Descend(e, drafts)[i].eventType == drafts[i].eventType
  {
  }

  lemma ChangesAreFew(l: Line, id: EventId)
    requires id in l.sys.box.rows
    ensures |Asked(l, id)| <= if SavesEvents(l.sys.box.rows[id].event.eventType) then 2 else 0
    ensures HandlerCount(l.sys.box.rows[id].event.eventType) == 0 ==> Asked(l, id) == []
  {
    if id in l.market {
      T.DeliveryIsBounded(T.Store(map[], []), l.market[id], 0);
    }
    hide T.Changes;
  }

  lemma AttemptBooks(l: Line, R: nat, i: Input)
    requires R >= 1 && Books(l.sys, R) && Enabled(l, R, i) && i.Attempt?
    ensures Books(Step(l, R, i).sys, R)
  {
    var e := l.sys.box.rows[i.id].event;
    var drafts := Drafts(i.ids, Kept(l, i), e.occurredAt);
    ChangesAreFew(l, i.id);
    T.UpdateAllAppends(T.Store(l.profiles, []), Asked(l, i.id)[..i.done], e.occurredAt);
    DraftsAreNew(l, i.ids, Kept(l, i), e.occurredAt);
    if HandlerCount(e.eventType) == 0 {
      NoHandlerNoSaves(l, R, i);
    }
    OneRun(e.eventType, i.ok, drafts);
    hide Books, NewIds, Asked, Process;
    ProcessKeepsBooks(l.sys, R, i.id, Calls(e.eventType, i.ok, drafts));
  }

  lemma VerifyAdvances(l: Line, R: nat, i: Input)
    requires R >= 1 && Books(l.sys, R) && Enabled(l, R, i) && i.Verify?
    ensures Advances(l, R, i)
  {
    var events := Kept(l, i);
    var text := Texts(l.text, i.ids, events);
    var drafts := Drafts(i.ids, events, i.at);
    BooksAreValid(l.sys, R);
    DraftsAreNew(l, i.ids, events, i.at);
    DraftsCarry(l, i.ids, events, i.at, Event(0, OtherEvent, 0, 0, None, None));
    OldStreamStays(l, i.ids, events);
    hide Books, Stream, SaveAll, Performed, NewIds, Carry, Drafts, Texts, Kept, Keeps, Unused;
    SavedInOrder(l.sys, R, drafts, events, text);
    SaveAllKeepsBooks(l.sys, R, drafts);
  }

  lemma NothingMade(l: Line, i: Input)
    requires i.Produce? || i.Revive?
    ensures Kept(l, i) == [] && Performed(l, i) == T.Store(l.profiles, []) && !Cut(l, i)
  {
  }

  lemma ProduceAdvances(l: Line, R: nat, i: Input)
    requires R >= 1 && Books(l.sys, R) && Enabled(l, R, i) && i.Produce?
    ensures Advances(l, R, i)
  {
    NothingMade(l, i);
    BooksAreValid(l.sys, R);
    SaveKeepsBooks(l.sys, R, i.event);
    var t := Save(l.sys, i.event);
    assert t.box.order[..|l.sys.box.order|] == l.sys.box.order;
    StreamFrame(l.sys.box.rows, t.box.rows, l.sys.box.order, l.text, l.text);
    assert StreamOf(l) + [] == StreamOf(l);
    hide Books, Kept, Performed;
  }

  lemma {:induction false} RevivedKeepsEvents(s: Sys, ids: seq<EventId>)
    ensures var t := RequeueEach(s, ids);
            && t.box.order == s.box.order && t.box.rows.Keys == s.box.rows.Keys
            && forall id :: id in s.box.rows ==> t.box.rows[id].event == s.box.rows[id].event
  {
    if ids != [] {
      RevivedKeepsEvents(s, ids[..|ids| - 1]);
    }
  }

  lemma ReviveAdvances(l: Line, R: nat, i: Input)
    requires R >= 1 && Books(l.sys, R) && i.Revive?
    ensures Advances(l, R, i)
  {
    NothingMade(l, i);
    hide Books, Stream, RequeueEach, Kept, Performed;
    RequeueKeepsBooks(l.sys, R, i.revived);
    RevivedKeepsEvents(l.sys, i.revived);
    MarkingKeepsStream(l.sys.box, Requeue(l.sys, i.revived).box, l.text);
    assert StreamOf(l) + [] == StreamOf(l);
  }

  lemma AttemptAdvances(l: Line, R: nat, i: Input)
    requires R >= 1 && Books(l.sys, R) && Enabled(l, R, i) && i.Attempt?
    ensures Advances(l, R, i)
  {
    AttemptStream(l, R, i);
    AttemptBooks(l, R, i);
    hide Books, Stream, Process, Kept, Performed, Texts;
  }

  lemma StepAdvances(l: Line, R: nat, i: Input)
    requires R >= 1 && Books(l.sys, R) && Enabled(l, R, i)
    ensures Advances(l, R, i)
  {
    hide *;
    match i
    case Produce(_, _) => ProduceAdvances(l, R, i);
    case Attempt(_, _, _, _, _) => AttemptAdvances(l, R, i);
    case Revive(_) => ReviveAdvances(l, R, i);
    case Verify(_, _, _, _, _) => VerifyAdvances(l, R, i);
  }

  lemma {:induction false} AlwaysBooks(R: nat, inputs: seq<Input>)
    requires R >= 1 && Run(R, inputs).Some?
    ensures Books(Run(R, inputs).value.sys, R)
  {
    if inputs == [] {
      InitialBooks(R);
    } else {
      hide Books, Step, Enabled, Kept, Performed;
      AlwaysBooks(R, inputs[..|inputs| - 1]);
      StepAdvances(Run(R, inputs[..|inputs| - 1]).value, R, inputs[|inputs| - 1]);
    }
  }

  // ---- The fold ----

  /** Every profile is the fold of its trust entries. */
  ghost predicate Folds(l: Line)
  {
    forall user :: T.Faithful(StoreOf(l), user)
  }

  /** Where all events are saved the fold goes on; where one is missing it stops, at the last user changed. */
  lemma StepFoldsIff(l: Line, R: nat, i: Input)
    requires R >= 1 && Books(l.sys, R) && Folds(l) && Enabled(l, R, i)
    ensures Folds(Step(l, R, i)) <==> !Cut(l, i)
  {
    hide *;
    EnabledSteps(l, R, i);
    StepAdvances(l, R, i);
    StepReaches(l, R, i);
    if Cut(l, i) {
      CutIsLast(l, R, i);
      CutUnfolds(l, i);
      Unfolded(Step(l, R, i), Made(l, i).0[|Made(l, i).0| - 1].user);
    } else {
      AllSaved(l, i);
      Folded(Step(l, R, i));
    }
  }

  lemma EnabledSteps(l: Line, R: nat, i: Input)
    requires Enabled(l, R, i)
    ensures i.Attempt? ==> i.id in l.sys.box.rows
    ensures i.Attempt? || i.Verify? ==> |i.ids| == |Kept(l, i)|
  {
  }

  lemma StepReaches(l: Line, R: nat, i: Input)
    requires Enabled(l, R, i) && Advances(l, R, i)
    ensures StoreOf(Step(l, R, i)) == Reached(l, i)
  {
    hide Enabled, Step, Kept, Performed, Stream, Books;
  }

  lemma Folded(l: Line)
    requires forall user :: T.Faithful(StoreOf(l), user)
    ensures Folds(l)
  {
    hide T.Faithful;
  }

  lemma Unfolded(l: Line, user: Trust.UserId)
    requires !T.Faithful(StoreOf(l), user)
    ensures !Folds(l)
  {
    hide T.Faithful;
  }

  /** The profiles after the changes, with the stream as far as its events are saved. */
  function Reached(l: Line, i: Input): T.Store
  {
    T.Store(Performed(l, i).profiles, StreamOf(l) + Kept(l, i))
  }

  lemma AllSaved(l: Line, i: Input)
    requires Folds(l) && !Cut(l, i)
    ensures forall user :: T.Faithful(Reached(l, i), user)
  {
    hide T.Faithful, T.UpdateAll, Stream;
    var (changes, at) := Made(l, i);
    UpdateOnTop(T.Store(l.profiles, []), changes, at, StreamOf(l));
    T.UpdateAllKeepsFaithful(StoreOf(l), changes, at);
    assert Performed(l, i).outbox == Kept(l, i);
  }

  lemma CutIsLast(l: Line, R: nat, i: Input)
    requires Enabled(l, R, i) && Cut(l, i)
    ensures Made(l, i).0 != [] && Keeps(l, i, i.kept)
  {
  }

  lemma CutUnfolds(l: Line, i: Input)
    requires Folds(l) && Cut(l, i) && Made(l, i).0 != [] && Keeps(l, i, i.kept)
    ensures !T.Faithful(Reached(l, i), Made(l, i).0[|Made(l, i).0| - 1].user)
  {
    hide T.Faithful, T.UpdateAll, Stream, Made;
    var (changes, at) := Made(l, i);
    var s, earlier, stream := StoreOf(l), changes[..|changes| - 1], StreamOf(l);
    UpdateOnTop(T.Store(l.profiles, []), changes, at, stream);
    UpdateOnTop(T.Store(l.profiles, []), earlier, at, stream);
    T.UpdateAllKeepsFaithful(s, earlier, at);
    T.CutBreaks(s, changes, at, |stream| + i.kept);
    assert (stream + Performed(l, i).outbox)[..|stream| + i.kept] == stream + Kept(l, i);
  }

  lemma StartFolds()
    ensures Folds(START)
  {
    assert StoreOf(START) == T.RunStore([]);
    T.RunFaithful([]);
  }

  /** Whenever a profile is stored, all of its events are. */
  ghost predicate Uncut(R: nat, inputs: seq<Input>)
  {
    inputs == [] ||
    (var prefix := inputs[..|inputs| - 1];
     Uncut(R, prefix) && (Run(R, prefix).Some? ==> !Cut(Run(R, prefix).value, inputs[|inputs| - 1])))
  }

  lemma {:induction false} UncutFolds(R: nat, inputs: seq<Input>)
    requires R >= 1 && Run(R, inputs).Some? && Uncut(R, inputs)
    ensures Folds(Run(R, inputs).value)
  {
    if inputs == [] {
      StartFolds();
    } else {
      var prefix := inputs[..|inputs| - 1];
      UncutFolds(R, prefix);
      AlwaysBooks(R, prefix);
      hide Folds, Step, Enabled, Cut, Books;
      StepFoldsIff(Run(R, prefix).value, R, inputs[|inputs| - 1]);
    }
  }

  ghost predicate FoldsAfter(R: nat, inputs: seq<Input>)
  {
    Run(R, inputs).Some? && Folds(Run(R, inputs).value)
  }

  /** The fold holds throughout a run exactly if no save raised after its profile had been stored. */
  lemma {:induction false} FoldsThroughoutIff(R: nat, inputs: seq<Input>)
    requires R >= 1 && Run(R, inputs).Some?
    ensures Uncut(R, inputs) <==> forall n :: 0 <= n <= |inputs| ==> FoldsAfter(R, inputs[..n])
  {
    if inputs == [] {
      StartFolds();
    } else {
      var prefix := inputs[..|inputs| - 1];
      FoldsThroughoutIff(R, prefix);
      forall n | 0 <= n < |inputs| ensures inputs[..n] == prefix[..n] {
      }
      assert inputs[..|inputs|] == inputs && prefix[..|prefix|] == prefix;
      AlwaysBooks(R, prefix);
      hide Folds, Step, Enabled, Cut, Books;
      if FoldsAfter(R, prefix) {
        StepFoldsIff(Run(R, prefix).value, R, inputs[|inputs| - 1]);
      }
    }
  }

  /** Whatever the pipeline retries, redelivers, buries or revives, and however far handlers get before they
      raise, as long as what a stored profile emits is saved: for every user, folding the trust entries of the
      outbox in save order gives exactly the stored counters, level and score, with an unbroken chain of score
      changes, while the outbox's own counters balance. */
  lemma {:induction false} ProfilesFollowTheOutbox(R: nat, inputs: seq<Input>, user: Trust.UserId)
    requires R >= 1 && Run(R, inputs).Some? && Uncut(R, inputs)
    ensures var l := Run(R, inputs).value;
            var stream := T.ByAggregate(StreamOf(l), user);
            && T.Fold(stream) == (if user in l.profiles then T.TallyOf(l.profiles[user]) else T.FRESH_TALLY)
            && T.ScoreChain(stream, if user in l.profiles then l.profiles[user].score else 100)
            && Books(l.sys, R)
  {
    UncutFolds(R, inputs);
    AlwaysBooks(R, inputs);
    hide Run, Books, Uncut;
    assert T.Faithful(StoreOf(Run(R, inputs).value), user);
  }
}
