/** `query` over the in-memory outbox and over the SQLite table, whose times are text. */
module OutboxQuery {
  import opened Common
  import opened Lineage
  import opened Sorting
  import opened Timestamps
  import opened TimestampBounds
  import opened Serialization

  datatype OutboxState = Pending | Published | Failed | DeadLetter

  /** A saved event with its two flags. */
  datatype Entry = Entry(event: Event, published: bool, dead: bool)

  /** How each repository keeps it. */
  datatype MemoryRow = MemoryRow(data: Data, published: bool, dead: bool)
  datatype SqlRow = SqlRow(
    id: string, eventType: string, aggregateId: string, correlation: Option<string>, occurredAt: string,
    published: bool, dead: bool, payload: Data)

  datatype Query = Query(
    state: Option<OutboxState>,
    eventType: Option<string>,
    aggregateId: Option<string>,
    correlation: Option<string>,
    earliest: Option<(Moment, int)>,
    latest: Option<(Moment, int)>)

  ghost predicate ValidBound(b: Option<(Moment, int)>)
  {
    b.Some? ==> Valid(b.value.0) && -1440 < b.value.1 < 1440
  }

  ghost predicate ValidQuery(q: Query)
  {
    ValidBound(q.earliest) && ValidBound(q.latest)
  }

  predicate InUtc(q: Query)
  {
    && (q.earliest.Some? ==> q.earliest.value.1 == 0)
    && (q.latest.Some? ==> q.latest.value.1 == 0)
  }

  ghost predicate Stored(e: Entry, registry: Registry)
  {
    Built(e.event) && ClassOf(registry, e.event.eventType) == e.event.cls
  }

  function ToMemory(e: Entry): MemoryRow
    requires Valid(e.event.occurredAt)
  {
    MemoryRow(Serialize(e.event), e.published, e.dead)
  }

  function ToSql(e: Entry): SqlRow
    requires Valid(e.event.occurredAt)
  {
    SqlRow(e.event.id, e.event.eventType, e.event.aggregateId, e.event.correlation, Text(e.event.occurredAt, 0),
           e.published, e.dead, Serialize(e.event))
  }

  // ---- The in-memory query ----

  function StateOf(e: Entry): OutboxState
  {
    if e.dead then DeadLetter else if e.published then Published else Pending
  }

  /** The condition of the comprehension, on a hydrated entry. */
  predicate MemorySelects(q: Query, e: Entry)
    requires Valid(e.event.occurredAt)
    requires q.earliest.Some? ==> Valid(q.earliest.value.0)
    requires q.latest.Some? ==> Valid(q.latest.value.0)
  {
    && (q.state.None? || StateOf(e) == q.state.value || (q.state.value == Failed && e.dead))
    && (q.eventType.None? || e.event.eventType == q.eventType.value)
    && (q.aggregateId.None? || e.event.aggregateId == q.aggregateId.value)
    && (q.correlation.None? || e.event.correlation == q.correlation)
    && (q.earliest.None? || Instant(e.event.occurredAt) >= AwareInstant(q.earliest.value.0, q.earliest.value.1))
    && (q.latest.None? || Instant(e.event.occurredAt) <= AwareInstant(q.latest.value.0, q.latest.value.1))
  }

  /** An entry as it comes back from its row in a context: the context fills in open lineage. */
  function Seen(e: Entry, ctx: Context<string, string>): Entry
  {
    e.(event := e.event.(
         correlation := Inherited(e.event.correlation, ctx.correlation),
         causation := Inherited(e.event.causation, ctx.causation)))
  }

  // ---- The SQLite query ----

  datatype Clause =
    | IsPending
    | IsPublished
    | IsDead
    | EventTypeIs(value: string)
    | AggregateIs(value: string)
    | CorrelationIs(value: string)
    | NotBefore(text: string)
    | NotAfter(text: string)

  predicate Holds(c: Clause, r: SqlRow)
  {
    match c
    case IsPending => !r.published && !r.dead
    case IsPublished => r.published
    case IsDead => r.dead
    case EventTypeIs(value) => r.eventType == value
    case AggregateIs(value) => r.aggregateId == value
    case CorrelationIs(value) => r.correlation == Some(value)
    case NotBefore(text) => Compare(r.occurredAt, text) >= 0
    case NotAfter(text) => Compare(r.occurredAt, text) <= 0
  }

  predicate AllHold(clauses: seq<Clause>, r: SqlRow)
  {
    forall i :: 0 <= i < |clauses| ==> Holds(clauses[i], r)
  }

  predicate SqlStateHolds(state: OutboxState, r: SqlRow)
  {
    match state
    case Pending => !r.published && !r.dead
    case Published => r.published
    case Failed => r.dead
    case DeadLetter => r.dead
  }

  /** What the clauses ask of a row. */
  ghost predicate SqlSelects(q: Query, r: SqlRow)
    requires ValidQuery(q)
  {
    && (q.state.Some? ==> SqlStateHolds(q.state.value, r))
    && (q.eventType.Some? ==> r.eventType == q.eventType.value)
    && (q.aggregateId.Some? ==> r.aggregateId == q.aggregateId.value)
    && (q.correlation.Some? ==> r.correlation == q.correlation)
    && (q.earliest.Some? ==> Compare(r.occurredAt, Text(q.earliest.value.0, q.earliest.value.1)) >= 0)
    && (q.latest.Some? ==> Compare(r.occurredAt, Text(q.latest.value.0, q.latest.value.1)) <= 0)
  }

  lemma OneMore(clauses: seq<Clause>, c: Clause)
    ensures forall r :: AllHold(clauses + [c], r) <==> AllHold(clauses, r) && Holds(c, r)
  {
    forall r ensures AllHold(clauses + [c], r) <==> AllHold(clauses, r) && Holds(c, r) {
      assert (clauses + [c])[|clauses|] == c;
      assert forall i :: 0 <= i < |clauses| ==> (clauses + [c])[i] == clauses[i];
    }
  }

  lemma NoClauses()
    ensures forall r :: AllHold([], r)
  {
  }

  method WhereClauses(q: Query) returns (clauses: seq<Clause>)
    requires ValidQuery(q)
    ensures forall r :: AllHold(clauses, r) <==> SqlSelects(q, r)
  {
    hide AllHold, Compare, Text;
    clauses := [];
    NoClauses();
    if q.state.Some? {
      var c :=
        if q.state.value == Pending then IsPending
        else if q.state.value == Published then IsPublished
        else IsDead;
      OneMore(clauses, c);
      clauses := clauses + [c];
    }
    if q.eventType.Some? {
      OneMore(clauses, EventTypeIs(q.eventType.value));
      clauses := clauses + [EventTypeIs(q.eventType.value)];
    }
    if q.aggregateId.Some? {
      OneMore(clauses, AggregateIs(q.aggregateId.value));
      clauses := clauses + [AggregateIs(q.aggregateId.value)];
    }
    if q.correlation.Some? {
      OneMore(clauses, CorrelationIs(q.correlation.value));
      clauses := clauses + [CorrelationIs(q.correlation.value)];
    }
    if q.earliest.Some? {
      var c := NotBefore(Text(q.earliest.value.0, q.earliest.value.1));
      OneMore(clauses, c);
      clauses := clauses + [c];
    }
    if q.latest.Some? {
      var c := NotAfter(Text(q.latest.value.0, q.latest.value.1));
      OneMore(clauses, c);
      clauses := clauses + [c];
    }
  }

  /** `ORDER BY occurred_at ASC, id ASC`. */
  predicate TextOrder(a: SqlRow, b: SqlRow)
  {
    var c := Compare(a.occurredAt, b.occurredAt);
    c < 0 || (c == 0 && Compare(a.id, b.id) <= 0)
  }

  // ---- Agreement ----

  /** The two state filters differ exactly on an entry that is both published and dead. */
  lemma StatesAgreeIff(state: OutboxState, e: Entry)
    requires Valid(e.event.occurredAt)
    ensures (StateOf(e) == state || (state == Failed && e.dead) <==> SqlStateHolds(state, ToSql(e))) <==>
            !(state == Published && e.published && e.dead)
  {
    hide Text, Serialize;
  }

  /** Which part of the query the two comparisons of times get right. */
  predicate BoundsAgree(q: Query, e: Entry)
    requires Valid(e.event.occurredAt)
    requires q.earliest.Some? ==> Valid(q.earliest.value.0) && -1440 < q.earliest.value.1 < 1440
    requires q.latest.Some? ==> Valid(q.latest.value.0) && -1440 < q.latest.value.1 < 1440
  {
    && (q.earliest.Some? ==> ComparesAlike(e.event.occurredAt, q.earliest.value.0, q.earliest.value.1))
    && (q.latest.Some? ==> ComparesAlike(e.event.occurredAt, q.latest.value.0, q.latest.value.1))
  }

  lemma UtcBoundsAgree(q: Query, e: Entry)
    requires Valid(e.event.occurredAt) && ValidQuery(q) && InUtc(q)
    ensures BoundsAgree(q, e)
  {
    hide Valid, Compare, Text, Instant, ComparesAlike;
    if q.earliest.Some? {
      BoundsCompareAlikeIff(q.earliest.value.0, 0);
    }
    if q.latest.Some? {
      BoundsCompareAlikeIff(q.latest.value.0, 0);
    }
  }

  /** Without the correlation filter the two queries select the same, whatever the context. */
  lemma SameWithoutCorrelation(q: Query, e: Entry, ctx: Context<string, string>)
    requires Valid(e.event.occurredAt) && ValidQuery(q) && InUtc(q) && !(e.published && e.dead)
    ensures var open := q.(correlation := None);
            && (MemorySelects(open, Seen(e, ctx)) <==> SqlSelects(open, ToSql(e)))
            && (MemorySelects(open, Seen(e, ctx)) <==> MemorySelects(open, e))
  {
    UtcBoundsAgree(q, e);
    if q.state.Some? {
      StatesAgreeIff(q.state.value, e);
    }
    hide Valid, Compare, Text, Instant, Serialize;
  }

  /** For UTC bounds and flags that are never both set, the two queries differ exactly on an entry without
      correlation that is asked for by the correlation of the reader's own context, and that matches
      otherwise: hydration lends it the correlation, and only the in-memory query looks at the hydrated
      entry. */
  lemma {:induction false} QueriesDifferIff(q: Query, e: Entry, ctx: Context<string, string>)
    requires Valid(e.event.occurredAt) && ValidQuery(q) && InUtc(q) && !(e.published && e.dead)
    ensures (MemorySelects(q, Seen(e, ctx)) != SqlSelects(q, ToSql(e))) <==>
            && e.event.correlation.None? && q.correlation.Some? && ctx.correlation == q.correlation
            && MemorySelects(q.(correlation := None), e)
  {
    SameWithoutCorrelation(q, e, ctx);
    hide Valid, Compare, Text, Instant, Serialize, SqlStateHolds;
  }

  /** So they select the same entries as long as the entry is read without gaining lineage. */
  lemma {:induction false} SelectsAlike(q: Query, e: Entry, ctx: Context<string, string>)
    requires Valid(e.event.occurredAt) && ValidQuery(q) && InUtc(q) && !(e.published && e.dead)
    requires q.correlation.None? || e.event.correlation.Some? || ctx.correlation.None?
    ensures MemorySelects(q, Seen(e, ctx)) <==> SqlSelects(q, ToSql(e))
  {
    QueriesDifferIff(q, e, ctx);
    hide MemorySelects, SqlSelects, Valid;
  }

  /** Reading while another event is being handled can add a match: the reader's own correlation. */
  lemma ContextCanAddAMatch(e: Entry, c: string)
    requires Valid(e.event.occurredAt) && e.event.correlation.None?
    ensures var q := Query(None, None, None, Some(c), None, None);
            && MemorySelects(q, Seen(e, Context(Some(c), None)))
            && !SqlSelects(q, ToSql(e))
  {
    hide Valid, Text, Serialize;
  }

  ghost predicate AllStored(entries: seq<Entry>, registry: Registry)
  {
    && (forall i, j :: 0 <= i < j < |entries| ==> entries[i].event.id != entries[j].event.id)
    && (forall i :: 0 <= i < |entries| ==> Stored(entries[i], registry) && !(entries[i].published && entries[i].dead))
  }

  /** What an outbox of these entries should answer. */
  function Answer(q: Query, entries: seq<Entry>): seq<Entry>
    requires forall i :: 0 <= i < |entries| ==> Valid(entries[i].event.occurredAt)
    requires q.earliest.Some? ==> Valid(q.earliest.value.0)
    requires q.latest.Some? ==> Valid(q.latest.value.0)
  {
    if entries == [] then []
    else
      Answer(q, entries[..|entries| - 1]) +
      (if MemorySelects(q, entries[|entries| - 1]) then [entries[|entries| - 1]] else [])
  }

  /** What an entry needs to be answered; both bounds are included, and FAILED asks for dead letters. */
  lemma {:induction false} AnswerIff(q: Query, entries: seq<Entry>, e: Entry)
    requires forall i :: 0 <= i < |entries| ==> Valid(entries[i].event.occurredAt)
    requires ValidQuery(q)
    ensures e in Answer(q, entries) <==>
            && e in entries && Valid(e.event.occurredAt)
            && (q.state == None
                || (q.state.value == Pending && !e.published && !e.dead)
                || (q.state.value == Published && e.published && !e.dead)
                || (q.state.value in {Failed, DeadLetter} && e.dead))
            && (q.eventType == None || q.eventType.value == e.event.eventType)
            && (q.aggregateId == None || q.aggregateId.value == e.event.aggregateId)
            && (q.correlation == None || q.correlation == e.event.correlation)
            && !(q.earliest.Some? &&
                 Instant(e.event.occurredAt) < AwareInstant(q.earliest.value.0, q.earliest.value.1))
            && !(q.latest.Some? && Instant(e.event.occurredAt) > AwareInstant(q.latest.value.0, q.latest.value.1))
  {
    hide Valid, Instant, AwareInstant;
    if entries != [] {
      var prefix, last := entries[..|entries| - 1], entries[|entries| - 1];
      assert entries == prefix + [last];
      AnswerIff(q, prefix, e);
    }
  }

  /** Answers come in save order. */
  lemma {:induction false} AnswersInSaveOrder(q: Query, entries: seq<Entry>, a: Entry, b: Entry)
    requires forall i :: 0 <= i < |entries| ==> Valid(entries[i].event.occurredAt)
    requires ValidQuery(q) && a in Answer(q, entries) && b in Answer(q, entries)
    ensures Precedes(Answer(q, entries), a, b) <==> Precedes(entries, a, b)
  {
    AnswerIsFiltered(q, entries);
    var selects := (e: Entry) => Valid(e.event.occurredAt) && MemorySelects(q, e);
    FilterMembers(entries, selects);
    hide Valid, MemorySelects, Precedes;
    FilterKeepsOrder(entries, selects, a, b);
  }

  lemma {:induction false} AnswerIsFiltered(q: Query, entries: seq<Entry>)
    requires forall i :: 0 <= i < |entries| ==> Valid(entries[i].event.occurredAt)
    requires ValidQuery(q)
    ensures Answer(q, entries) ==
            Filter(entries, (e: Entry) => Valid(e.event.occurredAt) && MemorySelects(q, e))
  {
    hide Valid, MemorySelects;
    if entries != [] {
      AnswerIsFiltered(q, entries[..|entries| - 1]);
    }
  }

  lemma HydratesTo(e: Entry, registry: Registry, ctx: Context<string, string>)
    requires Stored(e, registry)
    ensures Deserialize(registry, ctx, ToMemory(e).data) == Ok(Seen(e, ctx).event)
    ensures Deserialize(registry, ctx, ToSql(e).payload) == Ok(Seen(e, ctx).event)
  {
    hide Deserialize, Serialize, Text;
    ReadBack(registry, ctx, e.event);
  }

  /** Entries as they come back in a context. */
  function SeenAll(entries: seq<Entry>, ctx: Context<string, string>): seq<Entry>
  {
    seq(|entries|, i requires 0 <= i < |entries| => Seen(entries[i], ctx))
  }

  /** The in-memory repository: hydrate every row, filter, and cut at the limit. */
  method QueryMemory(rows: seq<MemoryRow>, registry: Registry, ctx: Context<string, string>, q: Query,
                     limit: Option<nat>, ghost entries: seq<Entry>)
    returns (result: seq<Entry>)
    requires ValidQuery(q) && AllStored(entries, registry) && |rows| == |entries|
    requires forall i :: 0 <= i < |rows| ==> rows[i] == ToMemory(entries[i])
    ensures forall i :: 0 <= i < |entries| ==> Valid(SeenAll(entries, ctx)[i].event.occurredAt)
    ensures result == Limited(Answer(q, SeenAll(entries, ctx)), limit)
  {
    hide Deserialize, Serialize, Valid, Instant, Built, MemorySelects;
    result := [];
    Times(entries, registry);
    ghost var seen := SeenAll(entries, ctx);
    for i := 0 to |rows|
      invariant result == Answer(q, seen[..i])
    {
      HydratesTo(entries[i], registry, ctx);
      var event := Deserialize(registry, ctx, rows[i].data);
      var entry := Entry(event.value, rows[i].published, rows[i].dead);
      assert entry == seen[i] && seen[..i + 1][..i] == seen[..i];
      if MemorySelects(q, entry) {
        result := result + [entry];
      }
    }
    assert seen[..|rows|] == seen;
    result := Limited(result, limit);
  }

  lemma Times(entries: seq<Entry>, registry: Registry)
    requires AllStored(entries, registry)
    ensures forall i :: 0 <= i < |entries| ==> Valid(entries[i].event.occurredAt)
  {
  }

  // ---- The ordered answer ----

  lemma {:induction false} CompareIsOpposite(a: string, b: string)
    ensures Compare(a, b) == -Compare(b, a)
  {
    if a != "" && b != "" {
      CompareIsOpposite(a[1..], b[1..]);
    }
  }

  lemma {:induction false} CompareIsTransitive(a: string, b: string, c: string)
    requires Compare(a, b) <= 0 && Compare(b, c) <= 0
    ensures Compare(a, c) <= 0
    ensures Compare(a, c) == 0 ==> Compare(a, b) == 0 && Compare(b, c) == 0
  {
    if a != "" && b != "" && c != "" && a[0] == b[0] == c[0] {
      CompareIsTransitive(a[1..], b[1..], c[1..]);
    }
  }

  lemma TextOrderIsTotal()
    ensures TotalPreorder(TextOrder)
  {
    hide Compare;
    forall a, b ensures TextOrder(a, b) || TextOrder(b, a) {
      CompareIsOpposite(a.occurredAt, b.occurredAt);
      CompareIsOpposite(a.id, b.id);
    }
    forall a, b, c | TextOrder(a, b) && TextOrder(b, c) ensures TextOrder(a, c) {
      CompareIsTransitive(a.occurredAt, b.occurredAt, c.occurredAt);
      if Compare(a.occurredAt, c.occurredAt) == 0 {
        CompareIsTransitive(a.id, b.id, c.id);
      }
    }
  }

  /** `r` is the row of one of the entries. */
  ghost predicate RowOf(entries: seq<Entry>, e: Entry, r: SqlRow)
  {
    e in entries && Valid(e.event.occurredAt) && r == ToSql(e)
  }

  /** The rows that the clauses select, in the order of the statement. */
  method SelectRows(rows: seq<SqlRow>, q: Query) returns (selected: seq<SqlRow>)
    requires ValidQuery(q) && Distinct(rows)
    ensures SortedBy(selected, TextOrder) && Distinct(selected)
    ensures forall r :: r in selected <==> r in rows && SqlSelects(q, r)
  {
    hide AllHold, SqlSelects, TextOrder;
    var clauses := WhereClauses(q);
    TextOrderIsTotal();
    var found := Filter(rows, (r: SqlRow) => AllHold(clauses, r));
    FilterMembers(rows, (r: SqlRow) => AllHold(clauses, r));
    FilterKeepsDistinct(rows, (r: SqlRow) => AllHold(clauses, r));
    SortSorts(found, TextOrder);
    SortKeepsDistinct(found, TextOrder);
    selected := Sort(found, TextOrder);
  }

  lemma SameRowSameEntry(entries: seq<Entry>, registry: Registry, a: Entry, b: Entry)
    requires AllStored(entries, registry) && a in entries && b in entries && a.event.id == b.event.id
    ensures a == b
  {
  }

  lemma RowsAreDistinct(entries: seq<Entry>, registry: Registry, rows: seq<SqlRow>)
    requires AllStored(entries, registry) && |rows| == |entries|
    requires forall i :: 0 <= i < |rows| ==> rows[i].id == entries[i].event.id
    ensures Distinct(rows) && Distinct(entries)
  {
  }

  /** The entries whose rows satisfy the query. */
  ghost predicate RowSelected(q: Query, e: Entry)
    requires ValidQuery(q)
  {
    Valid(e.event.occurredAt) && SqlSelects(q, ToSql(e))
  }

  ghost function SqlAnswer(q: Query, entries: seq<Entry>): seq<Entry>
    requires ValidQuery(q)
  {
    Filter(entries, e => RowSelected(q, e))
  }

  /** For UTC bounds they are those that an in-memory outbox should answer. */
  lemma {:induction false} UtcAnswersAlike(q: Query, entries: seq<Entry>, registry: Registry)
    requires ValidQuery(q) && InUtc(q) && AllStored(entries, registry)
    ensures forall i :: 0 <= i < |entries| ==> Valid(entries[i].event.occurredAt)
    ensures SqlAnswer(q, entries) == Answer(q, entries)
  {
    hide Valid, SqlSelects, MemorySelects, Built;
    Times(entries, registry);
    if entries != [] {
      var prefix, last := entries[..|entries| - 1], entries[|entries| - 1];
      UtcAnswersAlike(q, prefix, registry);
      assert Seen(last, EMPTY_CONTEXT) == last;
      SelectsAlike(q, last, EMPTY_CONTEXT);
    }
  }

  /** The SQLite repository picks exactly the entries whose rows satisfy the query, oldest first and by id among
      equal times, and cuts them at the limit; what it returns is hydrated in the reader's context. For UTC
      bounds these are the entries of the in-memory answer. */
  method QuerySqlite(rows: seq<SqlRow>, registry: Registry, ctx: Context<string, string>, q: Query,
                     limit: Option<nat>, ghost entries: seq<Entry>)
    returns (result: seq<Entry>)
    requires ValidQuery(q) && AllStored(entries, registry) && |rows| == |entries|
    requires forall i :: 0 <= i < |rows| ==> Valid(entries[i].event.occurredAt) && rows[i] == ToSql(entries[i])
    ensures exists picked ::
              && InOrder(picked, SqlAnswer(q, entries))
              && result == SeenAll(Limited(picked, limit), ctx)
    ensures InUtc(q) ==> SqlAnswer(q, entries) == Answer(q, entries)
  {
    hide Deserialize, Serialize, Valid, Instant, Built, Text, SqlSelects, TextOrder, SortedBy;
    RowsAreDistinct(entries, registry, rows);
    var selected := SelectRows(rows, q);
    ghost var picked := PickedBy(rows, entries, selected);
    OrderedAnswer(rows, registry, q, entries, selected, picked);
    result := HydrateRows(Limited(selected, limit), registry, ctx, Limited(picked, limit), entries);
    assert InOrder(picked, SqlAnswer(q, entries));
    if InUtc(q) {
      UtcAnswersAlike(q, entries, registry);
    }
  }

  /** The same entries, each as often, in the order of the statement. */
  ghost predicate InOrder(picked: seq<Entry>, entries: seq<Entry>)
  {
    multiset(picked) == multiset(entries) && OldestFirst(picked)
  }

  /** Entities for the rows of a result. */
  method HydrateRows(rows: seq<SqlRow>, registry: Registry, ctx: Context<string, string>,
                     ghost picked: seq<Entry>, ghost entries: seq<Entry>)
    returns (result: seq<Entry>)
    requires AllStored(entries, registry) && |rows| == |picked|
    requires forall k :: 0 <= k < |rows| ==> RowOf(entries, picked[k], rows[k])
    ensures result == SeenAll(picked, ctx)
  {
    hide Deserialize, Serialize, Valid, Built, Text, AllStored;
    result := [];
    for k := 0 to |rows|
      invariant result == SeenAll(picked[..k], ctx)
    {
      StoredPick(entries, registry, picked[k]);
      HydratesTo(picked[k], registry, ctx);
      var event := Deserialize(registry, ctx, rows[k].payload);
      result := result + [Entry(event.value, rows[k].published, rows[k].dead)];
    }
    assert picked[..|rows|] == picked;
  }

  lemma StoredPick(entries: seq<Entry>, registry: Registry, e: Entry)
    requires AllStored(entries, registry) && e in entries
    ensures Stored(e, registry)
  {
  }

  /** The entries behind the selected rows. */
  lemma {:induction false} PickedBy(rows: seq<SqlRow>, entries: seq<Entry>, selected: seq<SqlRow>)
    returns (picked: seq<Entry>)
    requires |rows| == |entries| && forall r :: r in selected ==> r in rows
    requires forall i :: 0 <= i < |rows| ==> Valid(entries[i].event.occurredAt) && rows[i] == ToSql(entries[i])
    ensures |picked| == |selected| && forall k :: 0 <= k < |selected| ==> RowOf(entries, picked[k], selected[k])
  {
    hide Valid, Text, Serialize;
    picked := [];
    if selected != [] {
      var prefix, last := selected[..|selected| - 1], selected[|selected| - 1];
      picked := PickedBy(rows, entries, prefix);
      assert last in selected;
      var i :| 0 <= i < |rows| && rows[i] == last;
      assert RowOf(entries, entries[i], last);
      picked := picked + [entries[i]];
    }
  }

  ghost predicate OldestFirst(s: seq<Entry>)
  {
    && (forall i :: 0 <= i < |s| ==> Valid(s[i].event.occurredAt))
    && (forall i, j :: 0 <= i < j < |s| ==>
          || Instant(s[i].event.occurredAt) < Instant(s[j].event.occurredAt)
          || (Instant(s[i].event.occurredAt) == Instant(s[j].event.occurredAt)
              && Compare(s[i].event.id, s[j].event.id) <= 0))
  }

  lemma OrderedAnswer(rows: seq<SqlRow>, registry: Registry, q: Query, entries: seq<Entry>,
                      selected: seq<SqlRow>, result: seq<Entry>)
    requires ValidQuery(q) && AllStored(entries, registry) && |rows| == |entries| && |result| == |selected|
    requires forall i :: 0 <= i < |rows| ==> Valid(entries[i].event.occurredAt) && rows[i] == ToSql(entries[i])
    requires SortedBy(selected, TextOrder) && Distinct(selected)
    requires forall r :: r in selected <==> r in rows && SqlSelects(q, r)
    requires forall j :: 0 <= j < |result| ==> RowOf(entries, result[j], selected[j])
    ensures multiset(result) == multiset(SqlAnswer(q, entries)) && OldestFirst(result)
  {
    hide Serialize, Valid, Instant, Built, Text, SqlSelects, Compare, MemorySelects;
    RowsAreDistinct(entries, registry, rows);
    SqlAnswerMembers(q, entries);
    forall i, j | 0 <= i < j < |result|
      ensures result[i] != result[j]
      ensures || Instant(result[i].event.occurredAt) < Instant(result[j].event.occurredAt)
              || (Instant(result[i].event.occurredAt) == Instant(result[j].event.occurredAt)
                  && Compare(result[i].event.id, result[j].event.id) <= 0)
    {
      assert TextOrder(selected[i], selected[j]) && selected[i] != selected[j];
      TextSortsAsTime(result[i].event.occurredAt, result[j].event.occurredAt, 0);
    }
    forall e ensures e in result <==> e in SqlAnswer(q, entries) {
      SameMember(rows, registry, q, entries, selected, result, e);
    }
    SameElements(result, SqlAnswer(q, entries));
  }

  lemma SqlAnswerMembers(q: Query, entries: seq<Entry>)
    requires ValidQuery(q)
    ensures forall e :: e in SqlAnswer(q, entries) <==> e in entries && RowSelected(q, e)
    ensures Distinct(entries) ==> Distinct(SqlAnswer(q, entries))
  {
    hide RowSelected;
    FilterMembers(entries, (e: Entry) => RowSelected(q, e));
    if Distinct(entries) {
      FilterKeepsDistinct(entries, (e: Entry) => RowSelected(q, e));
    }
  }

  lemma SameMember(rows: seq<SqlRow>, registry: Registry, q: Query, entries: seq<Entry>,
                   selected: seq<SqlRow>, result: seq<Entry>, e: Entry)
    requires ValidQuery(q) && AllStored(entries, registry) && |rows| == |entries| && |result| == |selected|
    requires forall i :: 0 <= i < |rows| ==> Valid(entries[i].event.occurredAt) && rows[i] == ToSql(entries[i])
    requires forall r :: r in selected <==> r in rows && SqlSelects(q, r)
    requires forall j :: 0 <= j < |result| ==> RowOf(entries, result[j], selected[j])
    ensures e in result <==> e in SqlAnswer(q, entries)
  {
    hide Serialize, Valid, Instant, Built, Text, SqlSelects, Compare, MemorySelects;
    SqlAnswerMembers(q, entries);
    if e in entries {
      var i :| 0 <= i < |entries| && entries[i] == e;
      assert rows[i] in rows;
      if rows[i] in selected {
        var k :| 0 <= k < |selected| && selected[k] == rows[i];
        SameRowSameEntry(entries, registry, result[k], e);
      }
    }
    if e in result {
      var j :| 0 <= j < |result| && result[j] == e;
      assert selected[j] in selected;
    }
  }
}
