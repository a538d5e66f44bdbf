/** Event construction with its UTC normalisation, and events as stored data. */
module Serialization {
  import opened Common
  import opened Lineage
  import opened Timestamps
  import opened TimestampParsing
  import opened TimestampBounds

  /** A dataclass: the fields it has besides the common ones. */
  datatype Class = Class(name: string, extra: seq<string>)

  const DOMAIN_EVENT := Class("DomainEvent", [])

  const BASE_FIELDS: seq<string> :=
    ["event_id", "event_type", "aggregate_type", "aggregate_id", "occurred_at", "correlation_id",
     "causation_id", "schema_version"]

  datatype Event = Event(
    id: string,
    eventType: string,
    aggregateType: string,
    aggregateId: string,
    occurredAt: Moment,
    correlation: Option<string>,
    causation: Option<string>,
    schemaVersion: int,
    cls: Class,
    payload: map<string, string>)

  const EMPTY_CONTEXT: Context<string, string> := Context(None, None)

  datatype Error = TypeError | ValueError | OverflowError

  // ---- Construction ----

  function DayBefore(m: Moment): Option<Moment>
  {
    if m.day > 1 then Some(m.(day := m.day - 1))
    else if m.month > 1 then Some(m.(month := m.month - 1, day := DaysInMonth(m.year, m.month - 1)))
    else if m.year > 1 then Some(m.(year := m.year - 1, month := 12, day := 31))
    else None
  }

  function DayAfter(m: Moment): Option<Moment>
  {
    if m.day < DaysInMonth(m.year, m.month) then Some(m.(day := m.day + 1))
    else if m.month < 12 then Some(m.(month := m.month + 1, day := 1))
    else if m.year < 9999 then Some(m.(year := m.year + 1, month := 1, day := 1))
    else None
  }

  /** `astimezone(UTC)` of a local time with an offset in minutes. */
  function ToUtc(m: Moment, offset: int): Option<Moment>
  {
    var minutes := m.hour * 60 + m.minute - offset;
    if minutes < 0 then
      var d :- DayBefore(m);
      Some(d.(hour := (minutes + 1440) / 60, minute := (minutes + 1440) % 60))
    else if minutes >= 1440 then
      var d :- DayAfter(m);
      Some(d.(hour := (minutes - 1440) / 60, minute := (minutes - 1440) % 60))
    else Some(m.(hour := minutes / 60, minute := minutes % 60))
  }

  lemma NeighbouringDays(m: Moment)
    requires Valid(m)
    ensures DayBefore(m).Some? ==> Valid(DayBefore(m).value) && DayNumber(DayBefore(m).value) == DayNumber(m) - 1
    ensures DayAfter(m).Some? ==> Valid(DayAfter(m).value) && DayNumber(DayAfter(m).value) == DayNumber(m) + 1
  {
    if m.day == 1 && m.month == 1 {
      YearEnds(m.year - 1);
      YearLength(m.year - 1);
    }
    if m.day == DaysInMonth(m.year, m.month) && m.month == 12 {
      YearEnds(m.year);
      YearLength(m.year);
    }
  }

  lemma Unclocked(m: Moment, n: Moment)
    requires Valid(m) && n.year == m.year && n.month == m.month && n.day == m.day
    ensures DayNumber(n) == DayNumber(m)
  {
  }

  lemma ClockInMinutes(m: Moment)
    ensures Clock(m) == (m.hour * 60 + m.minute) * 60_000_000 + m.second * 1_000_000 + m.micro
  {
  }

  /** Normalising to UTC names the same instant. */
  lemma {:induction false} ToUtcKeepsTheInstant(m: Moment, offset: int)
    requires Valid(m) && -1440 < offset < 1440 && ToUtc(m, offset).Some?
    ensures Valid(ToUtc(m, offset).value) && Instant(ToUtc(m, offset).value) == AwareInstant(m, offset)
  {
    var u := ToUtc(m, offset).value;
    var minutes := m.hour * 60 + m.minute - offset;
    NeighbouringDays(m);
    hide DaysBeforeYear, DaysBeforeMonth, DaysInMonth, Clock;
    ClockInMinutes(m);
    ClockInMinutes(u);
    var d := if minutes < 0 then DayBefore(m).value else if minutes >= 1440 then DayAfter(m).value else m;
    Unclocked(d, u);
  }

  /** What every construction does: fill in the lineage, check, and normalise the time. */
  function Build(
    cls: Class, id: string, eventType: string, aggregateType: string, aggregateId: string,
    occurredAt: (Moment, int), correlation: Option<string>, causation: Option<string>, schemaVersion: int,
    payload: map<string, string>, ctx: Context<string, string>): Result<Event, Error>
  {
    if payload.Keys != (set f | f in cls.extra) then Err(TypeError)
    else if id == "" || eventType == "" || aggregateType == "" || aggregateId == "" then Err(ValueError)
    else if schemaVersion < 1 then Err(ValueError)
    else
      match ToUtc(occurredAt.0, occurredAt.1)
      case None => Err(OverflowError)
      case Some(utc) =>
        Ok(Event(id, eventType, aggregateType, aggregateId, utc,
                 Inherited(correlation, ctx.correlation), Inherited(causation, ctx.causation),
                 schemaVersion, cls, payload))
  }

  /** What `Build` establishes, and the classes of the repository satisfy. */
  ghost predicate Built(e: Event)
  {
    && e.payload.Keys == (set f | f in e.cls.extra)
    && (forall f :: f in e.cls.extra ==> f !in BASE_FIELDS)
    && e.id != "" && e.eventType != "" && e.aggregateType != "" && e.aggregateId != "" && e.schemaVersion >= 1
    && Valid(e.occurredAt)
  }

  // ---- Stored data ----

  datatype Data = Data(
    id: string,
    eventType: string,
    aggregateType: string,
    aggregateId: string,
    occurredAt: string,
    correlation: Option<string>,
    causation: Option<string>,
    schemaVersion: int,
    payload: map<string, string>)

  function Serialize(e: Event): Data
    requires Valid(e.occurredAt)
  {
    Data(e.id, e.eventType, e.aggregateType, e.aggregateId, Text(e.occurredAt, 0), e.correlation, e.causation,
         e.schemaVersion, e.payload)
  }

  type Registry = map<string, Class>

  function ClassOf(registry: Registry, eventType: string): Class
  {
    if eventType in registry then registry[eventType] else DOMAIN_EVENT
  }

  function Deserialize(registry: Registry, ctx: Context<string, string>, d: Data): Result<Event, Error>
  {
    match Parse(d.occurredAt)
    case None => Err(ValueError)
    case Some(time) =>
      Build(ClassOf(registry, d.eventType), d.id, d.eventType, d.aggregateType, d.aggregateId, time,
            d.correlation, d.causation, d.schemaVersion, d.payload, ctx)
  }

  /** The loop over the dataclass fields: everything but the common fields goes into the payload. */
  method SerializeEvent(e: Event) returns (d: Data)
    requires Built(e)
    ensures d == Serialize(e)
  {
    var fields := BASE_FIELDS + e.cls.extra;
    var payload: map<string, string> := map[];
    for i := 0 to |fields|
      invariant payload.Keys == set f | f in fields[..i] && f !in BASE_FIELDS
      invariant forall f :: f in payload ==> f in e.payload && payload[f] == e.payload[f]
    {
      assert fields[..i + 1] == fields[..i] + [fields[i]];
      if fields[i] in BASE_FIELDS {
        continue;
      }
      assert fields[i] in e.cls.extra && fields[i] in e.payload.Keys;
      payload := payload[fields[i] := e.payload[fields[i]]];
    }
    assert fields[..|fields|] == fields;
    forall f ensures f in payload.Keys <==> f in e.payload.Keys {
      assert f in fields <==> f in BASE_FIELDS || f in e.cls.extra;
    }
    assert payload == e.payload;
    return Data(e.id, e.eventType, e.aggregateType, e.aggregateId, Text(e.occurredAt, 0), e.correlation, e.causation,
                e.schemaVersion, payload);
  }

  lemma UtcStays(m: Moment)
    requires Valid(m)
    ensures ToUtc(m, 0) == Some(m)
  {
  }

  /** What reading stored data in a context gives: the event with its open lineage filled in. */
  lemma ReadBack(registry: Registry, ctx: Context<string, string>, e: Event)
    requires Built(e)
    ensures ClassOf(registry, e.eventType) == e.cls ==>
              Deserialize(registry, ctx, Serialize(e)) ==
              Ok(e.(correlation := Inherited(e.correlation, ctx.correlation),
                    causation := Inherited(e.causation, ctx.causation)))
    ensures ClassOf(registry, e.eventType) != e.cls ==>
              || Deserialize(registry, ctx, Serialize(e)).Err?
              || Deserialize(registry, ctx, Serialize(e)).value.cls != e.cls
  {
    TextParses(e.occurredAt, 0);
    UtcStays(e.occurredAt);
    hide Parse, Text, ToUtc;
  }

  /** The round trip holds exactly when the class is registered and the reading context adds no lineage;
      so always under the empty context. */
  lemma {:induction false} RoundTripIff(registry: Registry, ctx: Context<string, string>, e: Event)
    requires Built(e)
    ensures Deserialize(registry, ctx, Serialize(e)) == Ok(e) <==>
            && ClassOf(registry, e.eventType) == e.cls
            && (e.correlation.Some? || ctx.correlation.None?)
            && (e.causation.Some? || ctx.causation.None?)
    ensures ClassOf(registry, e.eventType) == e.cls ==> Deserialize(registry, EMPTY_CONTEXT, Serialize(e)) == Ok(e)
  {
    ReadBack(registry, ctx, e);
    ReadBack(registry, EMPTY_CONTEXT, e);
    hide Deserialize, Serialize;
  }

  /** Construction yields events that the round trip applies to. */
  lemma {:induction false} BuildIsBuilt(
    cls: Class, id: string, eventType: string, aggregateType: string, aggregateId: string,
    occurredAt: (Moment, int), correlation: Option<string>, causation: Option<string>, schemaVersion: int,
    payload: map<string, string>, ctx: Context<string, string>)
    requires Valid(occurredAt.0) && -1440 < occurredAt.1 < 1440
    requires forall f :: f in cls.extra ==> f !in BASE_FIELDS
    ensures var r := Build(cls, id, eventType, aggregateType, aggregateId, occurredAt, correlation, causation,
                           schemaVersion, payload, ctx);
            r.Ok? ==>
              && Built(r.value) && r.value.cls == cls
              && Instant(r.value.occurredAt) == AwareInstant(occurredAt.0, occurredAt.1)
              && (correlation.Some? ==> r.value.correlation == correlation)
              && (causation.None? ==> r.value.causation == ctx.causation)
  {
    if ToUtc(occurredAt.0, occurredAt.1).Some? {
      ToUtcKeepsTheInstant(occurredAt.0, occurredAt.1);
    }
    hide ToUtc, Instant;
  }
}
