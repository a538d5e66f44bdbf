/** Trust profiles: evidence counters, the clamped score, and the events every change emits.
    Times are microseconds since an arbitrary origin. */
module Trust {
  import opened Common

  type UserId = nat
  type Time = int

  datatype VerificationLevel = Unverified | Email | Phone | Identity | Business {
    function Rank(): nat
    {
      match this
      case Unverified => 0
      case Email => 1
      case Phone => 2
      case Identity => 3
      case Business => 4
    }
  }

  datatype TransactionRole = Sale | Purchase | Trade
  datatype DisputeOutcome = Opened | Won | Lost

  datatype Profile = Profile(
    user: UserId,
    score: int,
    level: VerificationLevel,
    transactions: nat, sales: nat, purchases: nat, trades: nat,
    openDisputes: nat, lost: nat, won: nat,
    received: nat, given: nat,
    lastActivity: Option<Time>,
    createdAt: Time,
    updatedAt: Time)

  datatype TrustEvent =
    | TransactionRecorded(user: UserId, transaction: nat, role: TransactionRole)
    | DisputeRecorded(user: UserId, dispute: nat, outcome: DisputeOutcome)
    | ReviewRecorded(user: UserId, review: nat, received: bool, recommended: bool)
    | VerificationGranted(user: UserId, level: VerificationLevel)
    | VerificationRevoked(user: UserId, previousLevel: VerificationLevel)
    | TrustScoreChanged(user: UserId, previous: int, current: int)

  /** What the aggregate's methods record. */
  datatype Evidence =
    | RecordTransaction(id: nat, role: TransactionRole)
    | RecordDispute(id: nat, outcome: DisputeOutcome)
    | RecordReview(id: nat, received: bool, recommended: bool)
    | GrantVerification(level: VerificationLevel)
    | RevokeVerification

  // The default scoring policy.
  const MINIMUM_SCORE := 0
  const MAXIMUM_SCORE := 1000
  const BASE_SCORE := 100
  const TRANSACTION_POINTS := 20
  const TRANSACTION_CAP := 400
  const AGE_POINTS := 2
  const AGE_CAP := 120
  const REVIEW_POINTS := 4
  const REVIEW_CAP := 160
  const WON_POINTS := 5
  const LOST_PENALTY := 75
  const OPEN_PENALTY := 10

  const MICROSECONDS_PER_DAY := 86_400_000_000
  const DAYS_PER_MONTH := 30

  function VerificationPoints(level: VerificationLevel): int
  {
    match level
    case Unverified => 0
    case Email => 40
    case Phone => 80
    case Identity => 160
    case Business => 220
  }

  /** Whole months of 30 days; both divisions round down. */
  function AgeMonths(createdAt: Time, now: Time): int
  {
    Max(0, (now - createdAt) / MICROSECONDS_PER_DAY / DAYS_PER_MONTH)
  }

  /** The score before it is clamped. */
  function RawScore(p: Profile, now: Time): int
  {
    BASE_SCORE
    + Min(p.transactions * TRANSACTION_POINTS, TRANSACTION_CAP)
    + VerificationPoints(p.level)
    + Min(AgeMonths(p.createdAt, now) * AGE_POINTS, AGE_CAP)
    + Min(p.received * REVIEW_POINTS, REVIEW_CAP)
    + p.won * WON_POINTS
    - p.lost * LOST_PENALTY
    - p.openDisputes * OPEN_PENALTY
  }

  function Calculate(p: Profile, now: Time): int
  {
    Max(MINIMUM_SCORE, Min(MAXIMUM_SCORE, RawScore(p, now)))
  }

  function FreshProfile(user: UserId, at: Time): Profile
  {
    Profile(user, 100, Unverified, 0, 0, 0, 0, 0, 0, 0, 0, 0, None, at, at)
  }

  /** The counters after a piece of evidence; `None` where the aggregate raises. */
  function Count(p: Profile, e: Evidence): Option<Profile>
  {
    match e
    case RecordTransaction(_, role) =>
      var q := p.(transactions := p.transactions + 1);
      Some(match role
           case Sale => q.(sales := p.sales + 1)
           case Purchase => q.(purchases := p.purchases + 1)
           case Trade => q.(trades := p.trades + 1))
    case RecordDispute(_, outcome) =>
      Some(match outcome
           case Opened => p.(openDisputes := p.openDisputes + 1)
           case Won => p.(won := p.won + 1, openDisputes := Max(0, p.openDisputes - 1))
           case Lost => p.(lost := p.lost + 1, openDisputes := Max(0, p.openDisputes - 1)))
    case RecordReview(_, received, _) =>
      Some(if received then p.(received := p.received + 1) else p.(given := p.given + 1))
    case GrantVerification(level) =>
      if level.Rank() <= p.level.Rank() then None else Some(p.(level := level))
    case RevokeVerification =>
      if p.level == Unverified then None else Some(p.(level := Unverified))
  }

  function Announce(p: Profile, e: Evidence): TrustEvent
  {
    match e
    case RecordTransaction(id, role) => TransactionRecorded(p.user, id, role)
    case RecordDispute(id, outcome) => DisputeRecorded(p.user, id, outcome)
    case RecordReview(id, received, recommended) => ReviewRecorded(p.user, id, received, recommended)
    case GrantVerification(level) => VerificationGranted(p.user, level)
    case RevokeVerification => VerificationRevoked(p.user, p.level)
  }

  function Refresh(p: Profile, at: Time): (Profile, seq<TrustEvent>)
  {
    var score := Calculate(p, at);
    (p.(score := score, lastActivity := Some(at), updatedAt := at),
     if score == p.score then [] else [TrustScoreChanged(p.user, p.score, score)])
  }

  /** One method of the aggregate: the new profile and the events returned, or `None` if it raises. */
  function Perform(p: Profile, e: Evidence, at: Time): Option<(Profile, seq<TrustEvent>)>
  {
    var counted := Count(p, e);
    if counted.None? then None
    else
      var (q, changed) := Refresh(counted.value, at);
      Some((q, [Announce(p, e)] + changed))
  }

  /** The same, on the profile alone: an aggregate that raises is unchanged. */
  function After(p: Profile, e: Evidence, at: Time): Profile
  {
    match Perform(p, e, at)
    case None => p
    case Some((q, _)) => q
  }

  /** Evidence with the time it is recorded at. */
  datatype Entry = Entry(evidence: Evidence, at: Time)

  function Run(p: Profile, entries: seq<Entry>): Profile
  {
    if entries == [] then p
    else After(Run(p, entries[..|entries| - 1]), entries[|entries| - 1].evidence, entries[|entries| - 1].at)
  }
}

/** Laws of the score and of the dispute counter. */
module TrustLaws {
  import opened Common
  import opened Trust

  /** Every stored score is within the policy's bounds. */
  lemma {:induction false} ScoreInRange(user: UserId, created: Time, entries: seq<Entry>)
    ensures 0 <= Run(FreshProfile(user, created), entries).score <= 1000
  {
    if entries != [] {
      ScoreInRange(user, created, entries[..|entries| - 1]);
    }
  }

  /** Base plus all caps is exactly the maximum, so only won disputes can push past it. */
  lemma UpperClampNeedsWonDispute(p: Profile, now: Time)
    ensures RawScore(p, now) > MAXIMUM_SCORE ==> p.won > 0
    ensures p.won == 0 ==>
      (RawScore(p, now) == MAXIMUM_SCORE <==>
       p.transactions >= 20 && p.level == Business && AgeMonths(p.createdAt, now) >= 60
       && p.received >= 40 && p.lost == 0 && p.openDisputes == 0)
  {
  }

  /** Neither an opened or lost dispute nor a revocation. */
  predicate Favourable(e: Evidence)
  {
    !e.RevokeVerification? && (e.RecordDispute? ==> e.outcome == Won)
  }

  lemma AgeGrows(created: Time, now: Time, later: Time)
    requires now <= later
    ensures AgeMonths(created, now) <= AgeMonths(created, later)
  {
    DivGrows(now - created, later - created, MICROSECONDS_PER_DAY);
    DivGrows((now - created) / MICROSECONDS_PER_DAY, (later - created) / MICROSECONDS_PER_DAY, DAYS_PER_MONTH);
  }

  lemma DivGrows(a: int, b: int, d: int)
    requires a <= b && d > 0
    ensures a / d <= b / d
  {
    var x, y := a / d, b / d;
    assert d * x <= a && b < d * y + d;
    assert d * (y - x + 1) > 0;
    PositiveFactor(d, y - x + 1);
  }

  lemma PositiveFactor(d: int, k: int)
    requires d > 0 && d * k > 0
    ensures k > 0
  {
  }

  /** The stored score is the calculated one, and no dispute counts against it. */
  ghost predicate Clean(p: Profile, at: Time)
  {
    p.score == Calculate(p, at) && p.openDisputes == 0 && p.lost == 0
  }

  lemma FavourableStepNeverLowers(p: Profile, e: Evidence, at: Time, later: Time)
    requires Clean(p, at) && at <= later && Favourable(e)
    ensures After(p, e, later).score >= p.score
    ensures Perform(p, e, later).Some? ==> Clean(After(p, e, later), later)
    ensures Perform(p, e, later).None? ==> After(p, e, later) == p
  {
    hide RawScore;
    if Perform(p, e, later).Some? {
      var q := Count(p, e).value;
      MoreEvidence(p, q, at, later);
      ScoreReadsOnlyEvidence(q, q.score, q.lastActivity, q.updatedAt, later);
      ScoreReadsOnlyEvidence(q, Calculate(q, later), Some(later), later, later);
    }
  }

  lemma ScoreReadsOnlyEvidence(p: Profile, score: int, last: Option<Time>, updated: Time, at: Time)
    ensures Calculate(p.(score := score, lastActivity := last, updatedAt := updated), at) == Calculate(p, at)
  {
  }

  /** More evidence and more age, with no dispute open or lost, never calculates a lower score. */
  lemma MoreEvidence(p: Profile, q: Profile, at: Time, later: Time)
    requires at <= later && p.createdAt == q.createdAt
    requires p.transactions <= q.transactions && p.received <= q.received && p.won <= q.won
    requires VerificationPoints(p.level) <= VerificationPoints(q.level)
    requires p.lost == q.lost == 0 && p.openDisputes == q.openDisputes == 0
    ensures Calculate(p, at) <= Calculate(q, later)
  {
    AgeGrows(p.createdAt, at, later);
    hide AgeMonths;
  }

  predicate NeverBackwards(start: Time, entries: seq<Entry>)
  {
    && (forall i :: 0 <= i < |entries| ==> start <= entries[i].at)
    && (forall i, j :: 0 <= i < j < |entries| ==> entries[i].at <= entries[j].at)
  }

  lemma {:induction false} CleanRun(user: UserId, created: Time, entries: seq<Entry>) returns (last: Time)
    requires NeverBackwards(created, entries)
    requires forall i :: 0 <= i < |entries| ==> Favourable(entries[i].evidence)
    ensures Clean(Run(FreshProfile(user, created), entries), last)
    ensures last <= if entries == [] then created else entries[|entries| - 1].at
  {
    if entries == [] {
      last := created;
    } else {
      var prefix, e := entries[..|entries| - 1], entries[|entries| - 1];
      last := CleanRun(user, created, prefix);
      var p := Run(FreshProfile(user, created), prefix);
      FavourableStepNeverLowers(p, e.evidence, last, e.at);
      if Perform(p, e.evidence, e.at).Some? {
        last := e.at;
      }
    }
  }

  /** Over any run from a fresh aggregate whose clock never goes back, with no opened or lost
      dispute and no revocation, the score never falls. */
  lemma {:induction false} FavourableRunNeverFalls(user: UserId, created: Time, entries: seq<Entry>, i: nat)
    requires NeverBackwards(created, entries)
    requires forall k :: 0 <= k < |entries| ==> Favourable(entries[k].evidence)
    requires i <= |entries|
    ensures Run(FreshProfile(user, created), entries[..i]).score <= Run(FreshProfile(user, created), entries).score
    decreases |entries|
  {
    if i == |entries| {
      assert entries[..i] == entries;
    } else {
      var prefix, e := entries[..|entries| - 1], entries[|entries| - 1];
      FavourableRunNeverFalls(user, created, prefix, i);
      assert prefix[..i] == entries[..i];
      var last := CleanRun(user, created, prefix);
      FavourableStepNeverLowers(Run(FreshProfile(user, created), prefix), e.evidence, last, e.at);
    }
  }

  /** How one record moves the number of unresolved disputes. */
  function Delta(e: Evidence): int
  {
    if !e.RecordDispute? then 0 else if e.outcome == Opened then 1 else -1
  }

  /** Opened minus resolved disputes. */
  function Net(entries: seq<Entry>): int
  {
    if entries == [] then 0 else Net(entries[..|entries| - 1]) + Delta(entries[|entries| - 1].evidence)
  }

  lemma NetOfSuffix(entries: seq<Entry>, i: nat)
    requires i < |entries|
    ensures Net(entries[i..]) == Net(entries[..|entries| - 1][i..]) + Delta(entries[|entries| - 1].evidence)
  {
    assert entries[i..][..|entries| - i - 1] == entries[..|entries| - 1][i..];
  }

  lemma OpenAfter(p: Profile, e: Evidence, at: Time)
    ensures After(p, e, at).openDisputes == Max(0, p.openDisputes + Delta(e))
  {
  }

  /** After any history of a fresh aggregate the open disputes are the largest excess of opened over
      resolved disputes that any suffix of the history has. */
  lemma {:induction false} OpenDisputesAreMaxSuffix(user: UserId, created: Time, entries: seq<Entry>)
    ensures forall i :: 0 <= i <= |entries| ==>
              Net(entries[i..]) <= Run(FreshProfile(user, created), entries).openDisputes
    ensures exists i :: 0 <= i <= |entries| &&
              Net(entries[i..]) == Run(FreshProfile(user, created), entries).openDisputes
  {
    var n := |entries|;
    if n == 0 {
      assert Net(entries[0..]) == 0;
    } else {
      hide Run, After, Net, Delta;
      var prefix, e := entries[..n - 1], entries[n - 1];
      OpenDisputesAreMaxSuffix(user, created, prefix);
      OpenLast(user, created, entries);
      NetOfNone(entries);
      forall i | 0 <= i <= n
        ensures Net(entries[i..]) <= Run(FreshProfile(user, created), entries).openDisputes
      {
        if i < n { NetOfSuffix(entries, i); }
      }
      var k :| 0 <= k <= n - 1 && Net(prefix[k..]) == Run(FreshProfile(user, created), prefix).openDisputes;
      NetOfSuffix(entries, k);
      var best := if Run(FreshProfile(user, created), prefix).openDisputes + Delta(e.evidence) >= 0 then k else n;
      assert Net(entries[best..]) == Run(FreshProfile(user, created), entries).openDisputes;
    }
  }

  lemma NetOfNone(entries: seq<Entry>)
    ensures Net(entries[|entries|..]) == 0
  {
  }

  lemma OpenLast(user: UserId, created: Time, entries: seq<Entry>)
    requires entries != []
    ensures Run(FreshProfile(user, created), entries).openDisputes ==
            Max(0, Run(FreshProfile(user, created), entries[..|entries| - 1]).openDisputes
                   + Delta(entries[|entries| - 1].evidence))
  {
    hide After;
    OpenAfter(Run(FreshProfile(user, created), entries[..|entries| - 1]),
              entries[|entries| - 1].evidence, entries[|entries| - 1].at);
  }
}
