/** What evidence does to a profile, in the numbers of the policy, and what each handler records for whom. */
module TrustEffects {
  import opened Common
  import opened Trust
  import opened TrustStore
  import Laws = TrustLaws

  // ---- The score ----

  lemma FirstScore(user: UserId, at: Time)
    ensures RawScore(FreshProfile(user, at), at) == 100
  {
  }

  /** What one piece of evidence is worth, before clamping. Resolving a dispute takes back the 10 that it cost
      while it was open. */
  lemma EvidenceIsWorth(p: Profile, e: Evidence, now: Time)
    requires Count(p, e).Some?
    ensures var change := RawScore(Count(p, e).value, now) - RawScore(p, now);
            match e
            case RecordTransaction(_, _) => change == if p.transactions < 20 then 20 else 0
            case RecordReview(_, received, _) => change == if received && p.received < 40 then 4 else 0
            case RecordDispute(_, Opened) => change == -10
            case RecordDispute(_, Won) => change == if p.openDisputes > 0 then 15 else 5
            case RecordDispute(_, Lost) => change == if p.openDisputes > 0 then -65 else -75
            case GrantVerification(level) => change == RawScore(p.(level := level), now) - RawScore(p, now)
            case RevokeVerification => change == RawScore(p.(level := Unverified), now) - RawScore(p, now)
  {
    hide AgeMonths, VerificationPoints;
  }

  /** The points of the levels. */
  lemma LevelIsWorth(p: Profile, now: Time)
    ensures var none := RawScore(p.(level := Unverified), now);
            && RawScore(p.(level := Email), now) == none + 40
            && RawScore(p.(level := Phone), now) == none + 80
            && RawScore(p.(level := Identity), now) == none + 160
            && RawScore(p.(level := Business), now) == none + 220
  {
    hide AgeMonths;
  }

  /** The age is the number of completed periods of 30 days, and each is worth 2 points, up to 60 of them. */
  lemma AgeIsCompletedPeriods(created: Time, now: Time, months: nat)
    requires months > 0
    ensures AgeMonths(created, now) >= months <==> now - created >= months * 2_592_000_000_000
    ensures AgeMonths(created, now) >= 0
  {
    var days := (now - created) / MICROSECONDS_PER_DAY;
    CompletedPeriods(days, DAYS_PER_MONTH, months);
    CompletedPeriods(now - created, MICROSECONDS_PER_DAY, months * DAYS_PER_MONTH);
    assert months * DAYS_PER_MONTH * MICROSECONDS_PER_DAY == months * 2_592_000_000_000;
  }

  lemma CompletedPeriods(a: int, d: int, n: int)
    requires d > 0
    ensures a / d >= n <==> a >= n * d
  {
    var q := a / d;
    assert d * q <= a < d * q + d;
    if q >= n {
      AtLeast(d, n, q);
    } else {
      AtLeast(d, q + 1, n);
    }
  }

  lemma AtLeast(d: int, a: int, b: int)
    requires d > 0 && a <= b
    ensures d * a <= d * b
  {
  }

  lemma AgeIsWorth(p: Profile, now: Time)
    ensures RawScore(p, now) - RawScore(p, p.createdAt) ==
            if AgeMonths(p.createdAt, now) < 60 then 2 * AgeMonths(p.createdAt, now) else 120
  {
    hide AgeMonths;
    NoAge(p.createdAt);
  }

  lemma NoAge(created: Time)
    ensures AgeMonths(created, created) == 0
  {
  }

  /** What is stored is the raw score, or the bound that it exceeds. */
  lemma ScoreIsClamped(p: Profile, now: Time)
    ensures RawScore(p, now) < 0 ==> Calculate(p, now) == 0
    ensures 0 <= RawScore(p, now) <= 1000 ==> Calculate(p, now) == RawScore(p, now)
    ensures RawScore(p, now) > 1000 ==> Calculate(p, now) == 1000
  {
    hide RawScore;
  }

  /** A lost dispute at the start. */
  lemma LostAtOnce(user: UserId, id: nat, at: Time)
    ensures After(FreshProfile(user, at), RecordDispute(id, Lost), at).score == 25
  {
  }

  // ---- One method of the aggregate ----

  /** The levels in ascending order. */
  const LEVELS: seq<VerificationLevel> := [Unverified, Email, Phone, Identity, Business]

  /** A level is refused exactly if it is not above the present one, and a revocation if there is nothing to
      revoke; nothing else is refused. */
  lemma RefusedIff(p: Profile, e: Evidence, at: Time)
    ensures Perform(p, e, at).None? <==>
            match e
            case GrantVerification(level) =>
              exists i, j :: 0 <= i <= j < 5 && LEVELS[i] == level && LEVELS[j] == p.level
            case RevokeVerification => p.level == Unverified
            case _ => false
  {
    hide Calculate;
    match e
    case GrantVerification(level) =>
      assert LEVELS[level.Rank()] == level && LEVELS[p.level.Rank()] == p.level;
      assert forall i :: 0 <= i < 5 ==> LEVELS[i].Rank() == i;
    case _ =>
  }

  /** The counters that move, with all that does not; the score follows the new counters. */
  lemma PerformIs(p: Profile, e: Evidence, at: Time)
    requires Perform(p, e, at).Some?
    ensures var q := Perform(p, e, at).value.0;
            var same := p.(score := q.score, lastActivity := Some(at), updatedAt := at);
            var resolved := if p.openDisputes > 0 then p.openDisputes - 1 else 0;
            && q.score == Calculate(q, at)
            && match e
               case RecordTransaction(_, Sale) => q == same.(transactions := p.transactions + 1, sales := p.sales + 1)
               case RecordTransaction(_, Purchase) =>
                 q == same.(transactions := p.transactions + 1, purchases := p.purchases + 1)
               case RecordTransaction(_, Trade) =>
                 q == same.(transactions := p.transactions + 1, trades := p.trades + 1)
               case RecordDispute(_, Opened) => q == same.(openDisputes := p.openDisputes + 1)
               case RecordDispute(_, Won) => q == same.(won := p.won + 1, openDisputes := resolved)
               case RecordDispute(_, Lost) => q == same.(lost := p.lost + 1, openDisputes := resolved)
               case RecordReview(_, true, _) => q == same.(received := p.received + 1)
               case RecordReview(_, false, _) => q == same.(given := p.given + 1)
               case GrantVerification(level) => q == same.(level := level)
               case RevokeVerification => q == same.(level := Unverified)
  {
    hide RawScore;
    var counted := Count(p, e).value;
    Laws.ScoreReadsOnlyEvidence(counted, Calculate(counted, at), Some(at), at, at);
  }

  /** The announced evidence carries what was recorded; a changed score is announced behind it. */
  lemma AnnouncedIs(p: Profile, e: Evidence, at: Time)
    requires Perform(p, e, at).Some?
    ensures var (q, events) := Perform(p, e, at).value;
            var first :=
              match e
              case RecordTransaction(id, role) => TransactionRecorded(p.user, id, role)
              case RecordDispute(id, outcome) => DisputeRecorded(p.user, id, outcome)
              case RecordReview(id, received, recommended) => ReviewRecorded(p.user, id, received, recommended)
              case GrantVerification(level) => VerificationGranted(p.user, level)
              case RevokeVerification => VerificationRevoked(p.user, p.level);
            events == if q.score == p.score then [first] else [first, TrustScoreChanged(p.user, p.score, q.score)]
  {
    hide Calculate;
  }

  // ---- The handlers ----

  /** The profile of a user, or the one that would be made. */
  function ProfileOf(s: Store, user: UserId, at: Time): Profile
  {
    if user in s.profiles then s.profiles[user] else FreshProfile(user, at)
  }

  /** Up to its score and times, the profile is now `p`. */
  predicate IsNow(s: Store, user: UserId, p: Profile, at: Time)
  {
    user in s.profiles &&
    s.profiles[user] == p.(score := s.profiles[user].score, lastActivity := Some(at), updatedAt := at)
  }

  predicate Untouched(s: Store, t: Store, user: UserId)
  {
    (user in t.profiles <==> user in s.profiles) && (user in s.profiles ==> t.profiles[user] == s.profiles[user])
  }

  function Resolved(open: nat): nat { if open > 0 then open - 1 else 0 }

  lemma NoChanges(s: Store, at: Time)
    ensures UpdateAll(s, [], at) == s
  {
  }

  lemma OneChange(s: Store, c: Change, at: Time)
    ensures UpdateAll(s, [c], at) == Update(s, c.user, c.evidence, at)
  {
    assert [c][..0] == [];
  }

  lemma TwoChanges(s: Store, c: Change, d: Change, at: Time)
    ensures UpdateAll(s, [c, d], at) == Update(Update(s, c.user, c.evidence, at), d.user, d.evidence, at)
  {
    assert [c, d][..1] == [c];
    OneChange(s, c, at);
  }

  /** One change of one user, for every user. */
  lemma UpdateIs(s: Store, c: Change, at: Time, user: UserId)
    requires !c.evidence.GrantVerification? && !c.evidence.RevokeVerification?
    ensures var t := Update(s, c.user, c.evidence, at);
            && (user != c.user ==> Untouched(s, t, user))
            && (user == c.user ==>
                  && Perform(ProfileOf(s, user, at), c.evidence, at).Some?
                  && user in t.profiles
                  && t.profiles[user] == Perform(ProfileOf(s, user, at), c.evidence, at).value.0)
  {
    RefusedIff(ProfileOf(s, c.user, at), c.evidence, at);
    hide Perform;
  }

  lemma Delivered(s: Store, e: MarketEvent, at: Time)
    ensures |Changes(e)| <= 2
    ensures Step(s, Deliver(e, at)) ==
            if Changes(e) == [] then s
            else if |Changes(e)| == 1 then Update(s, Changes(e)[0].user, Changes(e)[0].evidence, at)
            else Update(Update(s, Changes(e)[0].user, Changes(e)[0].evidence, at),
                        Changes(e)[1].user, Changes(e)[1].evidence, at)
  {
    hide Update;
    NoChanges(s, at);
    if |Changes(e)| == 1 {
      OneChange(s, Changes(e)[0], at);
      assert Changes(e) == [Changes(e)[0]];
    } else if |Changes(e)| == 2 {
      TwoChanges(s, Changes(e)[0], Changes(e)[1], at);
      assert Changes(e) == [Changes(e)[0], Changes(e)[1]];
    }
  }

  /** What the delivery records for one user, if anything. */
  ghost predicate Records(s: Store, t: Store, user: UserId, e: Option<Evidence>, at: Time)
  {
    match e
    case None => Untouched(s, t, user)
    case Some(evidence) =>
      var done := Perform(ProfileOf(s, user, at), evidence, at);
      done.Some? && user in t.profiles && t.profiles[user] == done.value.0
  }

  /** A user that is changed once is changed from its present profile, whichever change comes first. */
  lemma DeliveredTo(s: Store, e: MarketEvent, at: Time, user: UserId)
    ensures var t, changes := Step(s, Deliver(e, at)), Changes(e);
            && |changes| <= 2 && (|changes| == 2 ==> changes[0].user != changes[1].user)
            && Records(s, t, user,
                       if |changes| > 0 && changes[0].user == user then Some(changes[0].evidence)
                       else if |changes| > 1 && changes[1].user == user then Some(changes[1].evidence)
                       else None, at)
  {
    Delivered(s, e, at);
    NotAVerification(e);
    hide Perform, Update, Changes;
    var changes := Changes(e);
    if |changes| > 0 {
      UpdateIs(s, changes[0], at, user);
      if |changes| > 1 {
        var u := Update(s, changes[0].user, changes[0].evidence, at);
        UpdateIs(u, changes[1], at, user);
      }
    }
  }

  lemma NotAVerification(e: MarketEvent)
    ensures forall c :: c in Changes(e) ==> !c.evidence.GrantVerification? && !c.evidence.RevokeVerification?
    ensures |Changes(e)| == 2 ==> Changes(e)[0].user != Changes(e)[1].user
  {
  }

  /** A transaction counts as a sale for its seller, as a purchase for a buyer who is somebody else, and as a
      trade for the participant where neither is named; it changes nothing else and nobody else. */
  lemma {:induction false} TransactionCounts(s: Store, id: nat, seller: Option<UserId>, buyer: Option<UserId>,
                                             participant: Option<UserId>, at: Time, user: UserId)
    ensures var t := Step(s, Deliver(TransactionCompleted(id, seller, buyer, participant), at));
            var p := ProfileOf(s, user, at);
            if seller == Some(user) then
              IsNow(t, user, p.(transactions := p.transactions + 1, sales := p.sales + 1), at)
            else if buyer == Some(user) then
              IsNow(t, user, p.(transactions := p.transactions + 1, purchases := p.purchases + 1), at)
            else if seller.None? && buyer.None? && participant == Some(user) then
              IsNow(t, user, p.(transactions := p.transactions + 1, trades := p.trades + 1), at)
            else Untouched(s, t, user)
  {
    DeliveredTo(s, TransactionCompleted(id, seller, buyer, participant), at, user);
    var role := if seller == Some(user) then Sale else if buyer == Some(user) then Purchase else Trade;
    var p := ProfileOf(s, user, at);
    RefusedIff(p, RecordTransaction(id, role), at);
    PerformIs(p, RecordTransaction(id, role), at);
    hide Perform, Step, ProfileOf;
  }

  /** A review counts as given for its author and as received for a recipient who is somebody else. */
  lemma {:induction false} ReviewCounts(s: Store, id: nat, recommended: bool, author: Option<UserId>,
                                        recipient: Option<UserId>, at: Time, user: UserId)
    ensures var t := Step(s, Deliver(ReviewSubmitted(id, recommended, author, recipient), at));
            var p := ProfileOf(s, user, at);
            if author == Some(user) then IsNow(t, user, p.(given := p.given + 1), at)
            else if recipient == Some(user) then IsNow(t, user, p.(received := p.received + 1), at)
            else Untouched(s, t, user)
  {
    DeliveredTo(s, ReviewSubmitted(id, recommended, author, recipient), at, user);
    var p := ProfileOf(s, user, at);
    RefusedIff(p, RecordReview(id, author != Some(user), recommended), at);
    PerformIs(p, RecordReview(id, author != Some(user), recommended), at);
    hide Perform, Step, ProfileOf;
  }

  /** A dispute counts as won for its winner and as lost for a loser who is somebody else, or as the outcome says
      for the user it is about where neither is named; each has one open dispute less, if there was one. */
  lemma {:induction false} DisputeCounts(s: Store, id: nat, winner: Option<UserId>, loser: Option<UserId>,
                                         subject: Option<UserId>, won: bool, at: Time, user: UserId)
    ensures var t := Step(s, Deliver(DisputeResolved(id, winner, loser, subject, won), at));
            var p := ProfileOf(s, user, at);
            var left := Resolved(p.openDisputes);
            var alone := winner.None? && loser.None? && subject == Some(user);
            if winner == Some(user) || (alone && won)
            then IsNow(t, user, p.(won := p.won + 1, openDisputes := left), at)
            else if loser == Some(user) || alone
            then IsNow(t, user, p.(lost := p.lost + 1, openDisputes := left), at)
            else Untouched(s, t, user)
  {
    DeliveredTo(s, DisputeResolved(id, winner, loser, subject, won), at, user);
    var outcome := if winner == Some(user) || (loser != Some(user) && won) then Won else Lost;
    var p := ProfileOf(s, user, at);
    RefusedIff(p, RecordDispute(id, outcome), at);
    PerformIs(p, RecordDispute(id, outcome), at);
    hide Perform, Step, ProfileOf;
  }
}
