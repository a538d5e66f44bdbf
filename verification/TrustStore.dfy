/** The trust event handlers: every change of a stored profile is also a stored event stream. */
module TrustStore {
  import opened Common
  import opened Trust

  /** The profiles and the trust entries of the outbox, in save order. */
  datatype Store = Store(profiles: map<UserId, Profile>, outbox: seq<TrustEvent>)

  /** Load or create, perform, save, publish; nothing is saved when the aggregate raises. */
  function Update(s: Store, user: UserId, e: Evidence, at: Time): Store
  {
    var p := if user in s.profiles then s.profiles[user] else FreshProfile(user, at);
    match Perform(p, e, at)
    case None => s
    case Some((q, events)) => Store(s.profiles[user := q], s.outbox + events)
  }

  /** The marketplace events the handlers are registered for; absent participants are `None`. */
  datatype MarketEvent =
    | TransactionCompleted(id: nat, seller: Option<UserId>, buyer: Option<UserId>, participant: Option<UserId>)
    | ReviewSubmitted(id: nat, recommended: bool, author: Option<UserId>, recipient: Option<UserId>)
    | DisputeResolved(id: nat, winner: Option<UserId>, loser: Option<UserId>, subject: Option<UserId>, won: bool)

  datatype Change = Change(user: UserId, evidence: Evidence)

  function Once(user: Option<UserId>, e: Evidence): seq<Change>
  {
    if user.Some? then [Change(user.value, e)] else []
  }

  /** Who gains what evidence: both participants, each once, or the only one named. */
  function Changes(e: MarketEvent): seq<Change>
  {
    match e
    case TransactionCompleted(id, seller, buyer, participant) =>
      if seller.None? && buyer.None? then Once(participant, RecordTransaction(id, Trade))
      else Once(seller, RecordTransaction(id, Sale)) +
           (if buyer == seller then [] else Once(buyer, RecordTransaction(id, Purchase)))
    case ReviewSubmitted(id, recommended, author, recipient) =>
      Once(author, RecordReview(id, false, recommended)) +
      (if recipient == author then [] else Once(recipient, RecordReview(id, true, recommended)))
    case DisputeResolved(id, winner, loser, subject, won) =>
      if winner.None? && loser.None? then Once(subject, RecordDispute(id, if won then Won else Lost))
      else Once(winner, RecordDispute(id, Won)) +
           (if loser == winner then [] else Once(loser, RecordDispute(id, Lost)))
  }

  function UpdateAll(s: Store, changes: seq<Change>, at: Time): Store
  {
    if changes == [] then s
    else Update(UpdateAll(s, changes[..|changes| - 1], at),
                changes[|changes| - 1].user, changes[|changes| - 1].evidence, at)
  }

  /** What happens to the store: an event is delivered, or somebody's verification changes. */
  datatype Input =
    | Deliver(event: MarketEvent, at: Time)
    | Verify(user: UserId, evidence: Evidence, at: Time)

  function Step(s: Store, i: Input): Store
  {
    match i
    case Deliver(e, at) => UpdateAll(s, Changes(e), at)
    case Verify(user, e, at) => Update(s, user, e, at)
  }

  function RunStore(inputs: seq<Input>): Store
  {
    if inputs == [] then Store(map[], []) else Step(RunStore(inputs[..|inputs| - 1]), inputs[|inputs| - 1])
  }

  // ---- The profile as the fold of its own events ----

  datatype Tally = Tally(score: int, level: VerificationLevel,
                         transactions: int, sales: int, purchases: int, trades: int,
                         openDisputes: int, lost: int, won: int, received: int, given: int)

  function TallyOf(p: Profile): Tally
  {
    Tally(p.score, p.level, p.transactions, p.sales, p.purchases, p.trades,
          p.openDisputes, p.lost, p.won, p.received, p.given)
  }

  const FRESH_TALLY := Tally(100, Unverified, 0, 0, 0, 0, 0, 0, 0, 0, 0)

  function Apply(t: Tally, e: TrustEvent): Tally
  {
    match e
    case TransactionRecorded(_, _, Sale) => t.(transactions := t.transactions + 1, sales := t.sales + 1)
    case TransactionRecorded(_, _, Purchase) => t.(transactions := t.transactions + 1, purchases := t.purchases + 1)
    case TransactionRecorded(_, _, Trade) => t.(transactions := t.transactions + 1, trades := t.trades + 1)
    case DisputeRecorded(_, _, Opened) => t.(openDisputes := t.openDisputes + 1)
    case DisputeRecorded(_, _, Won) => t.(won := t.won + 1, openDisputes := Max(0, t.openDisputes - 1))
    case DisputeRecorded(_, _, Lost) => t.(lost := t.lost + 1, openDisputes := Max(0, t.openDisputes - 1))
    case ReviewRecorded(_, _, true, _) => t.(received := t.received + 1)
    case ReviewRecorded(_, _, false, _) => t.(given := t.given + 1)
    case VerificationGranted(_, level) => t.(level := level)
    case VerificationRevoked(_, _) => t.(level := Unverified)
    case TrustScoreChanged(_, _, current) => t.(score := current)
  }

  /** The stream of one user: the outbox entries of that aggregate, in save order. */
  function ByAggregate(outbox: seq<TrustEvent>, user: UserId): seq<TrustEvent>
  {
    if outbox == [] then []
    else ByAggregate(outbox[..|outbox| - 1], user) +
         (if outbox[|outbox| - 1].user == user then [outbox[|outbox| - 1]] else [])
  }

  function Fold(events: seq<TrustEvent>): Tally
  {
    if events == [] then FRESH_TALLY else Apply(Fold(events[..|events| - 1]), events[|events| - 1])
  }

  /** The score changes of a stream lead from 100 to `last`, each starting where the previous ended. */
  predicate ScoreChain(events: seq<TrustEvent>, last: int)
  {
    if events == [] then last == 100
    else
      var e := events[|events| - 1];
      if e.TrustScoreChanged?
      then e.current == last && e.previous != last && ScoreChain(events[..|events| - 1], e.previous)
      else ScoreChain(events[..|events| - 1], last)
  }

  function TallyIn(s: Store, user: UserId): Tally
  {
    if user in s.profiles then TallyOf(s.profiles[user]) else FRESH_TALLY
  }

  ghost predicate Faithful(s: Store, user: UserId)
  {
    var stream := ByAggregate(s.outbox, user);
    && Fold(stream) == TallyIn(s, user)
    && ScoreChain(stream, TallyIn(s, user).score)
    && (user in s.profiles ==> s.profiles[user].user == user)
  }

  lemma ByAggregateSnoc(outbox: seq<TrustEvent>, e: TrustEvent, user: UserId)
    ensures ByAggregate(outbox + [e], user) == ByAggregate(outbox, user) + (if e.user == user then [e] else [])
  {
    assert (outbox + [e])[..|outbox|] == outbox;
  }

  lemma FoldSnoc(events: seq<TrustEvent>, e: TrustEvent)
    ensures Fold(events + [e]) == Apply(Fold(events), e)
    ensures ScoreChain(events + [e], if e.TrustScoreChanged? then e.current else Fold(events).score) <==>
            if e.TrustScoreChanged? then e.previous != e.current && ScoreChain(events, e.previous)
            else ScoreChain(events, Fold(events).score)
  {
    assert (events + [e])[..|events|] == events;
  }

  /** What an update announces folds the old tally into the new one. */
  lemma AnnouncementFolds(p: Profile, e: Evidence, at: Time)
    requires Perform(p, e, at).Some?
    ensures var (q, events) := Perform(p, e, at).value;
            && 1 <= |events| <= 2
            && (forall k :: 0 <= k < |events| ==> events[k].user == p.user)
            && !events[0].TrustScoreChanged?
            && (|events| == 2 ==> events[1] == TrustScoreChanged(p.user, p.score, q.score) && p.score != q.score)
            && TallyOf(q) == (if |events| == 2 then Apply(Apply(TallyOf(p), events[0]), events[1])
                              else Apply(TallyOf(p), events[0]))
            && q.user == p.user && (|events| == 1 ==> q.score == p.score)
  {
    hide Calculate;
  }

  /** Two saves, filtered for one user. */
  lemma ByAggregateAppend(outbox: seq<TrustEvent>, events: seq<TrustEvent>, owner: UserId, user: UserId)
    requires 1 <= |events| <= 2
    requires forall k :: 0 <= k < |events| ==> events[k].user == owner
    ensures ByAggregate(outbox + events, user) == ByAggregate(outbox, user) + (if owner == user then events else [])
  {
    hide ByAggregate;
    ByAggregateSnoc(outbox, events[0], user);
    if |events| == 1 {
      assert outbox + events == outbox + [events[0]];
    } else {
      assert outbox + events == outbox + [events[0]] + [events[1]];
      ByAggregateSnoc(outbox + [events[0]], events[1], user);
    }
  }

  /** The same, folded. */
  lemma FoldAppend(stream: seq<TrustEvent>, p: Profile, e: Evidence, at: Time)
    requires Perform(p, e, at).Some? && Fold(stream) == TallyOf(p) && ScoreChain(stream, p.score)
    ensures var (q, events) := Perform(p, e, at).value;
            Fold(stream + events) == TallyOf(q) && ScoreChain(stream + events, q.score)
  {
    hide Perform, Fold, ScoreChain;
    AnnouncementFolds(p, e, at);
    var (q, events) := Perform(p, e, at).value;
    FoldSnoc(stream, events[0]);
    if |events| == 1 {
      assert stream + events == stream + [events[0]];
    } else {
      assert stream + events == stream + [events[0]] + [events[1]];
      FoldSnoc(stream + [events[0]], events[1]);
    }
  }

  lemma UpdateKeepsFaithful(s: Store, changed: UserId, e: Evidence, at: Time, user: UserId)
    requires Faithful(s, user) && Faithful(s, changed)
    ensures Faithful(Update(s, changed, e, at), user)
  {
    hide Perform, ByAggregate, Fold, ScoreChain, FreshProfile;
    var p := if changed in s.profiles then s.profiles[changed] else FreshProfile(changed, at);
    if Perform(p, e, at).Some? {
      FreshTally(changed, at);
      AnnouncementFolds(p, e, at);
      var (q, events) := Perform(p, e, at).value;
      ByAggregateAppend(s.outbox, events, changed, user);
      if user == changed {
        FoldAppend(ByAggregate(s.outbox, user), p, e, at);
      } else {
        assert ByAggregate(s.outbox, user) + [] == ByAggregate(s.outbox, user);
      }
    }
  }

  lemma FreshTally(user: UserId, at: Time)
    ensures TallyOf(FreshProfile(user, at)) == FRESH_TALLY && FreshProfile(user, at).user == user
  {
  }

  lemma {:induction false} UpdateAllKeepsFaithful(s: Store, changes: seq<Change>, at: Time)
    requires forall user :: Faithful(s, user)
    ensures forall user :: Faithful(UpdateAll(s, changes, at), user)
  {
    hide Faithful, Update;
    if changes != [] {
      var prefix, c := changes[..|changes| - 1], changes[|changes| - 1];
      UpdateAllKeepsFaithful(s, prefix, at);
      forall user ensures Faithful(UpdateAll(s, changes, at), user) {
        UpdateKeepsFaithful(UpdateAll(s, prefix, at), c.user, c.evidence, at, user);
      }
    }
  }

  lemma {:induction false} RunFaithful(inputs: seq<Input>)
    ensures forall user :: Faithful(RunStore(inputs), user)
  {
    if inputs != [] {
      hide Faithful, Update, UpdateAll, Changes;
      var s, i := RunStore(inputs[..|inputs| - 1]), inputs[|inputs| - 1];
      RunFaithful(inputs[..|inputs| - 1]);
      match i
      case Deliver(e, at) => UpdateAllKeepsFaithful(s, Changes(e), at);
      case Verify(changed, e, at) =>
        forall user ensures Faithful(Step(s, i), user) {
          UpdateKeepsFaithful(s, changed, e, at, user);
        }
    }
  }

  /** For every user, after any run: folding that user's outbox entries in save order gives exactly
      the stored counters, level and score (or those of a fresh profile, if none is stored), and the
      score changes form a chain from 100 to the stored score. */
  lemma {:induction false} ProfileIsFoldOfItsEvents(inputs: seq<Input>, user: UserId)
    ensures var s := RunStore(inputs);
            && Fold(ByAggregate(s.outbox, user)) ==
               (if user in s.profiles then TallyOf(s.profiles[user]) else FRESH_TALLY)
            && ScoreChain(ByAggregate(s.outbox, user), if user in s.profiles then s.profiles[user].score else 100)
  {
    RunFaithful(inputs);
    assert Faithful(RunStore(inputs), user);
  }

  lemma {:induction false} UpdateAllAppends(s: Store, changes: seq<Change>, at: Time)
    ensures s.outbox <= UpdateAll(s, changes, at).outbox
    ensures |UpdateAll(s, changes, at).outbox| <= |s.outbox| + 2 * |changes|
  {
    hide Calculate;
    if changes != [] {
      UpdateAllAppends(s, changes[..|changes| - 1], at);
    }
  }

  /** A change is always visible in what the fold rebuilds. */
  lemma PerformChanges(p: Profile, e: Evidence, at: Time)
    requires Perform(p, e, at).Some?
    ensures TallyOf(Perform(p, e, at).value.0) != TallyOf(p)
  {
    hide Calculate;
  }

  /** Without the last event or both events of a change, the stream falls behind the profile. */
  lemma CutFold(stream: seq<TrustEvent>, p: Profile, e: Evidence, at: Time, kept: nat)
    requires Perform(p, e, at).Some? && Fold(stream) == TallyOf(p)
    requires kept < |Perform(p, e, at).value.1|
    ensures Fold(stream + Perform(p, e, at).value.1[..kept]) != TallyOf(Perform(p, e, at).value.0)
  {
    hide Perform, Fold, ScoreChain;
    AnnouncementFolds(p, e, at);
    PerformChanges(p, e, at);
    var (q, events) := Perform(p, e, at).value;
    if kept == 0 {
      assert stream + events[..0] == stream;
    } else {
      FoldSnoc(stream, events[0]);
      assert events[..1] == [events[0]];
    }
  }

  /** Storing a profile without all of its events ends the fold for that user. */
  lemma CutBreaksOne(s: Store, user: UserId, e: Evidence, at: Time, kept: nat)
    requires Faithful(s, user) && |s.outbox| <= kept < |Update(s, user, e, at).outbox|
    ensures var t := Update(s, user, e, at); !Faithful(t.(outbox := t.outbox[..kept]), user)
  {
    hide Perform, ByAggregate, Fold, ScoreChain, FreshProfile;
    var p := if user in s.profiles then s.profiles[user] else FreshProfile(user, at);
    FreshTally(user, at);
    AnnouncementFolds(p, e, at);
    var (q, events) := Perform(p, e, at).value;
    var some := events[..kept - |s.outbox|];
    assert (s.outbox + events)[..kept] == s.outbox + some;
    if some == [] {
      assert s.outbox + some == s.outbox && ByAggregate(s.outbox, user) + some == ByAggregate(s.outbox, user);
    } else {
      ByAggregateAppend(s.outbox, some, user, user);
    }
    CutFold(ByAggregate(s.outbox, user), p, e, at, |some|);
  }

  lemma CutBreaks(s: Store, changes: seq<Change>, at: Time, kept: nat)
    requires changes != []
    requires Faithful(UpdateAll(s, changes[..|changes| - 1], at), changes[|changes| - 1].user)
    requires |UpdateAll(s, changes[..|changes| - 1], at).outbox| <= kept < |UpdateAll(s, changes, at).outbox|
    ensures var t := UpdateAll(s, changes, at);
            !Faithful(t.(outbox := t.outbox[..kept]), changes[|changes| - 1].user)
  {
    hide Update, Faithful;
    var c := changes[|changes| - 1];
    CutBreaksOne(UpdateAll(s, changes[..|changes| - 1], at), c.user, c.evidence, at, kept);
  }

  /** A delivery appends at most as many events as the outbox allows a handler, and changes at most the two
      profiles it names. */
  lemma {:induction false} DeliveryIsBounded(s: Store, e: MarketEvent, at: Time)
    ensures s.outbox <= Step(s, Deliver(e, at)).outbox
    ensures |Step(s, Deliver(e, at)).outbox| <= |s.outbox| + 4
    ensures |Changes(e)| <= 2 && (|Changes(e)| == 2 ==> Changes(e)[0].user != Changes(e)[1].user)
  {
    hide UpdateAll;
    UpdateAllAppends(s, Changes(e), at);
  }
}

/** The aggregate and the handlers as the objects that change. */
module TrustObjects {
  import opened Common
  import opened Trust
  import opened TrustStore

  class TrustAggregate {
    const user: UserId
    var score: int
    var level: VerificationLevel
    var transactions: nat
    var sales: nat
    var purchases: nat
    var trades: nat
    var openDisputes: nat
    var lost: nat
    var won: nat
    var received: nat
    var given: nat
    var lastActivity: Option<Time>
    const createdAt: Time
    var updatedAt: Time

    function Value(): Profile
      reads this
    {
      Profile(user, score, level, transactions, sales, purchases, trades, openDisputes, lost, won,
              received, given, lastActivity, createdAt, updatedAt)
    }

    /** A private copy of a stored profile. */
    constructor (p: Profile)
      ensures Value() == p
    {
      user, score, level := p.user, p.score, p.level;
      transactions, sales, purchases, trades := p.transactions, p.sales, p.purchases, p.trades;
      openDisputes, lost, won := p.openDisputes, p.lost, p.won;
      received, given := p.received, p.given;
      lastActivity, createdAt, updatedAt := p.lastActivity, p.createdAt, p.updatedAt;
    }

    method RefreshScore(at: Time) returns (events: seq<TrustEvent>)
      modifies this
      ensures (Value(), events) == Refresh(old(Value()), at)
    {
      hide RawScore;
      var previous := score;
      score := Calculate(Value(), at);
      lastActivity := Some(at);
      updatedAt := at;
      events := if previous == score then [] else [TrustScoreChanged(user, previous, score)];
    }

    method RecordTransaction(id: nat, role: TransactionRole, at: Time) returns (events: seq<TrustEvent>)
      modifies this
      ensures Some((Value(), events)) == Perform(old(Value()), Evidence.RecordTransaction(id, role), at)
    {
      transactions := transactions + 1;
      if role == Sale {
        sales := sales + 1;
      } else if role == Purchase {
        purchases := purchases + 1;
      } else {
        trades := trades + 1;
      }
      hide Calculate;
      var changed := RefreshScore(at);
      events := [TransactionRecorded(user, id, role)] + changed;
    }

    method RecordDispute(id: nat, outcome: DisputeOutcome, at: Time) returns (events: seq<TrustEvent>)
      modifies this
      ensures Some((Value(), events)) == Perform(old(Value()), Evidence.RecordDispute(id, outcome), at)
    {
      if outcome == Opened {
        openDisputes := openDisputes + 1;
      } else if outcome == Won {
        won := won + 1;
        openDisputes := Max(0, openDisputes - 1);
      } else {
        lost := lost + 1;
        openDisputes := Max(0, openDisputes - 1);
      }
      hide Calculate;
      var changed := RefreshScore(at);
      events := [DisputeRecorded(user, id, outcome)] + changed;
    }

    method RecordReview(id: nat, isReceived: bool, recommended: bool, at: Time) returns (events: seq<TrustEvent>)
      modifies this
      ensures Some((Value(), events)) == Perform(old(Value()), Evidence.RecordReview(id, isReceived, recommended), at)
    {
      if isReceived {
        received := received + 1;
      } else {
        given := given + 1;
      }
      hide Calculate;
      var changed := RefreshScore(at);
      events := [ReviewRecorded(user, id, isReceived, recommended)] + changed;
    }

    /** `None` where a level that is not higher is refused. */
    method GrantVerification(target: VerificationLevel, at: Time) returns (events: Option<seq<TrustEvent>>)
      modifies this
      ensures events.None? ==>
        Perform(old(Value()), Evidence.GrantVerification(target), at).None? && Value() == old(Value())
      ensures events.Some? ==>
        Some((Value(), events.value)) == Perform(old(Value()), Evidence.GrantVerification(target), at)
    {
      hide Calculate;
      if target.Rank() <= level.Rank() {
        return None;
      }
      level := target;
      var changed := RefreshScore(at);
      return Some([VerificationGranted(user, target)] + changed);
    }

    /** `None` where nothing is granted. */
    method RevokeVerification(at: Time) returns (events: Option<seq<TrustEvent>>)
      modifies this
      ensures events.None? ==> Perform(old(Value()), Evidence.RevokeVerification, at).None? && Value() == old(Value())
      ensures events.Some? ==>
        Some((Value(), events.value)) == Perform(old(Value()), Evidence.RevokeVerification, at)
    {
      hide Calculate;
      if level == Unverified {
        return None;
      }
      var previous := level;
      level := Unverified;
      var changed := RefreshScore(at);
      return Some([VerificationRevoked(user, previous)] + changed);
    }
  }

  class TrustEventHandlers {
    var profiles: map<UserId, Profile>
    var outbox: seq<TrustEvent>

    ghost function Model(): Store
      reads this
    {
      Store(profiles, outbox)
    }

    constructor ()
      ensures Model() == RunStore([])
    {
      profiles, outbox := map[], [];
    }

    method UpdateProfile(user: UserId, e: Evidence, at: Time)
      modifies this
      ensures Model() == Update(old(Model()), user, e, at)
    {
      hide Perform;
      var aggregate := new TrustAggregate(if user in profiles then profiles[user] else FreshProfile(user, at));
      var events: Option<seq<TrustEvent>>;
      match e {
        case RecordTransaction(id, role) =>
          var es := aggregate.RecordTransaction(id, role, at);
          events := Some(es);
        case RecordDispute(id, outcome) =>
          var es := aggregate.RecordDispute(id, outcome, at);
          events := Some(es);
        case RecordReview(id, isReceived, recommended) =>
          var es := aggregate.RecordReview(id, isReceived, recommended, at);
          events := Some(es);
        case GrantVerification(level) =>
          events := aggregate.GrantVerification(level, at);
        case RevokeVerification =>
          events := aggregate.RevokeVerification(at);
      }
      if events.Some? {
        profiles := profiles[user := aggregate.Value()];
        outbox := outbox + events.value;
      }
    }

    method TransactionCompleted(id: nat, seller: Option<UserId>, buyer: Option<UserId>,
                                participant: Option<UserId>, at: Time)
      modifies this
      ensures Model() ==
              Step(old(Model()), Deliver(MarketEvent.TransactionCompleted(id, seller, buyer, participant), at))
    {
      hide Update, UpdateAll;
      NoChange(Model(), at);
      var participants := [(seller, Sale), (buyer, Purchase)];
      var seen: set<UserId> := {};
      ghost var done: seq<Change> := [];
      for i := 0 to 2
        invariant Model() == UpdateAll(old(Model()), done, at)
        invariant seen == (if i >= 1 && seller.Some? then {seller.value} else {}) +
                          (if i == 2 && buyer.Some? then {buyer.value} else {})
        invariant done == (if i >= 1 then Once(seller, Evidence.RecordTransaction(id, Sale)) else []) +
                          (if i == 2 && buyer != seller
                           then Once(buyer, Evidence.RecordTransaction(id, Purchase)) else [])
      {
        var (user, role) := participants[i];
        if user.Some? && user.value !in seen {
          seen := seen + {user.value};
          UpdateProfile(user.value, Evidence.RecordTransaction(id, role), at);
          ghost var c := Change(user.value, Evidence.RecordTransaction(id, role));
          LastChange(old(Model()), done, c, at);
          done := done + [c];
        }
      }
      if seen == {} {
        if participant.Some? {
          UpdateProfile(participant.value, Evidence.RecordTransaction(id, Trade), at);
        }
        UpdateOnce(old(Model()), [], participant, Evidence.RecordTransaction(id, Trade), at);
      } else {
        assert seller.Some? || buyer.Some?;
      }
    }

    method ReviewSubmitted(id: nat, recommended: bool, author: Option<UserId>, recipient: Option<UserId>, at: Time)
      modifies this
      ensures Model() ==
              Step(old(Model()), Deliver(MarketEvent.ReviewSubmitted(id, recommended, author, recipient), at))
    {
      hide Update, UpdateAll;
      ghost var given := Once(author, Evidence.RecordReview(id, false, recommended));
      if author.Some? {
        UpdateProfile(author.value, Evidence.RecordReview(id, false, recommended), at);
      }
      UpdateOnce(old(Model()), [], author, Evidence.RecordReview(id, false, recommended), at);
      if recipient.Some? && recipient != author {
        UpdateProfile(recipient.value, Evidence.RecordReview(id, true, recommended), at);
      }
      UpdateOnce(old(Model()), given, recipient, Evidence.RecordReview(id, true, recommended), at);
      assert given + [] == given;
    }

    method DisputeResolved(id: nat, winner: Option<UserId>, loser: Option<UserId>, subject: Option<UserId>,
                           won: bool, at: Time)
      modifies this
      ensures Model() == Step(old(Model()), Deliver(MarketEvent.DisputeResolved(id, winner, loser, subject, won), at))
    {
      hide Update, UpdateAll;
      ghost var wins := Once(winner, Evidence.RecordDispute(id, Won));
      if winner.Some? {
        UpdateProfile(winner.value, Evidence.RecordDispute(id, Won), at);
      }
      UpdateOnce(old(Model()), [], winner, Evidence.RecordDispute(id, Won), at);
      if loser.Some? && loser != winner {
        UpdateProfile(loser.value, Evidence.RecordDispute(id, Lost), at);
      }
      UpdateOnce(old(Model()), wins, loser, Evidence.RecordDispute(id, Lost), at);
      assert wins + [] == wins;
      if winner.None? && loser.None? {
        var outcome := if won then Won else Lost;
        if subject.Some? {
          UpdateProfile(subject.value, Evidence.RecordDispute(id, outcome), at);
        }
        UpdateOnce(old(Model()), [], subject, Evidence.RecordDispute(id, outcome), at);
      }
    }
  }

  lemma UpdateOnce(s: Store, first: seq<Change>, user: Option<UserId>, e: Evidence, at: Time)
    ensures UpdateAll(s, first + Once(user, e), at) ==
            if user.Some? then Update(UpdateAll(s, first, at), user.value, e, at) else UpdateAll(s, first, at)
    ensures [] + Once(user, e) == Once(user, e) && UpdateAll(s, [], at) == s
  {
    if user.Some? {
      LastChange(s, first, Change(user.value, e), at);
    } else {
      assert first + [] == first;
    }
  }

  lemma NoChange(s: Store, at: Time)
    ensures UpdateAll(s, [], at) == s
  {
  }

  lemma LastChange(s: Store, changes: seq<Change>, c: Change, at: Time)
    ensures UpdateAll(s, changes + [c], at) == Update(UpdateAll(s, changes, at), c.user, c.evidence, at)
  {
    assert (changes + [c])[..|changes|] == changes;
  }
}
