/** With equal timestamps the order of transactions and reviews does not matter, whatever the profile was. */
module TrustOrder {
  import opened Common
  import opened Trust
  import TrustLaws

  function RunAt(p: Profile, es: seq<Evidence>, at: Time): Profile
  {
    if es == [] then p else After(RunAt(p, es[..|es| - 1], at), es[|es| - 1], at)
  }

  predicate IsDispute(e: Evidence) { e.RecordDispute? }
  predicate IsVerification(e: Evidence) { e.GrantVerification? || e.RevokeVerification? }
  predicate IsActivity(e: Evidence) { e.RecordTransaction? || e.RecordReview? }

  function Select(es: seq<Evidence>, p: Evidence -> bool): seq<Evidence>
  {
    if es == [] then []
    else Select(es[..|es| - 1], p) + if p(es[|es| - 1]) then [es[|es| - 1]] else []
  }

  lemma SelectSnoc(es: seq<Evidence>, e: Evidence, p: Evidence -> bool)
    ensures Select(es + [e], p) == if p(e) then Select(es, p) + [e] else Select(es, p)
  {
    assert (es + [e])[..|es|] == es;
  }

  // ---- Counting apart from scoring ----

  function Counted(p: Profile, e: Evidence): Profile
  {
    match Count(p, e)
    case None => p
    case Some(q) => q
  }

  /** The counters after a history: scores and times stay as they were. */
  function CountAll(p: Profile, es: seq<Evidence>): Profile
  {
    if es == [] then p else Counted(CountAll(p, es[..|es| - 1]), es[|es| - 1])
  }

  /** Some piece of the history is not refused. */
  predicate Any(p: Profile, es: seq<Evidence>)
  {
    es != [] &&
    (Any(p, es[..|es| - 1]) || Count(CountAll(p, es[..|es| - 1]), es[|es| - 1]).Some?)
  }

  lemma CountSnoc(p: Profile, es: seq<Evidence>, e: Evidence)
    ensures CountAll(p, es + [e]) == Counted(CountAll(p, es), e)
    ensures Any(p, es + [e]) <==> Any(p, es) || Count(CountAll(p, es), e).Some?
  {
    assert (es + [e])[..|es|] == es;
  }

  function Settle(p: Profile, at: Time): Profile
  {
    p.(score := Calculate(p, at), lastActivity := Some(at), updatedAt := at)
  }

  /** Counting and scoring read neither the old score nor the activity times. */
  lemma AfterSettled(p: Profile, e: Evidence, at: Time)
    ensures After(p, e, at) == if Count(p, e).Some? then Settle(Counted(p, e), at) else p
    ensures After(Settle(p, at), e, at) == if Count(p, e).Some? then Settle(Counted(p, e), at) else Settle(p, at)
  {
    hide Calculate;
    if Count(p, e).Some? {
      TrustLaws.ScoreReadsOnlyEvidence(Counted(p, e), Calculate(p, at), Some(at), at, at);
    }
  }

  /** A run at one instant counts everything and scores once, unless everything is refused. */
  lemma {:induction false} RunIsSettled(p: Profile, es: seq<Evidence>, at: Time)
    ensures RunAt(p, es, at) == if Any(p, es) then Settle(CountAll(p, es), at) else p
    ensures !Any(p, es) ==> CountAll(p, es) == p
  {
    if es != [] {
      RunIsSettled(p, es[..|es| - 1], at);
      hide Settle, After, Count;
      AfterSettled(CountAll(p, es[..|es| - 1]), es[|es| - 1], at);
    }
  }

  // ---- The three kinds of evidence do not touch each other ----

  /** Dispute counters from `d` and the level from `v`. */
  function Merged(a: Profile, d: Profile, v: Profile): Profile
  {
    a.(openDisputes := d.openDisputes, won := d.won, lost := d.lost, level := v.level)
  }

  /** A count is determined by its three projections, and so is whether anything was accepted. */
  ghost predicate Decomposes(p: Profile, es: seq<Evidence>)
  {
    var a, d, v := Select(es, IsActivity), Select(es, IsDispute), Select(es, IsVerification);
    && CountAll(p, es) == Merged(CountAll(p, a), CountAll(p, d), CountAll(p, v))
    && (Any(p, es) <==> Any(p, a) || Any(p, d) || Any(p, v))
  }

  lemma DecomposeStep(p: Profile, prefix: seq<Evidence>, e: Evidence)
    requires Decomposes(p, prefix)
    ensures Decomposes(p, prefix + [e])
  {
    hide CountAll, Any, Select;
    var a, d, v := Select(prefix, IsActivity), Select(prefix, IsDispute), Select(prefix, IsVerification);
    SelectSnoc(prefix, e, IsActivity);
    SelectSnoc(prefix, e, IsDispute);
    SelectSnoc(prefix, e, IsVerification);
    CountSnoc(p, prefix, e);
    CountSnoc(p, a, e);
    CountSnoc(p, d, e);
    CountSnoc(p, v, e);
  }

  lemma {:induction false} CountDecomposes(p: Profile, es: seq<Evidence>)
    ensures Decomposes(p, es)
  {
    if es == [] {
      assert Merged(p, p, p) == p;
    } else {
      hide *;
      CountDecomposes(p, es[..|es| - 1]);
      DecomposeStep(p, es[..|es| - 1], es[|es| - 1]);
      assert es == es[..|es| - 1] + [es[|es| - 1]];
    }
  }

  // ---- Activities commute ----

  ghost predicate AllActivities(es: seq<Evidence>)
  {
    forall e :: e in es ==> IsActivity(e)
  }

  lemma ActivitiesCommute(p: Profile, x: Evidence, y: Evidence)
    requires IsActivity(x) && IsActivity(y)
    ensures Counted(Counted(p, x), y) == Counted(Counted(p, y), x)
  {
  }

  /** One activity may be moved past all later ones. */
  lemma {:induction false} MoveToEnd(p: Profile, l: seq<Evidence>, x: Evidence, r: seq<Evidence>)
    requires AllActivities(l + [x] + r)
    ensures CountAll(p, l + [x] + r) == CountAll(p, l + r + [x])
    decreases |r|
  {
    hide Counted, CountAll;
    if r == [] {
      assert l + [x] + r == l + r + [x];
    } else {
      var r', y := r[..|r| - 1], r[|r| - 1];
      assert l + [x] + r == (l + [x] + r') + [y] && l + r + [x] == (l + r' + [y]) + [x];
      assert y in l + [x] + r && x in l + [x] + r;
      assert forall e :: e in l + [x] + r' ==> e in l + [x] + r;
      MoveToEnd(p, l, x, r');
      CountSnoc(p, l + [x] + r', y);
      CountSnoc(p, l + r', x);
      CountSnoc(p, l + r', y);
      CountSnoc(p, l + r' + [y], x);
      ActivitiesCommute(CountAll(p, l + r'), x, y);
    }
  }

  lemma RemoveOne(a: seq<Evidence>, x: Evidence, l: seq<Evidence>, r: seq<Evidence>)
    requires multiset(a + [x]) == multiset(l + [x] + r)
    ensures multiset(a) == multiset(l + r)
  {
    assert multiset(a + [x]) == multiset(a) + multiset{x};
    assert multiset(l + [x] + r) == multiset(l + r) + multiset{x};
    assert multiset(a) == multiset(a + [x]) - multiset{x};
  }

  lemma {:induction false} PermutedActivities(p: Profile, a: seq<Evidence>, b: seq<Evidence>)
    requires AllActivities(a) && AllActivities(b) && multiset(a) == multiset(b)
    ensures CountAll(p, a) == CountAll(p, b)
    decreases |a|
  {
    hide CountAll, Counted;
    if a == [] {
      assert |b| == |multiset(b)| == 0;
    } else {
      var a', x := a[..|a| - 1], a[|a| - 1];
      assert a == a' + [x];
      assert x in multiset(b);
      var j :| 0 <= j < |b| && b[j] == x;
      var l, r := b[..j], b[j + 1..];
      assert b == l + [x] + r;
      RemoveOne(a', x, l, r);
      MoveToEnd(p, l, x, r);
      PermutedActivities(p, a', l + r);
      CountSnoc(p, a', x);
      CountSnoc(p, l + r, x);
    }
  }

  lemma {:induction false} SelectKeeps(es: seq<Evidence>, p: Evidence -> bool)
    ensures forall e :: e in Select(es, p) ==> p(e)
  {
    if es != [] {
      SelectKeeps(es[..|es| - 1], p);
    }
  }

  lemma ActivitiesAreAccepted(p: Profile, es: seq<Evidence>)
    requires AllActivities(es)
    ensures Any(p, es) <==> es != []
  {
    assert es != [] ==> es[|es| - 1] in es;
  }

  /** From any profile, two histories at one instant with the same disputes in the same order, the same
      verifications in the same order, and the same transactions and reviews in any order and interleaving,
      leave the same aggregate: every counter, the level, the score and the activity times. */
  lemma {:induction false} OnlyDisputesAndVerificationsAreOrdered(
    p: Profile, a: seq<Evidence>, b: seq<Evidence>, at: Time)
    requires Select(a, IsDispute) == Select(b, IsDispute)
    requires Select(a, IsVerification) == Select(b, IsVerification)
    requires multiset(Select(a, IsActivity)) == multiset(Select(b, IsActivity))
    ensures RunAt(p, a, at) == RunAt(p, b, at)
  {
    CountDecomposes(p, a);
    CountDecomposes(p, b);
    SelectKeeps(a, IsActivity);
    SelectKeeps(b, IsActivity);
    PermutedActivities(p, Select(a, IsActivity), Select(b, IsActivity));
    ActivitiesAreAccepted(p, Select(a, IsActivity));
    ActivitiesAreAccepted(p, Select(b, IsActivity));
    assert |multiset(Select(a, IsActivity))| == |multiset(Select(b, IsActivity))|;
    RunIsSettled(p, a, at);
    RunIsSettled(p, b, at);
  }
}
