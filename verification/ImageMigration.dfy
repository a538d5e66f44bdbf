/** The start-up migration that renumbers the images of every listing before the unique index is made. */
module ImageMigration {
  import opened Common
  import opened Sorting

  type Id = nat

  /** Rows written before the column existed have no position. */
  datatype Row = Row(id: Id, listing: Id, position: Option<int>)

  /** By listing, then rows without a position last, then by position; ties stay in rowid order. */
  predicate Le(a: Row, b: Row)
  {
    || a.listing < b.listing
    || (a.listing == b.listing &&
        (b.position.None? || (a.position.Some? && a.position.value <= b.position.value)))
  }

  lemma LeIsTotal()
    ensures TotalPreorder(Le)
  {
  }

  /** Rows without a position never clash. */
  ghost predicate UniqueIndex(rows: map<Id, Row>)
  {
    forall a, b :: a in rows && b in rows && a != b && rows[a].listing == rows[b].listing && rows[a].position.Some? ==>
      rows[a].position != rows[b].position
  }

  predicate Clash(rows: map<Id, Row>, id: Id, position: int)
  {
    id in rows &&
    exists x :: x in rows && x != id && rows[x].listing == rows[id].listing && rows[x].position == Some(position)
  }

  ghost predicate Table(rows: map<Id, Row>, rowids: seq<Id>)
  {
    && Distinct(rowids)
    && (forall id :: id in rowids <==> id in rows)
    && (forall id :: id in rows ==> rows[id].id == id)
  }

  /** `s` holds every row once. */
  ghost predicate Enumerates(rows: map<Id, Row>, s: seq<Row>)
  {
    && (forall id :: id in rows ==> rows[id].id == id)
    && (forall i, j :: 0 <= i < j < |s| ==> s[i].id != s[j].id)
    && (forall i :: 0 <= i < |s| ==> s[i].id in rows && rows[s[i].id] == s[i])
    && (forall id :: id in rows ==> rows[id] in s)
  }

  function Scan(rows: map<Id, Row>, rowids: seq<Id>): seq<Row>
    requires forall id :: id in rowids ==> id in rows
  {
    seq(|rowids|, i requires 0 <= i < |rowids| => assert rowids[i] in rowids; rows[rowids[i]])
  }

  lemma SortedScan(rows: map<Id, Row>, rowids: seq<Id>)
    requires Table(rows, rowids)
    ensures var s := Sort(Scan(rows, rowids), Le); SortedBy(s, Le) && Enumerates(rows, s)
  {
    var t := Scan(rows, rowids);
    ScanHolds(rows, rowids);
    LeIsTotal();
    SortSorts(t, Le);
    SortKeepsDistinct(t, Le);
    hide Sort, Scan, SortedBy, TotalPreorder, Le, Table, Enumerates;
    HoldsEnumerates(rows, Sort(t, Le));
  }

  /** `s` holds the rows, each once. */
  ghost predicate Holds(rows: map<Id, Row>, s: seq<Row>)
  {
    && Distinct(s)
    && (forall id :: id in rows ==> rows[id].id == id && rows[id] in s)
    && (forall r :: r in s ==> r.id in rows && rows[r.id] == r)
  }

  lemma ScanHolds(rows: map<Id, Row>, rowids: seq<Id>)
    requires Table(rows, rowids)
    ensures Holds(rows, Scan(rows, rowids))
  {
    var t := Scan(rows, rowids);
    forall i | 0 <= i < |rowids| ensures rowids[i] in rows && t[i] == rows[rowids[i]] && t[i].id == rowids[i] {
      assert rowids[i] in rowids;
    }
    forall id | id in rows ensures rows[id] in t {
      var i :| 0 <= i < |rowids| && rowids[i] == id;
      assert t[i] in t;
    }
  }

  lemma HoldsEnumerates(rows: map<Id, Row>, s: seq<Row>)
    requires Holds(rows, s)
    ensures Enumerates(rows, s)
  {
    forall i | 0 <= i < |s| ensures s[i].id in rows && rows[s[i].id] == s[i] {
      assert s[i] in s;
    }
  }

  // ---- Rank within a listing ----

  function Group(s: seq<Row>, l: Id): seq<Row>
  {
    Filter(s, (r: Row) => r.listing == l)
  }

  lemma GroupSnoc(s: seq<Row>, k: nat, l: Id)
    requires k < |s|
    ensures Group(s[..k + 1], l) == Group(s[..k], l) + (if s[k].listing == l then [s[k]] else [])
  {
    assert s[..k + 1] == s[..k] + [s[k]];
    FilterSnoc(s[..k], s[k], (r: Row) => r.listing == l);
  }

  /** How many rows of the same listing there are up to and including row `k`. */
  function Rank(s: seq<Row>, k: nat): nat
    requires k < |s|
  {
    |Group(s[..k + 1], s[k].listing)|
  }

  lemma ListingsAscend(s: seq<Row>, i: nat, j: nat)
    requires SortedBy(s, Le) && i <= j < |s|
    ensures s[i].listing <= s[j].listing
  {
    assert i < j ==> Le(s[i], s[j]);
  }

  /** In listing order, the loop's counter is the rank. */
  lemma {:induction false} RankStep(s: seq<Row>, k: nat)
    requires SortedBy(s, Le) && k < |s|
    ensures Rank(s, k) ==
            if k > 0 && s[k - 1].listing == s[k].listing then Rank(s, k - 1) + 1 else 1
  {
    var l := s[k].listing;
    GroupSnoc(s, k, l);
    if k == 0 {
      assert s[..k] == [];
    } else if s[k - 1].listing != l {
      FilterMembers(s[..k], (r: Row) => r.listing == l);
      forall i | 0 <= i < k ensures s[i].listing != l {
        ListingsAscend(s, i, k - 1);
        ListingsAscend(s, k - 1, k);
      }
      var earlier := Group(s[..k], l);
      EmptyOrMember(earlier);
    }
  }

  lemma {:induction false} CountGrows(s: seq<Row>, i: nat, j: nat, l: Id)
    requires i <= j <= |s|
    ensures |Group(s[..i], l)| <= |Group(s[..j], l)|
  {
    if i < j {
      CountGrows(s, i, j - 1, l);
      GroupSnoc(s, j - 1, l);
    }
  }

  lemma RankIncreases(s: seq<Row>, i: nat, j: nat)
    requires i < j < |s| && s[i].listing == s[j].listing
    ensures Rank(s, i) < Rank(s, j)
  {
    CountGrows(s, i + 1, j, s[j].listing);
    GroupSnoc(s, j, s[j].listing);
  }

  lemma {:induction false} GroupByRank(s: seq<Row>, n: nat, l: Id, k: nat) returns (j: nat)
    requires 0 < n <= |s| && k < |Group(s[..n], l)|
    ensures j < n && s[j] == Group(s[..n], l)[k] && s[j].listing == l && Rank(s, j) == k + 1
  {
    GroupSnoc(s, n - 1, l);
    assert n == 1 ==> s[..n - 1] == [];
    if k < |Group(s[..n - 1], l)| {
      j := GroupByRank(s, n - 1, l, k);
    } else {
      j := n - 1;
    }
  }

  // ---- The loop ----

  /** The first `k` rows of `s` have their rank as position, the others are as they were. */
  ghost predicate Progress(rows: map<Id, Row>, s: seq<Row>, k: nat)
    requires k <= |s|
  {
    && (forall id :: id in rows ==> exists i :: 0 <= i < |s| && s[i].id == id)
    && (forall i :: 0 <= i < |s| ==>
          s[i].id in rows && rows[s[i].id] == if i < k then s[i].(position := Some(Rank(s, i))) else s[i])
  }

  lemma ProgressStarts(rows: map<Id, Row>, s: seq<Row>)
    requires Enumerates(rows, s)
    ensures Progress(rows, s, 0)
  {
    forall id | id in rows ensures exists i :: 0 <= i < |s| && s[i].id == id {
      assert rows[id] in s;
      var i :| 0 <= i < |s| && s[i] == rows[id];
      assert s[i].id == id;
    }
  }

  lemma ProgressStep(rows: map<Id, Row>, s: seq<Row>, k: nat)
    requires k < |s| && Progress(rows, s, k) && forall i, j :: 0 <= i < j < |s| ==> s[i].id != s[j].id
    ensures s[k].id in rows
    ensures Progress(rows[s[k].id := rows[s[k].id].(position := Some(Rank(s, k)))], s, k + 1)
  {
    ProgressAt(rows, s, k, k);
    var after := rows[s[k].id := rows[s[k].id].(position := Some(Rank(s, k)))];
    hide Rank, Progress;
    forall id | id in after ensures exists i :: 0 <= i < |s| && s[i].id == id {
      var i := ProgressCovers(rows, s, k, id);
    }
    forall i | 0 <= i < |s|
      ensures s[i].id in after
      ensures after[s[i].id] == if i < k + 1 then s[i].(position := Some(Rank(s, i))) else s[i]
    {
      ProgressAt(rows, s, k, i);
      assert i != k ==> s[i].id != s[k].id;
    }
    ProgressIs(after, s, k + 1);
  }

  lemma ProgressAt(rows: map<Id, Row>, s: seq<Row>, k: nat, i: nat)
    requires k <= |s| && i < |s| && Progress(rows, s, k)
    ensures s[i].id in rows && rows[s[i].id] == if i < k then s[i].(position := Some(Rank(s, i))) else s[i]
  {
  }

  lemma ProgressCovers(rows: map<Id, Row>, s: seq<Row>, k: nat, id: Id) returns (i: nat)
    requires k <= |s| && Progress(rows, s, k) && id in rows
    ensures i < |s| && s[i].id == id
  {
    i :| 0 <= i < |s| && s[i].id == id;
  }

  lemma ProgressIs(rows: map<Id, Row>, s: seq<Row>, k: nat)
    requires k <= |s|
    requires forall id :: id in rows ==> exists i :: 0 <= i < |s| && s[i].id == id
    requires forall i :: 0 <= i < |s| ==>
               s[i].id in rows && rows[s[i].id] == if i < k then s[i].(position := Some(Rank(s, i))) else s[i]
    ensures Progress(rows, s, k)
  {
  }

  /** A later row of the same listing sits exactly where row `k` has to go. */
  predicate Blocked(s: seq<Row>, k: nat)
    requires k < |s|
  {
    exists j :: k < j < |s| && s[j].listing == s[k].listing && s[j].position == Some(Rank(s, k))
  }

  lemma ClashIffBlocked(rows: map<Id, Row>, s: seq<Row>, k: nat)
    requires k < |s| && Progress(rows, s, k) && forall i, j :: 0 <= i < j < |s| ==> s[i].id != s[j].id
    ensures Clash(rows, s[k].id, Rank(s, k)) <==> Blocked(s, k)
  {
    hide Rank;
    if Clash(rows, s[k].id, Rank(s, k)) {
      var x :| x in rows && x != s[k].id && rows[x].listing == s[k].listing && rows[x].position == Some(Rank(s, k));
      var j :| 0 <= j < |s| && s[j].id == x;
      if j < k {
        RankIncreases(s, j, k);
      }
    }
    if Blocked(s, k) {
      var j :| k < j < |s| && s[j].listing == s[k].listing && s[j].position == Some(Rank(s, k));
      assert rows[s[j].id] == s[j];
    }
  }

  /** Whether the loop gets through while the index exists. */
  predicate Steady(s: seq<Row>)
  {
    SteadyTo(s, |s|)
  }

  predicate SteadyTo(s: seq<Row>, k: nat)
    requires k <= |s|
  {
    forall i :: 0 <= i < k ==> !Blocked(s, i)
  }

  /** One round of the loop: its counter is the rank, and it fails exactly where it is blocked. */
  lemma LoopStep(before: map<Id, Row>, rows: map<Id, Row>, s: seq<Row>, k: nat)
    requires Enumerates(before, s) && SortedBy(s, Le) && k < |s| && Progress(rows, s, k)
    ensures Rank(s, k) == if k > 0 && s[k - 1].listing == s[k].listing then Rank(s, k - 1) + 1 else 1
    ensures Clash(rows, s[k].id, Rank(s, k)) ==> !Steady(s)
    ensures !Clash(rows, s[k].id, Rank(s, k)) && SteadyTo(s, k) ==> SteadyTo(s, k + 1)
    ensures s[k].id in rows
    ensures Progress(rows[s[k].id := rows[s[k].id].(position := Some(Rank(s, k)))], s, k + 1)
  {
    hide Rank, Progress, Clash, Blocked, SortedBy;
    RankStep(s, k);
    ClashIffBlocked(rows, s, k);
    ProgressStep(rows, s, k);
  }

  /** The images of a listing are numbered from one, in the order of `ids`. */
  ghost predicate NumberedAs(rows: map<Id, Row>, l: Id, ids: seq<Id>)
  {
    && (forall k :: 0 <= k < |ids| ==>
          ids[k] in rows && rows[ids[k]].listing == l && rows[ids[k]].position == Some(k + 1))
    && (forall id :: id in rows && rows[id].listing == l ==> id in ids)
  }

  function Ids(s: seq<Row>): seq<Id>
  {
    seq(|s|, i requires 0 <= i < |s| => s[i].id)
  }

  lemma EndsNumbered(rows: map<Id, Row>, s: seq<Row>, l: Id)
    requires Progress(rows, s, |s|)
    ensures NumberedAs(rows, l, Ids(Group(s, l)))
  {
    hide Rank, Group, Progress;
    var group := Group(s, l);
    forall k | 0 <= k < |group|
      ensures group[k].id in rows && rows[group[k].id].listing == l && rows[group[k].id].position == Some(k + 1)
    {
      AtItsRank(rows, s, l, k);
    }
    forall id | id in rows && rows[id].listing == l ensures id in Ids(group) {
      var k := Grouped(rows, s, l, id);
      assert Ids(group)[k] == id;
    }
  }

  lemma AtItsRank(rows: map<Id, Row>, s: seq<Row>, l: Id, k: nat)
    requires Progress(rows, s, |s|) && k < |Group(s, l)|
    ensures var id := Group(s, l)[k].id; id in rows && rows[id].listing == l && rows[id].position == Some(k + 1)
  {
    hide Rank;
    assert s[..|s|] == s;
    var j := GroupByRank(s, |s|, l, k);
  }

  lemma Grouped(rows: map<Id, Row>, s: seq<Row>, l: Id, id: Id) returns (k: nat)
    requires Progress(rows, s, |s|) && id in rows && rows[id].listing == l
    ensures k < |Group(s, l)| && Group(s, l)[k].id == id
  {
    hide Rank;
    var i :| 0 <= i < |s| && s[i].id == id;
    FilterMembers(s, (r: Row) => r.listing == l);
    assert s[i] in Group(s, l);
    k :| 0 <= k < |Group(s, l)| && Group(s, l)[k] == s[i];
  }

  /** Numbered listings satisfy the index, so it can be created. */
  lemma NumberedIsUnique(rows: map<Id, Row>, s: seq<Row>)
    requires Progress(rows, s, |s|)
    ensures UniqueIndex(rows)
  {
    hide Rank;
    forall a, b | a in rows && b in rows && a != b && rows[a].listing == rows[b].listing
      ensures rows[a].position != rows[b].position
    {
      var i :| 0 <= i < |s| && s[i].id == a;
      var j :| 0 <= j < |s| && s[j].id == b;
      if i < j {
        RankIncreases(s, i, j);
      } else {
        RankIncreases(s, j, i);
      }
    }
  }

  /** What stood strictly before still stands before. */
  ghost predicate KeepsOrder(before: map<Id, Row>, rows: map<Id, Row>)
  {
    && rows.Keys == before.Keys
    && (forall id :: id in rows ==>
          rows[id] == before[id].(position := rows[id].position) && rows[id].position.Some?)
    && (forall a, b :: a in rows && b in rows && rows[a].listing == rows[b].listing && Earlier(before[a], before[b]) ==>
          rows[a].position.value < rows[b].position.value)
  }

  /** A lower position, or any position where the other has none. */
  predicate Earlier(a: Row, b: Row)
  {
    a.position.Some? && (b.position.None? || a.position.value < b.position.value)
  }

  lemma EarlierIsStrict(a: Row, b: Row)
    ensures a.listing == b.listing && Earlier(a, b) ==> !Le(b, a)
  {
  }

  lemma EndsInOrder(before: map<Id, Row>, rows: map<Id, Row>, s: seq<Row>)
    requires Enumerates(before, s) && SortedBy(s, Le) && Progress(rows, s, |s|)
    ensures KeepsOrder(before, rows)
  {
    hide Rank, Le, Progress, SortedBy;
    SameIds(before, rows, s);
    forall id | id in rows
      ensures rows[id] == before[id].(position := rows[id].position) && rows[id].position.Some?
    {
      var i := EndsAt(before, rows, s, id);
    }
    forall a, b | a in rows && b in rows && rows[a].listing == rows[b].listing && Earlier(before[a], before[b])
      ensures rows[a].position.value < rows[b].position.value
    {
      EarlierIsStrict(before[a], before[b]);
      StaysBefore(before, rows, s, a, b);
    }
  }

  lemma SameIds(before: map<Id, Row>, rows: map<Id, Row>, s: seq<Row>)
    requires Enumerates(before, s) && Progress(rows, s, |s|)
    ensures rows.Keys == before.Keys
  {
    hide Rank;
    forall id ensures id in rows <==> id in before {
      if id in before {
        assert before[id] in s;
        var i :| 0 <= i < |s| && s[i] == before[id];
      }
    }
  }

  lemma EndsAt(before: map<Id, Row>, rows: map<Id, Row>, s: seq<Row>, id: Id) returns (i: nat)
    requires Enumerates(before, s) && Progress(rows, s, |s|) && id in rows
    ensures i < |s| && id in before && s[i] == before[id] && rows[id] == s[i].(position := Some(Rank(s, i)))
  {
    i := ProgressCovers(rows, s, |s|, id);
    ProgressAt(rows, s, |s|, i);
  }

  lemma StaysBefore(before: map<Id, Row>, rows: map<Id, Row>, s: seq<Row>, a: Id, b: Id)
    requires Enumerates(before, s) && SortedBy(s, Le) && Progress(rows, s, |s|)
    requires a in rows && b in rows && a in before && b in before
    requires rows[a].listing == rows[b].listing && !Le(before[b], before[a])
    ensures rows[a].position.Some? && rows[b].position.Some? && rows[a].position.value < rows[b].position.value
  {
    hide Rank, Le, Progress, Enumerates;
    var i := EndsAt(before, rows, s, a);
    var j := EndsAt(before, rows, s, b);
    Reflexive(before[a]);
    if i < j {
      RankIncreases(s, i, j);
    }
  }

  lemma EndsPositive(rows: map<Id, Row>, s: seq<Row>)
    requires Progress(rows, s, |s|)
    ensures Positive(rows)
  {
    hide Rank;
    forall id | id in rows ensures rows[id].position.Some? ==> rows[id].position.value >= 1 {
      var i :| 0 <= i < |s| && s[i].id == id;
      RankIsPositive(s, i);
    }
  }

  lemma RankIsPositive(s: seq<Row>, k: nat)
    requires k < |s|
    ensures Rank(s, k) >= 1
  {
    GroupSnoc(s, k, s[k].listing);
  }

  lemma Reflexive(r: Row)
    ensures Le(r, r)
  {
  }

  class Database {
    var rows: map<Id, Row>
    var rowids: seq<Id>
    var unique: bool

    ghost predicate Valid()
      reads this
    {
      Table(rows, rowids) && (unique ==> UniqueIndex(rows))
    }

    constructor (rows: map<Id, Row>, rowids: seq<Id>, unique: bool)
      requires Table(rows, rowids) && (unique ==> UniqueIndex(rows))
      ensures Valid() && this.rows == rows && this.rowids == rowids && this.unique == unique
    {
      this.rows, this.rowids, this.unique := rows, rowids, unique;
    }

    /** Fails exactly when the index already exists and a row is in the way of an earlier one. */
    method NormalizeListingImagePositions() returns (ok: bool)
      requires Valid()
      modifies this`rows
      ensures ok <==> !unique || Steady(Sort(Scan(old(rows), rowids), Le))
      ensures ok ==> Valid() && UniqueIndex(rows) && KeepsOrder(old(rows), rows) && Positive(rows)
      ensures ok ==> forall l :: NumberedAs(rows, l, Ids(Group(Sort(Scan(old(rows), rowids), Le), l)))
    {
      hide Scan, Rank, Progress, Clash, Blocked, UniqueIndex, KeepsOrder, Positive, SortedBy, NumberedAs, Ids, Group;
      hide Enumerates, Sort;
      SortedScan(rows, rowids);
      var s := Sort(Scan(rows, rowids), Le);
      var currentListing: Option<Id> := None;
      var nextPosition := 0;
      ProgressStarts(rows, s);
      for k := 0 to |s|
        invariant Progress(rows, s, k)
        invariant k > 0 ==> currentListing == Some(s[k - 1].listing) && nextPosition == Rank(s, k - 1)
        invariant k == 0 ==> currentListing == None
        invariant unique ==> SteadyTo(s, k)
      {
        LoopStep(old(rows), rows, s, k);
        if currentListing != Some(s[k].listing) {
          currentListing := Some(s[k].listing);
          nextPosition := 1;
        } else {
          nextPosition := nextPosition + 1;
        }
        if unique && Clash(rows, s[k].id, nextPosition) {
          return false;
        }
        rows := rows[s[k].id := rows[s[k].id].(position := Some(nextPosition))];
      }
      Finishes(old(rows), rows, rowids, s);
      return true;
    }

    /** The migration: renumber, then make sure that the index exists. After it has run once, every later
        start gets through. */
    method MigrateListingImagesSchema() returns (ok: bool)
      requires Valid()
      modifies this
      ensures ok <==> !old(unique) || Steady(Sort(Scan(old(rows), old(rowids)), Le))
      ensures ok ==> Valid() && unique && rowids == old(rowids) && KeepsOrder(old(rows), rows) && Positive(rows)
      ensures ok ==> Steady(Sort(Scan(rows, rowids), Le))
    {
      hide Scan, Steady, Group, KeepsOrder, Positive, UniqueIndex;
      ok := NormalizeListingImagePositions();
      if ok {
        unique := true;
        RestartIsSteady(rows, rowids);
      }
    }
  }

  /** What the whole loop leaves. */
  lemma Finishes(before: map<Id, Row>, rows: map<Id, Row>, rowids: seq<Id>, s: seq<Row>)
    requires Table(before, rowids) && Enumerates(before, s) && SortedBy(s, Le) && Progress(rows, s, |s|)
    ensures Table(rows, rowids) && UniqueIndex(rows) && KeepsOrder(before, rows) && Positive(rows)
    ensures forall l :: NumberedAs(rows, l, Ids(Group(s, l)))
  {
    hide Progress, Enumerates, SortedBy, Table, KeepsOrder, UniqueIndex, Positive, NumberedAs, Ids;
    NumberedIsUnique(rows, s);
    EndsInOrder(before, rows, s);
    EndsPositive(rows, s);
    OrderKeepsTable(before, rows, rowids);
    forall l ensures NumberedAs(rows, l, Ids(Group(s, l))) {
      EndsNumbered(rows, s, l);
    }
  }

  lemma OrderKeepsTable(before: map<Id, Row>, rows: map<Id, Row>, rowids: seq<Id>)
    requires KeepsOrder(before, rows) && Table(before, rowids)
    ensures Table(rows, rowids)
  {
  }

  ghost predicate Positive(rows: map<Id, Row>)
  {
    forall id :: id in rows && rows[id].position.Some? ==> rows[id].position.value >= 1
  }

  /** On every later start the index exists. The loop then still gets through when no stored position is
      below one: a row never sits below its own rank. */
  lemma {:induction false} RestartIsSteady(rows: map<Id, Row>, rowids: seq<Id>)
    requires Table(rows, rowids) && UniqueIndex(rows) && Positive(rows)
    ensures Steady(Sort(Scan(rows, rowids), Le))
  {
    var s := Sort(Scan(rows, rowids), Le);
    SortedScan(rows, rowids);
    hide Sort, Scan, Rank, Le, SortedBy;
    forall k | 0 <= k < |s| ensures !Blocked(s, k) {
      forall j | k < j < |s| && s[j].listing == s[k].listing ensures s[j].position != Some(Rank(s, k)) {
        RankIncreases(s, k, j);
        AtLeastRank(rows, s, j);
      }
    }
  }

  lemma {:induction false} AtLeastRank(rows: map<Id, Row>, s: seq<Row>, j: nat)
    requires Enumerates(rows, s) && UniqueIndex(rows) && Positive(rows) && SortedBy(s, Le) && j < |s|
    ensures s[j].position.Some? ==> s[j].position.value >= Rank(s, j)
  {
    hide Rank;
    RankStep(s, j);
    if j > 0 && s[j - 1].listing == s[j].listing {
      AtLeastRank(rows, s, j - 1);
      assert Le(s[j - 1], s[j]);
      assert s[j - 1].id != s[j].id && rows[s[j - 1].id] == s[j - 1] && rows[s[j].id] == s[j];
    } else {
      assert rows[s[j].id] == s[j];
    }
  }

  /** Below one it can fail: a row at 0 has to go to 1, where the next row still is. The program stores no
      such position and the migration leaves none, so this takes a table that something else wrote. */
  method StartBelowOne(l: Id) returns (ok: bool)
    ensures !ok
  {
    var a, b := Row(0, l, Some(0)), Row(1, l, Some(1));
    var rows := map[0 := a, 1 := b];
    NotSteady(rows, a, b);
    var database := new Database(rows, [0, 1], true);
    ok := database.NormalizeListingImagePositions();
  }

  lemma NotSteady(rows: map<Id, Row>, a: Row, b: Row)
    requires a.id == 0 && b.id == 1 && a.listing == b.listing && a.position == Some(0) && b.position == Some(1)
    requires rows == map[0 := a, 1 := b]
    ensures Table(rows, [0, 1]) && UniqueIndex(rows) && !Steady(Sort(Scan(rows, [0, 1]), Le))
  {
    assert Scan(rows, [0, 1]) == [a, b];
    assert [a, b][..1] == [a] && [a][..0] == [];
    assert Sort([a], Le) == [a];
    assert Sort([a, b], Le) == [a, b];
    GroupSnoc([a, b], 0, a.listing);
    assert [a, b][..0] == [];
    assert Rank([a, b], 0) == 1;
    assert Blocked([a, b], 0);
  }
}
