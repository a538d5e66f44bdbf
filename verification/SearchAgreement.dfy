/** The search route over either backend, and when both give the same listings. */
module SearchAgreement {
  import opened Common
  import opened Sorting
  import opened ListingIndex
  import opened Search

  function All(t: Table): seq<Listing>
    requires t.Valid()
  {
    seq(|t.order|, i requires 0 <= i < |t.order| => assert t.order[i] in t.order; t.rows[t.order[i]])
  }

  function OfSeller(s: seq<Listing>, seller: Option<Id>): seq<Listing>
  {
    Filter(s, (l: Listing) => seller.Some? ==> l.seller == seller.value)
  }

  function MemoryResults(lower: Lower, t: Table, f: Filters): seq<Listing>
    requires t.Valid()
  {
    OfSeller(Sort(Scanned(lower, f.query, All(t)), NewestFirst), f.seller)
  }

  function Selected(fts: FullText, f: Filters, index: seq<Listing>): seq<Listing>
  {
    Filter(index, (r: Listing) => Selects(fts, f, r))
  }

  /** The stored listings of the selected index rows; a row without a listing is skipped. */
  function LookedUp(t: Table, rows: seq<Listing>): seq<Listing>
  {
    if rows == [] then []
    else
      var id := rows[|rows| - 1].id;
      LookedUp(t, rows[..|rows| - 1]) + (if id in t.rows then [t.rows[id]] else [])
  }

  /** The slice of the answer that is returned. */
  function Page<T>(s: seq<T>, offset: nat, limit: nat): (page: seq<T>)
    ensures |page| == (if |s| <= offset then 0 else if |s| - offset < limit then |s| - offset else limit)
    ensures forall k :: 0 <= k < |page| ==> page[k] == s[offset + k]
  {
    s[Min(offset, |s|)..Min(offset + limit, |s|)]
  }

  method SearchByScan(lower: Lower, t: Table, f: Filters, offset: nat, limit: nat)
    returns (r: Result<seq<Listing>, SearchError>)
    requires t.Valid()
    ensures r == if Inverted(f.query) then Err(InvalidPriceRange)
                 else Ok(Page(MemoryResults(lower, t, f), offset, limit))
  {
    var listings: seq<Listing> := [];
    for i := 0 to |t.order|
      invariant listings == All(t)[..i]
    {
      assert t.order[i] in t.order;
      listings := listings + [t.rows[t.order[i]]];
    }
    assert listings == All(t);
    r := SearchListings(lower, listings, f.query);
    if r.Ok? {
      r := Ok(Page(OfSeller(r.value, f.seller), offset, limit));
    }
  }

  /** The whole second that `datetime` makes of a time, however it rounds, and the rank `bm25` gives. */
  type Clock = int -> int
  type Rank = (string, Listing) -> real

  ghost predicate Monotone(clock: Clock)
  {
    forall a, b :: a <= b ==> clock(a) <= clock(b)
  }

  /** The `ORDER BY` of the statement: by rank if there is a keyword, then newest second first. */
  predicate IndexOrder(clock: Clock, rank: Rank, keyword: string, a: Listing, b: Listing)
  {
    || (keyword != "" && rank(keyword, a) < rank(keyword, b))
    || ((keyword == "" || rank(keyword, a) == rank(keyword, b)) && clock(a.createdAt) >= clock(b.createdAt))
  }

  /** What the statement may answer before `LIMIT`: the order of ties is left to SQLite. */
  ghost predicate Allowed(fts: FullText, clock: Clock, rank: Rank, f: Filters, index: seq<Listing>,
                          picked: seq<Listing>)
  {
    && multiset(picked) == multiset(Selected(fts, f, index))
    && SortedBy(picked, (a, b) => IndexOrder(clock, rank, f.query.keyword, a, b))
  }

  /** For a search with a keyword: the lower rank comes first, and at equal rank the newer second. */
  lemma RankedFirst(fts: FullText, clock: Clock, rank: Rank, f: Filters, index: seq<Listing>, picked: seq<Listing>)
    requires f.query.keyword != ""
    ensures Allowed(fts, clock, rank, f, index, picked) <==>
            && multiset(picked) == multiset(Selected(fts, f, index))
            && forall i, j :: 0 <= i < j < |picked| ==>
                 var (a, b) := (rank(f.query.keyword, picked[i]), rank(f.query.keyword, picked[j]));
                 a <= b && (a == b ==> clock(picked[i].createdAt) >= clock(picked[j].createdAt))
  {
    hide Selected;
  }

  lemma SortedIsAllowed(fts: FullText, clock: Clock, rank: Rank, f: Filters, index: seq<Listing>)
    ensures Allowed(fts, clock, rank, f, index,
                    Sort(Selected(fts, f, index),
                         (a: Listing, b: Listing) => IndexOrder(clock, rank, f.query.keyword, a, b)))
  {
    SortSorts(Selected(fts, f, index), (a: Listing, b: Listing) => IndexOrder(clock, rank, f.query.keyword, a, b));
  }

  method SearchByIndex(fts: FullText, clock: Clock, rank: Rank, db: Db, f: Filters, offset: nat, limit: nat)
    returns (r: Result<seq<Listing>, SearchError>)
    ensures r.Err? <==> Inverted(f.query)
    ensures r.Ok? ==> exists picked :: Allowed(fts, clock, rank, f, db.index, picked)
                                       && r.value == LookedUp(db.table, Page(picked, offset, limit))
  {
    if f.query.minPrice.Some? && f.query.maxPrice.Some? && f.query.minPrice.value > f.query.maxPrice.value {
      return Err(InvalidPriceRange);
    }
    var clauses := WhereClauses(f, fts);
    var rows: seq<Listing> := [];
    for i := 0 to |db.index|
      invariant rows == Selected(fts, f, db.index[..i])
    {
      assert db.index[..i + 1][..i] == db.index[..i];
      if AllHold(fts, clauses, db.index[i]) {
        rows := rows + [db.index[i]];
      }
    }
    assert db.index[..|db.index|] == db.index;
    SortedIsAllowed(fts, clock, rank, f, db.index);
    ghost var picked := Sort(rows, (a: Listing, b: Listing) => IndexOrder(clock, rank, f.query.keyword, a, b));
    rows := Sort(rows, (a: Listing, b: Listing) => IndexOrder(clock, rank, f.query.keyword, a, b));
    rows := Page(rows, offset, limit);
    var results: seq<Listing> := [];
    for i := 0 to |rows|
      invariant results == LookedUp(db.table, rows[..i])
    {
      assert rows[..i + 1][..i] == rows[..i];
      if rows[i].id in db.table.rows {
        results := results + [db.table.rows[rows[i].id]];
      }
    }
    assert rows[..|rows|] == rows;
    assert Allowed(fts, clock, rank, f, db.index, picked);
    return Ok(results);
  }

  // ---- What an exact index contains ----

  /** Every row is the published listing it was made from. */
  lemma RowIsCurrent(db: Db, r: Listing)
    requires Exact(db)
    ensures r in db.index <==> r.id in db.table.rows && db.table.rows[r.id] == r && r.status == M.Published
  {
    FilterMembers(db.index, (x: Listing) => x.id == r.id);
    assert RowsFor(db.index, r.id) == Expected(db.table, r.id);
    assert r in RowsFor(db.index, r.id) <==> r in db.index;
  }

  lemma {:induction false} TwoRows(s: seq<Listing>, i: nat, j: nat)
    requires i < j < |s| && s[i].id == s[j].id
    ensures |RowsFor(s, s[i].id)| >= 2
  {
    var prefix, last, id := s[..|s| - 1], s[|s| - 1], s[i].id;
    assert RowsFor(s, id) == RowsFor(prefix, id) + (if last.id == id then [last] else []);
    if j < |prefix| {
      assert prefix[i] == s[i] && prefix[j] == s[j];
      TwoRows(prefix, i, j);
    } else {
      FilterMembers(prefix, (x: Listing) => x.id == id);
      assert prefix[i] in RowsFor(prefix, id);
    }
  }

  lemma IndexIsDistinct(db: Db)
    requires Exact(db)
    ensures Distinct(db.index)
  {
    forall i, j | 0 <= i < j < |db.index| ensures db.index[i] != db.index[j] {
      assert RowsFor(db.index, db.index[i].id) == Expected(db.table, db.index[i].id);
      if db.index[i].id == db.index[j].id {
        TwoRows(db.index, i, j);
      }
    }
  }

  lemma {:induction false} NothingSkipped(db: Db, rows: seq<Listing>)
    requires Exact(db) && forall r :: r in rows ==> r in db.index
    ensures LookedUp(db.table, rows) == rows
  {
    if rows != [] {
      var prefix, last := rows[..|rows| - 1], rows[|rows| - 1];
      assert rows == prefix + [last];
      NothingSkipped(db, prefix);
      RowIsCurrent(db, last);
    }
  }

  lemma AllIsDistinct(t: Table)
    requires t.Valid()
    ensures Distinct(All(t))
    ensures forall l: Listing :: l in All(t) <==> l.id in t.rows && t.rows[l.id] == l
  {
    var s := All(t);
    forall i | 0 <= i < |s| ensures s[i].id == t.order[i] {
      assert t.order[i] in t.order;
    }
    forall l: Listing | l.id in t.rows && t.rows[l.id] == l ensures l in s {
      var i :| 0 <= i < |t.order| && t.order[i] == l.id;
      assert s[i] == l;
    }
    forall l | l in s ensures l.id in t.rows && t.rows[l.id] == l {
      var i :| 0 <= i < |s| && s[i] == l;
    }
  }

  // ---- Agreement ----

  /** The assumption on locations: the query's and those of the listings are ASCII. */
  ghost predicate AsciiLocations(t: Table, q: Query)
  {
    && (q.location.Some? ==> IsAscii(q.location.value))
    && forall id :: id in t.rows ==> IsAscii(t.rows[id].location)
  }

  lemma SameGuards(lower: Lower, fts: FullText, t: Table, f: Filters, l: Listing)
    requires AgreesOnAscii(lower) && AsciiLocations(t, f.query) && f.query.keyword == ""
    requires l.id in t.rows && t.rows[l.id] == l
    ensures l.status == M.Published && Selects(fts, f, l) <==>
            Matches(lower, f.query, l) && (f.seller.Some? ==> l.seller == f.seller.value)
  {
    hide AsciiLower, Within;
    assert IsAscii(l.location);
  }

  lemma {:induction false} SameListings(lower: Lower, fts: FullText, db: Db, f: Filters, l: Listing)
    requires db.table.Valid() && Exact(db)
    requires AgreesOnAscii(lower) && AsciiLocations(db.table, f.query) && f.query.keyword == ""
    ensures l in Selected(fts, f, db.index) <==> l in MemoryResults(lower, db.table, f)
  {
    FilterMembers(db.index, (r: Listing) => Selects(fts, f, r));
    RowIsCurrent(db, l);
    AllIsDistinct(db.table);
    ScanIsOrdered(lower, f.query, All(db.table), 0);
    FilterMembers(Sort(Scanned(lower, f.query, All(db.table)), NewestFirst),
                  (x: Listing) => f.seller.Some? ==> x.seller == f.seller.value);
    hide Selects, Matches, Exact, Sort, Scanned, AsciiLocations, AgreesOnAscii;
    if l.id in db.table.rows && db.table.rows[l.id] == l {
      SameGuards(lower, fts, db.table, f, l);
    }
  }

  lemma SelectedIsDistinct(fts: FullText, db: Db, f: Filters)
    requires Exact(db)
    ensures Distinct(Selected(fts, f, db.index))
    ensures LookedUp(db.table, Selected(fts, f, db.index)) == Selected(fts, f, db.index)
  {
    hide Exact, Selects;
    IndexIsDistinct(db);
    FilterKeepsDistinct(db.index, (r: Listing) => Selects(fts, f, r));
    FilterMembers(db.index, (r: Listing) => Selects(fts, f, r));
    NothingSkipped(db, Selected(fts, f, db.index));
  }

  lemma ResultsAreDistinct(lower: Lower, t: Table, f: Filters)
    requires t.Valid()
    ensures Distinct(MemoryResults(lower, t, f))
  {
    AllIsDistinct(t);
    FilterKeepsDistinct(All(t), (l: Listing) => Matches(lower, f.query, l));
    SortKeepsDistinct(Scanned(lower, f.query, All(t)), NewestFirst);
    FilterKeepsDistinct(Sort(Scanned(lower, f.query, All(t)), NewestFirst),
                        (l: Listing) => f.seller.Some? ==> l.seller == f.seller.value);
  }

  /** After every run of additions and saves, a keyword-free search without paging finds the same
      listings, each once, over either backend, whatever `publishedOnly` says. */
  lemma {:induction false} SearchPathsAgree(ops: seq<Op>, lower: Lower, fts: FullText, f: Filters)
    requires AgreesOnAscii(lower) && AsciiLocations(Run(ops).table, f.query) && f.query.keyword == ""
    ensures RunMemory(ops).Valid()
    ensures multiset(LookedUp(Run(ops).table, Selected(fts, f, Run(ops).index))) ==
            multiset(MemoryResults(lower, RunMemory(ops), f))
  {
    IndexAlwaysExact(ops);
    var db := Run(ops);
    hide Run, RunMemory, Exact, AgreesOnAscii, AsciiLocations, Selected, MemoryResults;
    SelectedIsDistinct(fts, db, f);
    ResultsAreDistinct(lower, db.table, f);
    forall l ensures l in Selected(fts, f, db.index) <==> l in MemoryResults(lower, db.table, f) {
      SameListings(lower, fts, db, f, l);
    }
    SameElements(Selected(fts, f, db.index), MemoryResults(lower, db.table, f));
  }

  // ---- Order and pages ----

  /** No two of the listings were made in the same second. */
  ghost predicate DistinctSeconds(clock: Clock, s: seq<Listing>)
  {
    forall i, j :: 0 <= i < j < |s| ==> clock(s[i].createdAt) != clock(s[j].createdAt)
  }

  ghost predicate NewestSecondFirst(clock: Clock, s: seq<Listing>)
  {
    forall i, j :: 0 <= i < j < |s| ==> clock(s[i].createdAt) >= clock(s[j].createdAt)
  }

  lemma ResultsAreOrdered(lower: Lower, clock: Clock, t: Table, f: Filters)
    requires t.Valid() && Monotone(clock)
    ensures NewestSecondFirst(clock, MemoryResults(lower, t, f))
  {
    var sorted := Sort(Scanned(lower, f.query, All(t)), NewestFirst);
    ScanIsOrdered(lower, f.query, All(t), 0);
    FilterKeepsSorted(sorted, NewestFirst, (l: Listing) => f.seller.Some? ==> l.seller == f.seller.value);
    hide Sort, Scanned, Filter;
    assert forall i, j :: 0 <= i < j < |MemoryResults(lower, t, f)| ==>
        NewestFirst(MemoryResults(lower, t, f)[i], MemoryResults(lower, t, f)[j]);
  }

  /** Two neighbours of the same second, the other way round. */
  function Swapped(s: seq<Listing>, i: nat): seq<Listing>
    requires i + 1 < |s|
  {
    s[i := s[i + 1]][i + 1 := s[i]]
  }

  lemma SwappedIsOrdered(clock: Clock, s: seq<Listing>, i: nat)
    requires NewestSecondFirst(clock, s) && i + 1 < |s| && clock(s[i].createdAt) == clock(s[i + 1].createdAt)
    ensures NewestSecondFirst(clock, Swapped(s, i)) && multiset(Swapped(s, i)) == multiset(s)
  {
  }

  /** For a search without keyword, being allowed is being sorted by the second. */
  lemma AllowedIff(fts: FullText, clock: Clock, rank: Rank, f: Filters, index: seq<Listing>, picked: seq<Listing>)
    requires f.query.keyword == ""
    ensures Allowed(fts, clock, rank, f, index, picked) <==>
            multiset(picked) == multiset(Selected(fts, f, index)) && NewestSecondFirst(clock, picked)
  {
    hide Selected;
  }

  lemma OnlyOrder(clock: Clock, a: seq<Listing>, b: seq<Listing>)
    requires multiset(a) == multiset(b) && NewestSecondFirst(clock, a) && NewestSecondFirst(clock, b)
    requires DistinctSeconds(clock, b)
    ensures a == b
  {
    SortedIsUnique(b, a, (x: Listing, y: Listing) => clock(x.createdAt) >= clock(y.createdAt));
  }

  /** The statement and the scan are bound to the same order exactly if no two matches share a second. */
  lemma {:induction false} OneOrderIff(clock: Clock, s: seq<Listing>)
    requires NewestSecondFirst(clock, s) && Distinct(s)
    ensures DistinctSeconds(clock, s) <==>
            forall picked :: multiset(picked) == multiset(s) && NewestSecondFirst(clock, picked) ==> picked == s
  {
    if DistinctSeconds(clock, s) {
      forall picked | multiset(picked) == multiset(s) && NewestSecondFirst(clock, picked) ensures picked == s {
        OnlyOrder(clock, picked, s);
      }
    } else {
      var i, j :| 0 <= i < j < |s| && clock(s[i].createdAt) == clock(s[j].createdAt);
      assert clock(s[i].createdAt) >= clock(s[i + 1].createdAt) >= clock(s[j].createdAt);
      SwappedIsOrdered(clock, s, i);
      assert Swapped(s, i)[i] != s[i];
    }
  }

  /** Whatever page is asked for, the stored listings of the picked rows are those of the scan. */
  ghost predicate SamePages(t: Table, picked: seq<Listing>, s: seq<Listing>)
  {
    forall offset: nat, limit: nat :: LookedUp(t, Page(picked, offset, limit)) == Page(s, offset, limit)
  }

  lemma SamePagesIff(db: Db, picked: seq<Listing>, s: seq<Listing>)
    requires Exact(db) && multiset(picked) == multiset(s) && forall r :: r in s ==> r in db.index
    ensures SamePages(db.table, picked, s) <==> picked == s
  {
    hide Exact, LookedUp;
    forall offset: nat, limit: nat
      ensures LookedUp(db.table, Page(picked, offset, limit)) == Page(picked, offset, limit)
    {
      forall r | r in Page(picked, offset, limit) ensures r in db.index {
        assert r in multiset(picked) && r in multiset(s);
      }
      NothingSkipped(db, Page(picked, offset, limit));
    }
    assert |multiset(picked)| == |multiset(s)|;
    assert Page(picked, 0, |s|) == picked && Page(s, 0, |s|) == s;
  }

  /** After every run, for a search without keyword: every page is the same over either backend, whatever SQLite
      does with ties, exactly if no two matching listings were made in the same second. */
  lemma {:induction false} PagesAgreeIff(ops: seq<Op>, lower: Lower, fts: FullText, clock: Clock, rank: Rank,
                                         f: Filters)
    requires AgreesOnAscii(lower) && AsciiLocations(Run(ops).table, f.query) && f.query.keyword == ""
    requires Monotone(clock)
    ensures RunMemory(ops).Valid()
    ensures DistinctSeconds(clock, MemoryResults(lower, RunMemory(ops), f)) <==>
            forall picked :: Allowed(fts, clock, rank, f, Run(ops).index, picked) ==>
              SamePages(Run(ops).table, picked, MemoryResults(lower, RunMemory(ops), f))
  {
    IndexAlwaysExact(ops);
    var db, s := Run(ops), MemoryResults(lower, RunMemory(ops), f);
    SearchPathsAgree(ops, lower, fts, f);
    SelectedIsDistinct(fts, db, f);
    ResultsAreDistinct(lower, RunMemory(ops), f);
    ResultsAreOrdered(lower, clock, RunMemory(ops), f);
    OneOrderIff(clock, s);
    MatchesAreIndexed(fts, db, f, s);
    hide *;
    forall picked
      ensures Allowed(fts, clock, rank, f, db.index, picked) <==>
              multiset(picked) == multiset(s) && NewestSecondFirst(clock, picked)
      ensures Allowed(fts, clock, rank, f, db.index, picked) ==> (SamePages(db.table, picked, s) <==> picked == s)
    {
      AllowedIff(fts, clock, rank, f, db.index, picked);
      if Allowed(fts, clock, rank, f, db.index, picked) {
        SamePagesIff(db, picked, s);
      }
    }
  }

  lemma MatchesAreIndexed(fts: FullText, db: Db, f: Filters, s: seq<Listing>)
    requires multiset(Selected(fts, f, db.index)) == multiset(s)
    ensures forall r :: r in s ==> r in db.index
  {
    FilterMembers(db.index, (r: Listing) => Selects(fts, f, r));
    hide Selects;
    forall r | r in s ensures r in db.index {
      assert r in multiset(s) && r in multiset(Selected(fts, f, db.index));
    }
  }

  /** The index rows that the statement selects, whatever the filters: the full-text match decides about the
      keyword, and ASCII case is ignored in locations. */
  lemma {:induction false} SelectedIff(fts: FullText, f: Filters, index: seq<Listing>, r: Listing)
    ensures r in Selected(fts, f, index) <==>
            && r in index
            && (f.query.keyword == "" || fts(f.query.keyword, r))
            && (!f.publishedOnly || r.status == M.Published)
            && (f.query.category == None || f.query.category.value == r.category)
            && (f.seller == None || f.seller.value == r.seller)
            && (f.query.condition == None || f.query.condition.value == r.condition)
            && (f.query.location == None || AsciiLower(f.query.location.value) == AsciiLower(r.location))
            && !(f.query.minPrice.Some? && r.price < f.query.minPrice.value)
            && !(f.query.maxPrice.Some? && r.price > f.query.maxPrice.value)
  {
    FilterMembers(index, (x: Listing) => Selects(fts, f, x));
    hide AsciiLower;
  }

  /** `publishedOnly` makes no difference to either answer, because only published listings are indexed. */
  lemma {:induction false} PublishedOnlyIsIrrelevant(ops: seq<Op>, fts: FullText, f: Filters, l: Listing)
    ensures l in Selected(fts, f, Run(ops).index) <==> l in Selected(fts, f.(publishedOnly := true), Run(ops).index)
  {
    IndexAlwaysExact(ops);
    RowIsCurrent(Run(ops), l);
    var g := f.(publishedOnly := true);
    FilterMembers(Run(ops).index, (r: Listing) => Selects(fts, f, r));
    FilterMembers(Run(ops).index, (r: Listing) => Selects(fts, g, r));
    assert Selected(fts, g, Run(ops).index) == Filter(Run(ops).index, (r: Listing) => Selects(fts, g, r));
  }
}
