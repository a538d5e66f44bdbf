/** Listings with their search index, and the two ways to search them. */
module ListingIndex {
  import opened Common
  import opened Sorting
  import M = Marketplace

  type Id = nat

  datatype Condition = New | LikeNew | GoodCondition | FairCondition | Poor

  datatype Listing = Listing(
    id: Id,
    seller: Id,
    title: string,
    description: string,
    category: string,
    condition: Condition,
    price: real,
    currency: string,
    location: string,
    status: M.ListingStatus,
    createdAt: int)

  /** The `listings` table: rows by id, and the ids in rowid order. It is also all that the memory
      repository has. */
  datatype Table = Table(rows: map<Id, Listing>, order: seq<Id>) {
    ghost predicate Valid() {
      && Distinct(order)
      && (forall id :: id in order <==> id in rows)
      && (forall id :: id in rows ==> rows[id].id == id)
    }
  }

  /** A row of the search index copies the listing it was made from. */
  datatype Db = Db(table: Table, index: seq<Listing>)

  datatype Error = DuplicateEntity | EntityNotFound

  function Store(t: Table, l: Listing): Table
  {
    Table(t.rows[l.id := l], if l.id in t.rows then t.order else t.order + [l.id])
  }

  function Unindexed(index: seq<Listing>, id: Id): seq<Listing>
  {
    Filter(index, (r: Listing) => r.id != id)
  }

  /** Delete what the index has for the listing; insert it again if it is published. */
  function Synced(index: seq<Listing>, l: Listing): seq<Listing>
  {
    Unindexed(index, l.id) + if l.status == M.Published then [l] else []
  }

  function RowsFor(index: seq<Listing>, id: Id): seq<Listing>
  {
    Filter(index, (r: Listing) => r.id == id)
  }

  /** The index has exactly one, current, row for every published listing and none for any other. */
  ghost predicate Exact(db: Db)
  {
    forall id :: RowsFor(db.index, id) == Expected(db.table, id)
  }

  function Expected(t: Table, id: Id): seq<Listing>
  {
    if id in t.rows && t.rows[id].status == M.Published then [t.rows[id]] else []
  }

  lemma {:induction false} RowsForSynced(index: seq<Listing>, id: Id, other: Id)
    ensures RowsFor(Unindexed(index, id), other) == if other == id then [] else RowsFor(index, other)
  {
    if index != [] {
      var prefix, last := index[..|index| - 1], index[|index| - 1];
      RowsForSynced(prefix, id, other);
      assert index == prefix + [last];
      FilterSnoc(prefix, last, (r: Listing) => r.id != id);
      FilterSnoc(prefix, last, (r: Listing) => r.id == other);
      if last.id == id {
        assert Unindexed(index, id) == Unindexed(prefix, id);
      } else {
        assert Unindexed(index, id) == Unindexed(prefix, id) + [last];
        FilterSnoc(Unindexed(prefix, id), last, (r: Listing) => r.id == other);
      }
    }
  }

  lemma RowsForSnoc(index: seq<Listing>, l: Listing, id: Id)
    ensures RowsFor(index + [l], id) == RowsFor(index, id) + (if l.id == id then [l] else [])
  {
    FilterSnoc(index, l, (r: Listing) => r.id == id);
  }

  lemma SyncKeepsRows(db: Db, l: Listing, id: Id)
    requires RowsFor(db.index, id) == Expected(db.table, id)
    ensures RowsFor(Synced(db.index, l), id) == Expected(Store(db.table, l), id)
  {
    hide RowsFor, Unindexed;
    RowsForSynced(db.index, l.id, id);
    RowsForSnoc(Unindexed(db.index, l.id), l, id);
    assert Unindexed(db.index, l.id) + [] == Unindexed(db.index, l.id);
  }

  lemma SyncKeepsExact(db: Db, l: Listing)
    requires Exact(db)
    ensures Exact(Db(Store(db.table, l), Synced(db.index, l)))
  {
    hide RowsFor, Expected, Synced, Store;
    forall id ensures RowsFor(Synced(db.index, l), id) == Expected(Store(db.table, l), id) {
      assert RowsFor(db.index, id) == Expected(db.table, id);
      SyncKeepsRows(db, l, id);
    }
  }

  lemma StoreKeepsValid(t: Table, l: Listing)
    requires t.Valid()
    ensures Store(t, l).Valid()
  {
  }

  // ---- Runs ----

  datatype Op = Add(listing: Listing) | Save(listing: Listing)

  /** What both repositories do: `add` refuses a known id, `save` an unknown one. */
  predicate Accepts(t: Table, op: Op)
  {
    match op
    case Add(l) => l.id !in t.rows
    case Save(l) => l.id in t.rows
  }

  function Apply(db: Db, op: Op): Db
  {
    if Accepts(db.table, op) then Db(Store(db.table, op.listing), Synced(db.index, op.listing)) else db
  }

  function Run(ops: seq<Op>): Db
  {
    if ops == [] then Db(Table(map[], []), []) else Apply(Run(ops[..|ops| - 1]), ops[|ops| - 1])
  }

  /** The same run on the memory repository, which has no index. */
  function RunMemory(ops: seq<Op>): Table
  {
    if ops == [] then Table(map[], [])
    else
      var t, op := RunMemory(ops[..|ops| - 1]), ops[|ops| - 1];
      if Accepts(t, op) then Store(t, op.listing) else t
  }

  /** After every run both backends store the same listings, and the index is exact. */
  lemma {:induction false} IndexAlwaysExact(ops: seq<Op>)
    ensures Exact(Run(ops)) && Run(ops).table.Valid()
    ensures Run(ops).table == RunMemory(ops)
  {
    if ops != [] {
      var before, op := Run(ops[..|ops| - 1]), ops[|ops| - 1];
      IndexAlwaysExact(ops[..|ops| - 1]);
      hide Exact, Synced, Store;
      SyncKeepsExact(before, op.listing);
      StoreKeepsValid(before.table, op.listing);
    }
  }

  // ---- The repository ----

  class SQLiteListingRepository {
    var table: Table
    var index: seq<Listing>

    ghost predicate Valid()
      reads this
    {
      table.Valid() && Exact(Db(table, index))
    }

    constructor ()
      ensures Valid() && Db(table, index) == Run([])
    {
      table, index := Table(map[], []), [];
    }

    method SyncSearchIndex(l: Listing)
      modifies this`index
      ensures index == Synced(old(index), l)
    {
      index := Unindexed(index, l.id);
      if l.status != M.Published {
        assert index == index + [];
        return;
      }
      index := index + [l];
    }

    method AddListing(l: Listing) returns (error: Option<Error>)
      requires Valid()
      modifies this
      ensures Valid() && Db(table, index) == Apply(Db(old(table), old(index)), Add(l))
      ensures error == if l.id in old(table).rows then Some(DuplicateEntity) else None
    {
      if l.id in table.rows {
        return Some(DuplicateEntity);
      }
      SyncKeepsExact(Db(table, index), l);
      StoreKeepsValid(table, l);
      hide Exact;
      table := Table(table.rows[l.id := l], table.order + [l.id]);
      SyncSearchIndex(l);
      return None;
    }

    method SaveListing(l: Listing) returns (error: Option<Error>)
      requires Valid()
      modifies this
      ensures Valid() && Db(table, index) == Apply(Db(old(table), old(index)), Save(l))
      ensures error == if l.id in old(table).rows then None else Some(EntityNotFound)
    {
      if l.id !in table.rows {
        return Some(EntityNotFound);
      }
      SyncKeepsExact(Db(table, index), l);
      StoreKeepsValid(table, l);
      hide Exact;
      table := table.(rows := table.rows[l.id := l]);
      SyncSearchIndex(l);
      return None;
    }

    /** At start-up: index every published listing that has no row yet. */
    method BootstrapListingSearchIndex()
      requires table.Valid() && Sound(Db(table, index))
      modifies this`index
      ensures Valid()
      ensures old(index) <= index
    {
      hide Sound, Exact;
      ghost var before := index;
      BootstrapStarts(Db(table, index));
      for k := 0 to |table.order|
        invariant Bootstrapped(Db(table, index), k) && before <= index
      {
        assert table.order[k] in table.order;
        var l := table.rows[table.order[k]];
        BootstrapStep(Db(table, index), k);
        if l.status == M.Published && !(exists r :: r in index && r.id == l.id) {
          index := index + [l];
        }
      }
      BootstrapEnds(Db(table, index));
    }
  }

  /** An index that was left behind: it may lack rows, but has no wrong ones. */
  ghost predicate Sound(db: Db)
  {
    forall id :: RowsFor(db.index, id) == Expected(db.table, id) || RowsFor(db.index, id) == []
  }

  ghost predicate Bootstrapped(db: Db, k: nat)
  {
    && Sound(db)
    && k <= |db.table.order|
    && forall i :: 0 <= i < k ==> RowsFor(db.index, db.table.order[i]) == Expected(db.table, db.table.order[i])
  }

  lemma BootstrapStarts(db: Db)
    requires Sound(db)
    ensures Bootstrapped(db, 0)
  {
  }

  lemma BootstrapStep(db: Db, k: nat)
    requires db.table.Valid() && k < |db.table.order| && Bootstrapped(db, k)
    ensures var id := db.table.order[k];
            && id in db.table.rows
            && var l := db.table.rows[id];
               if l.status == M.Published && !(exists r :: r in db.index && r.id == l.id)
               then Bootstrapped(Db(db.table, db.index + [l]), k + 1)
               else Bootstrapped(db, k + 1)
  {
    hide RowsFor;
    var id := db.table.order[k];
    assert id in db.table.order;
    HasRows(db.index, id);
    RowsAppended(db.index, db.table.rows[id]);
  }

  lemma HasRows(index: seq<Listing>, id: Id)
    ensures RowsFor(index, id) != [] <==> exists r :: r in index && r.id == id
  {
    FilterMembers(index, (r: Listing) => r.id == id);
    EmptyOrMember(RowsFor(index, id));
    assert forall r :: r in index && r.id == id ==> r in RowsFor(index, id);
  }

  lemma RowsAppended(index: seq<Listing>, l: Listing)
    ensures forall x :: RowsFor(index + [l], x) == RowsFor(index, x) + (if x == l.id then [l] else [])
  {
    forall x ensures RowsFor(index + [l], x) == RowsFor(index, x) + (if x == l.id then [l] else []) {
      FilterSnoc(index, l, (r: Listing) => r.id == x);
    }
  }

  lemma BootstrapEnds(db: Db)
    requires db.table.Valid() && Bootstrapped(db, |db.table.order|)
    ensures Exact(db)
  {
    forall id ensures RowsFor(db.index, id) == Expected(db.table, id) {
      if id in db.table.rows {
        var i :| 0 <= i < |db.table.order| && db.table.order[i] == id;
      }
    }
  }
}

module Search {
  import opened Common
  import opened Sorting
  import opened ListingIndex

  datatype Query = Query(
    keyword: string,
    category: Option<string>,
    condition: Option<Condition>,
    location: Option<string>,
    minPrice: Option<real>,
    maxPrice: Option<real>)

  datatype Filters = Filters(query: Query, seller: Option<Id>, publishedOnly: bool)

  datatype SearchError = InvalidPriceRange

  predicate Inverted(q: Query)
  {
    q.minPrice.Some? && q.maxPrice.Some? && q.minPrice.value > q.maxPrice.value
  }

  predicate At(text: string, i: int, word: string)
  {
    0 <= i <= |text| - |word| && text[i..i + |word|] == word
  }

  predicate Within(text: string, word: string)
  {
    exists i :: 0 <= i <= |text| && At(text, i, word)
  }

  /** Lower case is Python's in the scan and SQLite's, which knows ASCII only, in the index. */
  type Lower = string -> string

  predicate IsAscii(s: string)
  {
    forall i :: 0 <= i < |s| ==> s[i] < 128 as char
  }

  function AsciiLower(s: string): string
  {
    seq(|s|, i requires 0 <= i < |s| => if 'A' <= s[i] <= 'Z' then (s[i] as int + 32) as char else s[i])
  }

  /** Two texts are the same in lower case exactly if they differ at most in the case of ASCII letters. */
  lemma SameInLowerCase(a: string, b: string)
    ensures AsciiLower(a) == AsciiLower(b) <==>
            |a| == |b| && forall i :: 0 <= i < |a| ==> a[i] == b[i] || IsCaseOf(a[i], b[i]) || IsCaseOf(b[i], a[i])
  {
    if AsciiLower(a) == AsciiLower(b) {
      forall i | 0 <= i < |a| ensures a[i] == b[i] || IsCaseOf(a[i], b[i]) || IsCaseOf(b[i], a[i]) {
        assert AsciiLower(a)[i] == AsciiLower(b)[i];
      }
    }
  }

  predicate IsCaseOf(lower: char, upper: char)
  {
    'A' <= upper <= 'Z' && 'a' <= lower <= 'z' && lower - 'a' == upper - 'A'
  }

  ghost predicate AgreesOnAscii(lower: Lower)
  {
    forall s :: IsAscii(s) ==> lower(s) == AsciiLower(s)
  }

  // ---- The linear scan ----

  /** What the guards of the scan let through. */
  predicate Matches(lower: Lower, q: Query, l: Listing)
  {
    && l.status == M.Published
    && (q.keyword != "" ==> Within(lower(l.title), lower(q.keyword)) || Within(lower(l.description), lower(q.keyword)))
    && (q.category.Some? ==> l.category == q.category.value)
    && (q.condition.Some? ==> l.condition == q.condition.value)
    && (q.location.Some? ==> lower(l.location) == lower(q.location.value))
    && (q.minPrice.Some? ==> l.price >= q.minPrice.value)
    && (q.maxPrice.Some? ==> l.price <= q.maxPrice.value)
  }

  predicate NewestFirst(a: Listing, b: Listing)
  {
    a.createdAt >= b.createdAt
  }

  function Scanned(lower: Lower, q: Query, listings: seq<Listing>): seq<Listing>
  {
    Filter(listings, (l: Listing) => Matches(lower, q, l))
  }

  /** The scan: an inverted range is refused, everything else is a filter and a stable sort. */
  method SearchListings(lower: Lower, listings: seq<Listing>, q: Query) returns (r: Result<seq<Listing>, SearchError>)
    ensures r == if Inverted(q) then Err(InvalidPriceRange) else Ok(Sort(Scanned(lower, q, listings), NewestFirst))
  {
    if q.minPrice.Some? && q.maxPrice.Some? {
      if q.minPrice.value > q.maxPrice.value {
        return Err(InvalidPriceRange);
      }
    }
    var results: seq<Listing> := [];
    for i := 0 to |listings|
      invariant results == Scanned(lower, q, listings[..i])
    {
      var l := listings[i];
      assert listings[..i + 1][..i] == listings[..i];
      if l.status != M.Published {
        continue;
      }
      if q.keyword != "" {
        var word := lower(q.keyword);
        if !Within(lower(l.title), word) && !Within(lower(l.description), word) {
          continue;
        }
      }
      if q.category.Some? && l.category != q.category.value {
        continue;
      }
      if q.condition.Some? && l.condition != q.condition.value {
        continue;
      }
      if q.location.Some? && lower(l.location) != lower(q.location.value) {
        continue;
      }
      if q.minPrice.Some? && l.price < q.minPrice.value {
        continue;
      }
      if q.maxPrice.Some? && l.price > q.maxPrice.value {
        continue;
      }
      results := results + [l];
    }
    assert listings[..|listings|] == listings;
    return Ok(Sort(results, NewestFirst));
  }

  /** The answer is newest first, has every match as often as the input, and keeps the input order of
      listings made at the same time. */
  lemma {:induction false} ScanIsOrdered(lower: Lower, q: Query, listings: seq<Listing>, time: int)
    ensures var r := Sort(Scanned(lower, q, listings), NewestFirst);
            && (forall i, j :: 0 <= i < j < |r| ==> r[i].createdAt >= r[j].createdAt)
            && SortedBy(r, NewestFirst)
            && multiset(r) == multiset(Scanned(lower, q, listings))
            && (forall l :: l in r <==> l in listings && Matches(lower, q, l))
            && Filter(r, (l: Listing) => l.createdAt == time) ==
               Filter(Scanned(lower, q, listings), (l: Listing) => l.createdAt == time)
  {
    var found := Scanned(lower, q, listings);
    NewestIsTotal();
    SortSorts(found, NewestFirst);
    FilterMembers(listings, (l: Listing) => Matches(lower, q, l));
    SortIsStable(found, NewestFirst, (l: Listing) => l.createdAt == time);
    hide Sort, SortedBy, Matches, TotalPreorder, NewestFirst;
    forall l ensures l in Sort(found, NewestFirst) <==> l in found {
      assert l in multiset(Sort(found, NewestFirst)) <==> l in multiset(found);
    }
  }

  /** Of two answers made at the same time the one that came first in the input comes first. */
  lemma {:induction false} ScanIsStable(lower: Lower, q: Query, listings: seq<Listing>, a: Listing, b: Listing)
    requires a.createdAt == b.createdAt && Matches(lower, q, a) && Matches(lower, q, b)
    ensures Precedes(Sort(Scanned(lower, q, listings), NewestFirst), a, b) <==> Precedes(listings, a, b)
  {
    hide Matches, Precedes;
    var sameTime := (l: Listing) => l.createdAt == a.createdAt;
    var found := Scanned(lower, q, listings);
    SortIsStable(found, NewestFirst, sameTime);
    FilterKeepsOrder(Sort(found, NewestFirst), sameTime, a, b);
    FilterKeepsOrder(found, sameTime, a, b);
    FilterKeepsOrder(listings, (l: Listing) => Matches(lower, q, l), a, b);
  }

  /** What a listing needs to be found: it is PUBLISHED, has the keyword in its title or description, whatever
      the case, and meets every filter; both price bounds are included. */
  lemma MatchesIff(lower: Lower, q: Query, l: Listing)
    ensures Matches(lower, q, l) <==>
            && l.status == M.Published
            && (q.keyword == "" || Contains(lower(l.title), lower(q.keyword))
                || Contains(lower(l.description), lower(q.keyword)))
            && (q.category == None || q.category.value == l.category)
            && (q.condition == None || q.condition.value == l.condition)
            && (q.location == None || lower(q.location.value) == lower(l.location))
            && !(q.minPrice.Some? && l.price < q.minPrice.value)
            && !(q.maxPrice.Some? && l.price > q.maxPrice.value)
  {
    WithinIff(lower(l.title), lower(q.keyword));
    WithinIff(lower(l.description), lower(q.keyword));
    hide Within, Contains;
  }

  ghost predicate Contains(text: string, word: string)
  {
    exists before, after :: text == before + word + after
  }

  lemma WithinIff(text: string, word: string)
    ensures Within(text, word) <==> Contains(text, word)
  {
    if Within(text, word) {
      var i :| 0 <= i <= |text| && At(text, i, word);
      assert text == text[..i] + word + text[i + |word|..];
    }
    if before, after :| text == before + word + after {
      assert At(text, |before|, word);
    }
  }

  lemma NewestIsTotal()
    ensures TotalPreorder(NewestFirst)
  {
  }

  // ---- The index query ----

  datatype Clause =
    | MatchesKeyword(keyword: string)
    | StatusIs(status: M.ListingStatus)
    | CategoryIs(category: string)
    | SellerIs(seller: Id)
    | ConditionIs(condition: Condition)
    | LocationIs(location: string)
    | PriceAtLeast(minPrice: real)
    | PriceAtMost(maxPrice: real)

  /** The full-text match is the library's. */
  type FullText = (string, Listing) -> bool

  predicate Holds(fts: FullText, c: Clause, r: Listing)
  {
    match c
    case MatchesKeyword(keyword) => fts(keyword, r)
    case StatusIs(status) => r.status == status
    case CategoryIs(category) => r.category == category
    case SellerIs(seller) => r.seller == seller
    case ConditionIs(condition) => r.condition == condition
    case LocationIs(location) => AsciiLower(r.location) == AsciiLower(location)
    case PriceAtLeast(minPrice) => r.price >= minPrice
    case PriceAtMost(maxPrice) => r.price <= maxPrice
  }

  predicate AllHold(fts: FullText, clauses: seq<Clause>, r: Listing)
  {
    forall i :: 0 <= i < |clauses| ==> Holds(fts, clauses[i], r)
  }

  /** What the filters ask of a row. */
  predicate Selects(fts: FullText, f: Filters, r: Listing)
  {
    && (f.query.keyword != "" ==> fts(f.query.keyword, r))
    && (f.publishedOnly ==> r.status == M.Published)
    && (f.query.category.Some? ==> r.category == f.query.category.value)
    && (f.seller.Some? ==> r.seller == f.seller.value)
    && (f.query.condition.Some? ==> r.condition == f.query.condition.value)
    && (f.query.location.Some? ==> AsciiLower(r.location) == AsciiLower(f.query.location.value))
    && (f.query.minPrice.Some? ==> r.price >= f.query.minPrice.value)
    && (f.query.maxPrice.Some? ==> r.price <= f.query.maxPrice.value)
  }

  lemma OneMoreClause(fts: FullText, clauses: seq<Clause>, c: Clause, r: Listing)
    ensures AllHold(fts, clauses + [c], r) <==> AllHold(fts, clauses, r) && Holds(fts, c, r)
  {
    if AllHold(fts, clauses + [c], r) {
      assert (clauses + [c])[|clauses|] == c;
      forall i | 0 <= i < |clauses| ensures Holds(fts, clauses[i], r) {
        assert (clauses + [c])[i] == clauses[i];
      }
    }
  }

  lemma OneMore(fts: FullText, clauses: seq<Clause>, c: Clause)
    ensures forall r :: AllHold(fts, clauses + [c], r) <==> AllHold(fts, clauses, r) && Holds(fts, c, r)
  {
    forall r ensures AllHold(fts, clauses + [c], r) <==> AllHold(fts, clauses, r) && Holds(fts, c, r) {
      OneMoreClause(fts, clauses, c, r);
    }
  }

  /** The conjunction that is built up clause by clause. */
  method WhereClauses(f: Filters, ghost fts: FullText) returns (clauses: seq<Clause>)
    ensures forall r :: AllHold(fts, clauses, r) <==> Selects(fts, f, r)
  {
    hide AllHold, AsciiLower;
    clauses := [];
    NoClauses(fts);
    if f.query.keyword != "" {
      OneMore(fts, clauses, MatchesKeyword(f.query.keyword));
      clauses := clauses + [MatchesKeyword(f.query.keyword)];
    }
    if f.publishedOnly {
      OneMore(fts, clauses, StatusIs(M.Published));
      clauses := clauses + [StatusIs(M.Published)];
    }
    if f.query.category.Some? {
      OneMore(fts, clauses, CategoryIs(f.query.category.value));
      clauses := clauses + [CategoryIs(f.query.category.value)];
    }
    if f.seller.Some? {
      OneMore(fts, clauses, SellerIs(f.seller.value));
      clauses := clauses + [SellerIs(f.seller.value)];
    }
    if f.query.condition.Some? {
      OneMore(fts, clauses, ConditionIs(f.query.condition.value));
      clauses := clauses + [ConditionIs(f.query.condition.value)];
    }
    if f.query.location.Some? {
      OneMore(fts, clauses, LocationIs(f.query.location.value));
      clauses := clauses + [LocationIs(f.query.location.value)];
    }
    if f.query.minPrice.Some? {
      OneMore(fts, clauses, PriceAtLeast(f.query.minPrice.value));
      clauses := clauses + [PriceAtLeast(f.query.minPrice.value)];
    }
    if f.query.maxPrice.Some? {
      OneMore(fts, clauses, PriceAtMost(f.query.maxPrice.value));
      clauses := clauses + [PriceAtMost(f.query.maxPrice.value)];
    }
  }

  lemma NoClauses(fts: FullText)
    ensures forall r :: AllHold(fts, [], r)
  {
  }
}
