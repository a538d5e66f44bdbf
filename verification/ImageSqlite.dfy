/** The SQLite image repository: rows under a unique (listing, position) index that every single
    statement must respect, and the media service over it. */
module ImageStatements {
  import opened Common
  import opened Images

  /** Another row of the same listing already has that position. */
  predicate Clash(rows: map<Id, Image>, id: Id, position: int)
  {
    id in rows &&
    exists x :: x in rows && x != id && rows[x].listing == rows[id].listing && rows[x].position == position
  }

  /** `uq_listing_images_listing_position`. */
  ghost predicate UniqueIndex(rows: map<Id, Image>)
  {
    forall a, b :: a in rows && b in rows && a != b && rows[a].listing == rows[b].listing ==>
      rows[a].position != rows[b].position
  }

  function Moved(rows: map<Id, Image>, id: Id, position: int): map<Id, Image>
  {
    if id in rows then rows[id := rows[id].(position := position)] else rows
  }

  /** The rows after the first `k` statements of a loop that numbers `ids` from `offset + 1`. */
  function MoveFirst(rows: map<Id, Image>, ids: seq<Id>, k: nat, offset: int): map<Id, Image>
    requires k <= |ids|
  {
    if k == 0 then rows else Moved(MoveFirst(rows, ids, k - 1, offset), ids[k - 1], offset + k)
  }

  /** No statement of the loop violates the index. */
  ghost predicate NeverClashes(rows: map<Id, Image>, ids: seq<Id>, offset: int)
  {
    forall k :: 0 <= k < |ids| ==> !Clash(MoveFirst(rows, ids, k, offset), ids[k], offset + k + 1)
  }

  predicate AmongIds(ids: seq<Id>, k: nat, id: Id)
    requires k <= |ids|
  {
    exists i :: 0 <= i < k && ids[i] == id
  }

  lemma {:induction false} MoveFirstMoves(rows: map<Id, Image>, ids: seq<Id>, k: nat, offset: int)
    requires k <= |ids| && Distinct(ids) && forall i :: 0 <= i < |ids| ==> ids[i] in rows
    ensures var m := MoveFirst(rows, ids, k, offset);
            && m.Keys == rows.Keys
            && (forall i :: 0 <= i < k ==> m[ids[i]] == rows[ids[i]].(position := offset + i + 1))
            && (forall id :: id in rows && !AmongIds(ids, k, id) ==> m[id] == rows[id])
  {
    if k > 0 {
      MoveFirstMoves(rows, ids, k - 1, offset);
      var last := ids[k - 1];
      forall i | 0 <= i < k - 1 ensures ids[i] != last {
      }
      forall id | AmongIds(ids, k - 1, id) || id == last ensures AmongIds(ids, k, id) {
        assert id == last ==> ids[k - 1] == id;
      }
      assert !AmongIds(ids, k - 1, last);
    }
  }

  /** After the whole loop the listing reads `ids`, from one. */
  lemma MovedIsView(rows: map<Id, Image>, l: Id, ids: seq<Id>)
    requires Distinct(ids) && forall id :: id in ids <==> id in rows && rows[id].listing == l
    ensures View(MoveFirst(rows, ids, |ids|, 0), l, ids)
  {
    forall i | 0 <= i < |ids| ensures ids[i] in rows {
      assert ids[i] in ids;
    }
    MoveFirstMoves(rows, ids, |ids|, 0);
    var m := MoveFirst(rows, ids, |ids|, 0);
    forall id | id in m && m[id].listing == l ensures id in ids {
      assert AmongIds(ids, |ids|, id) ==> id in ids;
    }
  }

  /** Only images of that listing move. */
  lemma MovedKeepsOthers(rows: map<Id, Image>, l: Id, ids: seq<Id>, offset: int)
    requires Distinct(ids) && forall id :: id in ids <==> id in rows && rows[id].listing == l
    ensures OthersKept(rows, MoveFirst(rows, ids, |ids|, offset), l)
    ensures MoveFirst(rows, ids, |ids|, offset).Keys == rows.Keys
    ensures forall id :: id in rows ==>
              MoveFirst(rows, ids, |ids|, offset)[id] ==
              rows[id].(position := MoveFirst(rows, ids, |ids|, offset)[id].position)
  {
    forall i | 0 <= i < |ids| ensures ids[i] in rows {
      assert ids[i] in ids;
    }
    MoveFirstMoves(rows, ids, |ids|, offset);
    var m := MoveFirst(rows, ids, |ids|, offset);
    forall id | id in rows
      ensures m[id] == rows[id].(position := m[id].position)
      ensures rows[id].listing != l ==> m[id] == rows[id]
    {
      if AmongIds(ids, |ids|, id) {
        var i :| 0 <= i < |ids| && ids[i] == id;
      }
    }
  }

  // ---- Compaction: ascending, from one ----

  /** A ranked listing with positive positions has each image at or above its rank. */
  lemma {:induction false} AtLeastRank(rows: map<Id, Image>, ids: seq<Id>, k: nat)
    requires Increasing(rows, ids) && k < |ids| && (ids != [] ==> rows[ids[0]].position >= 1)
    ensures rows[ids[k]].position >= k + 1
  {
    if k > 0 {
      AtLeastRank(rows, ids, k - 1);
    }
  }

  /** Ascending compaction respects the index at every statement, whatever the gaps. */
  lemma {:induction false} CompactionNeverClashes(rows: map<Id, Image>, l: Id, ids: seq<Id>)
    requires Distinct(ids) && Ranked(rows, l, ids) && (ids != [] ==> rows[ids[0]].position >= 1)
    ensures NeverClashes(rows, ids, 0)
  {
    forall k | 0 <= k < |ids| ensures !Clash(MoveFirst(rows, ids, k, 0), ids[k], k + 1) {
      MoveFirstMoves(rows, ids, k, 0);
      var m := MoveFirst(rows, ids, k, 0);
      forall x | x in m && x != ids[k] && m[x].listing == m[ids[k]].listing ensures m[x].position != k + 1 {
        NotAtRank(rows, l, ids, k, x);
      }
    }
  }

  lemma NotAtRank(rows: map<Id, Image>, l: Id, ids: seq<Id>, k: nat, x: Id)
    requires Distinct(ids) && Ranked(rows, l, ids) && k < |ids| && rows[ids[0]].position >= 1
    requires x in rows && x != ids[k]
    requires MoveFirst(rows, ids, k, 0).Keys == rows.Keys
    requires MoveFirst(rows, ids, k, 0)[x].listing == MoveFirst(rows, ids, k, 0)[ids[k]].listing
    ensures MoveFirst(rows, ids, k, 0)[x].position != k + 1
  {
    MoveFirstMoves(rows, ids, k, 0);
    assert !AmongIds(ids, k, ids[k]);
    if !AmongIds(ids, k, x) {
      assert x in ids;
      var j :| 0 <= j < |ids| && ids[j] == x;
      AtLeastRank(rows, ids, j);
    }
  }

  // ---- Reordering: out of the way, then back ----

  const TEMPORARY_OFFSET := 100

  /** Where the temporary range reaches into the listing itself, the request moves nothing. */
  predicate Fits(current: seq<Id>, requested: seq<Id>)
    requires |current| == |requested|
  {
    FitsUpTo(current, requested, |current|)
  }

  predicate FitsUpTo(current: seq<Id>, requested: seq<Id>, k: nat)
    requires k <= |current| == |requested|
  {
    forall i :: 0 <= i < k && i < |current| - TEMPORARY_OFFSET ==> requested[i] == current[TEMPORARY_OFFSET + i]
  }

  /** The only other row that can be in the way of the first phase is the one the request leaves there. */
  lemma InTheWay(rows: map<Id, Image>, l: Id, current: seq<Id>, requested: seq<Id>, k: nat, x: Id)
    requires View(rows, l, current) && Permutes(current, requested) && |current| == |requested| && k < |requested|
    requires FitsUpTo(current, requested, k)
    requires x in rows && x != requested[k] && rows[x].listing == l
    ensures var m := MoveFirst(rows, requested, k, TEMPORARY_OFFSET);
            && x in m && m[x].listing == l
            && (m[x].position == TEMPORARY_OFFSET + k + 1 <==>
                k < |current| - TEMPORARY_OFFSET && x == current[TEMPORARY_OFFSET + k])
  {
    forall i | 0 <= i < |requested| ensures requested[i] in rows && rows[requested[i]].listing == l {
      assert requested[i] in current;
    }
    MoveFirstMoves(rows, requested, k, TEMPORARY_OFFSET);
    assert x in current;
    var j :| 0 <= j < |current| && current[j] == x;
    if AmongIds(requested, k, x) {
      var i :| 0 <= i < k && requested[i] == x;
    }
  }

  lemma FirstPhaseClash(rows: map<Id, Image>, l: Id, current: seq<Id>, requested: seq<Id>, k: nat)
    requires View(rows, l, current) && Permutes(current, requested) && |current| == |requested| && k < |requested|
    requires FitsUpTo(current, requested, k)
    ensures Clash(MoveFirst(rows, requested, k, TEMPORARY_OFFSET), requested[k], TEMPORARY_OFFSET + k + 1) <==>
            k < |current| - TEMPORARY_OFFSET && requested[k] != current[TEMPORARY_OFFSET + k]
  {
    forall i | 0 <= i < |requested| ensures requested[i] in rows && rows[requested[i]].listing == l {
      assert requested[i] in current;
    }
    MoveFirstMoves(rows, requested, k, TEMPORARY_OFFSET);
    assert !AmongIds(requested, k, requested[k]);
    forall x | x in rows && x != requested[k] && rows[x].listing == l
      ensures MoveFirst(rows, requested, k, TEMPORARY_OFFSET)[x].position == TEMPORARY_OFFSET + k + 1 <==>
              k < |current| - TEMPORARY_OFFSET && x == current[TEMPORARY_OFFSET + k]
      ensures MoveFirst(rows, requested, k, TEMPORARY_OFFSET)[x].listing == l
    {
      InTheWay(rows, l, current, requested, k, x);
    }
    SameListing(rows, requested, k, l);
  }

  lemma SameListing(rows: map<Id, Image>, ids: seq<Id>, k: nat, l: Id)
    requires k <= |ids| && Distinct(ids) && forall i :: 0 <= i < |ids| ==> ids[i] in rows && rows[ids[i]].listing == l
    ensures forall x :: x in rows ==>
              && x in MoveFirst(rows, ids, k, TEMPORARY_OFFSET)
              && MoveFirst(rows, ids, k, TEMPORARY_OFFSET)[x].listing == rows[x].listing
  {
    MoveFirstMoves(rows, ids, k, TEMPORARY_OFFSET);
    forall x | x in rows ensures MoveFirst(rows, ids, k, TEMPORARY_OFFSET)[x].listing == rows[x].listing {
      if AmongIds(ids, k, x) {
        var i :| 0 <= i < k && ids[i] == x;
      }
    }
  }

  lemma {:induction false} FirstPhasePrefix(rows: map<Id, Image>, l: Id, current: seq<Id>, requested: seq<Id>, k: nat)
    requires View(rows, l, current) && Permutes(current, requested) && |current| == |requested| && k <= |requested|
    requires NeverClashes(rows, requested, TEMPORARY_OFFSET)
    ensures FitsUpTo(current, requested, k)
  {
    hide View, Permutes, Clash, MoveFirst;
    if k > 0 {
      assert !Clash(MoveFirst(rows, requested, k - 1, TEMPORARY_OFFSET), requested[k - 1], TEMPORARY_OFFSET + k);
      FirstPhasePrefix(rows, l, current, requested, k - 1);
      FirstPhaseClash(rows, l, current, requested, k - 1);
    }
  }

  /** The first phase runs through exactly when the request fits; so always up to 100 images. */
  lemma FirstPhaseFits(rows: map<Id, Image>, l: Id, current: seq<Id>, requested: seq<Id>)
    requires View(rows, l, current) && Permutes(current, requested) && |current| == |requested|
    ensures NeverClashes(rows, requested, TEMPORARY_OFFSET) <==> Fits(current, requested)
    ensures |current| <= TEMPORARY_OFFSET ==> Fits(current, requested)
  {
    if Fits(current, requested) {
      forall k | 0 <= k < |requested|
        ensures !Clash(MoveFirst(rows, requested, k, TEMPORARY_OFFSET), requested[k], TEMPORARY_OFFSET + k + 1)
      {
        FirstPhaseClash(rows, l, current, requested, k);
      }
    }
    if NeverClashes(rows, requested, TEMPORARY_OFFSET) {
      FirstPhasePrefix(rows, l, current, requested, |requested|);
    }
  }

  /** Once all are out of the way, the second phase always runs through. */
  lemma {:induction false} SecondPhaseNeverClashes(rows: map<Id, Image>, l: Id, ids: seq<Id>)
    requires Distinct(ids) && forall id :: id in ids <==> id in rows && rows[id].listing == l
    requires forall i :: 0 <= i < |ids| ==> ids[i] in rows && rows[ids[i]].position == TEMPORARY_OFFSET + i + 1
    ensures NeverClashes(rows, ids, 0)
  {
    forall k | 0 <= k < |ids| ensures !Clash(MoveFirst(rows, ids, k, 0), ids[k], k + 1) {
      MoveFirstMoves(rows, ids, k, 0);
      var m := MoveFirst(rows, ids, k, 0);
      assert !AmongIds(ids, k, ids[k]);
      assert ids[k] in ids;
      forall x | x in m && x != ids[k] && m[x].listing == l ensures m[x].position != k + 1 {
        if !AmongIds(ids, k, x) {
          assert x in ids;
          var j :| 0 <= j < |ids| && ids[j] == x;
        }
      }
    }
  }
}

module ImageSqlite {
  import opened Common
  import opened Sorting
  import opened Images
  import opened ImageStatements

  /** `ORDER BY position ASC, rowid ASC`. */
  function Selected(rows: map<Id, Image>, rowids: seq<Id>, l: Id): seq<Image>
  {
    Sort(Listed(rows, rowids, l), Before)
  }

  ghost predicate Positive(rows: map<Id, Image>)
  {
    forall id :: id in rows ==> rows[id].position >= 1
  }

  /** Filename, content type and size were checked when the rows were made. */
  ghost predicate AllAcceptable(rows: map<Id, Image>)
  {
    forall id :: id in rows ==> Acceptable(rows[id].details)
  }

  lemma BeforeIsTotal()
    ensures TotalPreorder(Before)
  {
  }

  lemma SelectedIsRanked(rows: map<Id, Image>, rowids: seq<Id>, l: Id)
    requires Table(rows, rowids) && UniqueIndex(rows)
    ensures Enumerates(rows, Selected(rows, rowids, l), l)
    ensures Ranked(rows, l, Ids(Selected(rows, rowids, l)))
  {
    BeforeIsTotal();
    SortedListing(rows, rowids, l, Before);
    SortedIsRanked(rows, Selected(rows, rowids, l), l);
  }

  /** Under the unique index, rows sorted by position are strictly so. */
  lemma SortedIsRanked(rows: map<Id, Image>, s: seq<Image>, l: Id)
    requires UniqueIndex(rows) && Enumerates(rows, s, l) && SortedBy(s, Before)
    ensures Ranked(rows, l, Ids(s))
  {
    var ids := Ids(s);
    forall i, j | 0 <= i < j < |ids| ensures rows[ids[i]].position < rows[ids[j]].position {
      assert Before(s[i], s[j]) && ids[i] != ids[j];
      assert rows[ids[i]] == s[i] && rows[ids[j]] == s[j];
    }
  }

  lemma SelectedInOrder(rows: map<Id, Image>, rowids: seq<Id>, l: Id, ids: seq<Id>)
    requires Table(rows, rowids) && Ranked(rows, l, ids)
    ensures Ids(Selected(rows, rowids, l)) == ids && |Selected(rows, rowids, l)| == |ids|
  {
    BeforeIsTotal();
    ListedInOrder(rows, rowids, l, ids, Before);
  }

  /** Building the entities of a result; one bad row fails the whole read. */
  function HydrateAll(images: seq<Image>): Option<seq<Image>>
  {
    if images == [] then Some([])
    else
      match (HydrateAll(images[..|images| - 1]), Construct(images[|images| - 1]))
      case (Some(done), Some(image)) => Some(done + [image])
      case _ => None
  }

  lemma {:induction false} HydratesItself(images: seq<Image>)
    requires forall k :: 0 <= k < |images| ==> Construct(images[k]) == Some(images[k])
    ensures HydrateAll(images) == Some(images)
  {
    if images != [] {
      var rest, last := images[..|images| - 1], images[|images| - 1];
      HydratesItself(rest);
      assert HydrateAll(rest) == Some(rest) && Construct(last) == Some(last) && images == rest + [last];
    }
  }

  /** A listing reads back exactly up to ten images; the rows behind it are not the problem. */
  lemma {:induction false} HydratesIff(images: seq<Image>)
    requires forall k :: 0 <= k < |images| ==> Acceptable(images[k].details) && images[k].position == k + 1
    ensures HydrateAll(images).Some? <==> |images| <= 10
    ensures HydrateAll(images).Some? ==>
              && |HydrateAll(images).value| == |images|
              && forall k :: 0 <= k < |images| ==> HydrateAll(images).value[k] == Settled(images[k])
  {
    if images != [] {
      hide Settled;
      HydratesIff(images[..|images| - 1]);
    }
  }

  /** The hydrated rows of a listing, in the order of `ids`. */
  ghost predicate ReadAs(rows: map<Id, Image>, ids: seq<Id>, images: seq<Image>)
  {
    && |images| == |ids|
    && forall k :: 0 <= k < |ids| ==> ids[k] in rows && images[k] == Settled(rows[ids[k]]) && images[k].id == ids[k]
  }

  lemma ListingReads(rows: map<Id, Image>, rowids: seq<Id>, l: Id, ids: seq<Id>)
    requires Table(rows, rowids) && AllAcceptable(rows) && View(rows, l, ids)
    ensures var read := HydrateAll(Selected(rows, rowids, l));
            && (read.Some? <==> |ids| <= MAX_IMAGES)
            && (read.Some? ==> ReadAs(rows, ids, read.value))
  {
    hide Selected, HydrateAll, Table, SortedBy;
    var images := Selected(rows, rowids, l);
    ViewIsRanked(rows, l, ids);
    SelectedInOrder(rows, rowids, l, ids);
    SelectedEnumerates(rows, rowids, l);
    forall k | 0 <= k < |images|
      ensures images[k] == rows[ids[k]] && Acceptable(images[k].details) && images[k].position == k + 1
    {
      assert Ids(images)[k] == ids[k];
    }
    HydratesIff(images);
  }

  lemma SelectedEnumerates(rows: map<Id, Image>, rowids: seq<Id>, l: Id)
    requires Table(rows, rowids)
    ensures Enumerates(rows, Selected(rows, rowids, l), l)
  {
    BeforeIsTotal();
    SortedListing(rows, rowids, l, Before);
  }

  lemma CoherentHydrates(rows: map<Id, Image>, images: seq<Image>, l: Id)
    requires Coherent(rows) && Enumerates(rows, images, l)
    ensures HydrateAll(images) == Some(images)
  {
    hide HydrateAll;
    HydratesItself(images);
  }

  class SQLiteListingImageRepository {
    var rows: map<Id, Image>
    var rowids: seq<Id>

    ghost predicate Valid()
      reads this
    {
      Table(rows, rowids) && UniqueIndex(rows) && Positive(rows) && AllAcceptable(rows)
    }

    constructor ()
      ensures Valid() && rows == map[]
    {
      rows, rowids := map[], [];
    }

    /** A table that was there before, as the migration leaves it. */
    constructor Open(rows: map<Id, Image>, rowids: seq<Id>)
      requires Table(rows, rowids) && UniqueIndex(rows) && Positive(rows) && AllAcceptable(rows)
      ensures Valid() && this.rows == rows && this.rowids == rowids
    {
      this.rows, this.rowids := rows, rowids;
    }

    method GetListingRows(l: Id) returns (images: seq<Image>)
      requires Valid()
      ensures images == Selected(rows, rowids, l)
    {
      images := [];
      for i := 0 to |rowids|
        invariant images == Listed(rows, rowids[..i], l)
      {
        assert rowids[i] in rowids && rowids[..i + 1][..i] == rowids[..i];
        if rows[rowids[i]].listing == l {
          images := images + [rows[rowids[i]]];
        }
      }
      assert rowids[..|rowids|] == rowids;
      images := Sort(images, Before);
    }

    method GetByListing(l: Id) returns (images: Option<seq<Image>>)
      requires Valid()
      ensures images == HydrateAll(Selected(rows, rowids, l))
    {
      var stored := GetListingRows(l);
      var done: seq<Image> := [];
      for k := 0 to |stored|
        invariant HydrateAll(stored[..k]) == Some(done)
      {
        var image := Construct(stored[k]);
        assert stored[..k + 1][..k] == stored[..k];
        if image.None? {
          HydrationFails(stored, k + 1);
          return None;
        }
        done := done + [image.value];
      }
      assert stored[..|stored|] == stored;
      return Some(done);
    }

    method CountByListing(l: Id) returns (count: nat)
      requires Valid()
      ensures count == |Selected(rows, rowids, l)|
    {
      var images := GetListingRows(l);
      return |images|;
    }

    /** One UPDATE statement: it fails, and changes nothing, when it would violate the index. */
    method UpdatePosition(id: Id, position: int) returns (ok: bool)
      requires UniqueIndex(rows)
      modifies this`rows
      ensures ok <==> !Clash(old(rows), id, position)
      ensures rows == if ok then Moved(old(rows), id, position) else old(rows)
      ensures UniqueIndex(rows)
    {
      if Clash(rows, id, position) {
        return false;
      }
      rows := Moved(rows, id, position);
      return true;
    }

    /** The loop of UPDATE statements; the index is valid after every one of them. */
    method UpdatePositions(ids: seq<Id>, offset: int) returns (ok: bool)
      requires UniqueIndex(rows)
      modifies this`rows
      ensures ok <==> NeverClashes(old(rows), ids, offset)
      ensures ok ==> rows == MoveFirst(old(rows), ids, |ids|, offset)
      ensures UniqueIndex(rows)
    {
      hide UniqueIndex, Clash, Moved;
      for k := 0 to |ids|
        invariant UniqueIndex(rows) && rows == MoveFirst(old(rows), ids, k, offset)
        invariant forall j :: 0 <= j < k ==> !Clash(MoveFirst(old(rows), ids, j, offset), ids[j], offset + j + 1)
      {
        var updated := UpdatePosition(ids[k], offset + k + 1);
        if !updated {
          return false;
        }
      }
      return true;
    }

    /** Close the gaps of a listing. No statement of this loop can violate the index. */
    method CompactListingPositions(l: Id) returns (ok: bool)
      requires Valid()
      modifies this`rows
      ensures Valid() && ok
      ensures View(rows, l, Ids(Selected(old(rows), rowids, l)))
      ensures Renumbered(old(rows), rows, l)
    {
      hide Selected, View, NeverClashes, MoveFirst, UniqueIndex;
      var images := GetListingRows(l);
      ghost var ids := Ids(images);
      SelectedIsRanked(rows, rowids, l);
      RankedHoldsExactly(rows, l, images);
      CompactionNeverClashes(rows, l, ids);
      MovedIsView(rows, l, ids);
      MovedRenumbers(rows, l, ids);
      ok := UpdatePositions(Ids(images), 0);
      RenumberedKeepsTable(old(rows), rows, rowids, l);
      RenumberedIsPositive(old(rows), rows, l, ids);
      RenumberedIsAcceptable(old(rows), rows, l);
    }

    /** INSERT: the primary key and the unique index may refuse the row. */
    method StoreImage(image: Image) returns (ok: bool)
      requires Valid() && Construct(image) == Some(image)
      modifies this
      ensures Valid()
      ensures ok <==> image.id !in old(rows) && Free(old(rows), image.listing, image.position)
      ensures ok ==> rows == old(rows)[image.id := image] && rowids == old(rowids) + [image.id]
      ensures !ok ==> rows == old(rows) && rowids == old(rowids)
    {
      if image.id in rows || !Free(rows, image.listing, image.position) {
        return false;
      }
      rows, rowids := rows[image.id := image], rowids + [image.id];
      return true;
    }

    method DeleteById(id: Id) returns (deleted: bool)
      requires Valid()
      modifies this
      ensures Valid() && (deleted <==> id in old(rows))
      ensures !deleted ==> rows == old(rows) && rowids == old(rowids)
      ensures deleted ==>
        var l := old(rows)[id].listing;
        && Table(old(rows) - {id}, rowids)
        && Renumbered(old(rows) - {id}, rows, l)
        && View(rows, l, Ids(Selected(old(rows) - {id}, rowids, l)))
    {
      hide Selected, View;
      if id !in rows {
        return false;
      }
      var l := rows[id].listing;
      WithoutKeeps(rowids, id);
      rows, rowids := rows - {id}, Without(rowids, id);
      var ok := CompactListingPositions(l);
      assert ok;
      return true;
    }

    method GetById(id: Id) returns (image: Option<Image>)
      ensures image == if id in rows then Construct(rows[id]) else None
    {
      image := if id in rows then Construct(rows[id]) else None;
    }

    /** The checks look at the hydrated entity, the UPDATE writes the raw row; read back, the row is what
        the memory repository would have stored. `raised` says that the row cannot be hydrated. */
    method ClaimForProcessing(id: Id, maxAttempts: nat) returns (claimed: Option<Image>, raised: bool)
      requires Valid()
      modifies this`rows
      ensures Valid() && (raised <==> id in old(rows) && old(rows)[id].position > MAX_IMAGES)
      ensures claimed == if id in old(rows) && !raised && Claimable(Settled(old(rows)[id]), maxAttempts)
                         then Some(Claimed(Settled(old(rows)[id]))) else None
      ensures if claimed.Some? then RowReads(old(rows), rows, id, claimed.value) else rows == old(rows)
    {
      if id !in rows {
        return None, false;
      }
      var image := Construct(rows[id]);
      if image.None? {
        return None, true;
      }
      if image.value.status == Ready || image.value.status == Processing || image.value.attempts >= maxAttempts {
        return None, false;
      }
      rows := rows[id := rows[id].(status := Processing, attempts := image.value.attempts + 1)];
      claimed := GetById(id);
      raised := false;
    }

    method MarkReady(id: Id, thumbnails: set<Size>) returns (ready: Option<Image>, raised: bool)
      requires Valid()
      modifies this`rows
      ensures Valid()
      ensures raised <==> id in old(rows) && old(rows)[id].position > MAX_IMAGES
      ensures ready.Some? <==> id in old(rows) && !raised
      ensures ready.Some? ==>
        ready.value == MarkedReady(Settled(old(rows)[id]), thumbnails) && RowReads(old(rows), rows, id, ready.value)
      ensures rows == if id in old(rows)
                      then old(rows)[id := old(rows)[id].(thumbs := thumbnails, status := Ready, error := false)]
                      else old(rows)
    {
      if id in rows {
        rows := rows[id := rows[id].(thumbs := thumbnails, status := Ready, error := false)];
      }
      ready := GetById(id);
      raised := id in rows && ready.None?;
    }

    method MarkFailed(id: Id) returns (failed: Option<Image>, raised: bool)
      requires Valid()
      modifies this`rows
      ensures Valid()
      ensures raised <==> id in old(rows) && old(rows)[id].position > MAX_IMAGES
      ensures failed.Some? <==> id in old(rows) && !raised
      ensures failed.Some? ==>
        failed.value == MarkedFailed(Settled(old(rows)[id])) && RowReads(old(rows), rows, id, failed.value)
      ensures rows == if id in old(rows) then old(rows)[id := old(rows)[id].(status := Failed, error := true)]
                      else old(rows)
    {
      if id in rows {
        rows := rows[id := rows[id].(status := Failed, error := true)];
      }
      failed := GetById(id);
      raised := id in rows && failed.None?;
    }

    /** Move the whole listing out of the way and back; a violated index undoes everything. */
    method ReorderForListing(l: Id, requested: seq<Id>) returns (r: Result<seq<Image>, Error>)
      requires Valid()
      modifies this`rows
      ensures Valid()
      ensures var current := Ids(Selected(old(rows), rowids, l));
              && (r == Err(DuplicateIds) <==> !Distinct(requested))
              && (r == Err(NotAPermutation) <==> Distinct(requested) && !Permutes(current, requested))
              && (r == Err(IndexViolated) <==>
                  Permutes(current, requested) && !NeverClashes(old(rows), requested, TEMPORARY_OFFSET))
              && (r == Err(InvalidPosition) <==>
                  && Permutes(current, requested) && NeverClashes(old(rows), requested, TEMPORARY_OFFSET)
                  && |requested| > MAX_IMAGES)
      ensures r.Err? ==> r.error in {DuplicateIds, NotAPermutation, IndexViolated, InvalidPosition}
      ensures r.Err? && r.error != InvalidPosition ==> rows == old(rows)
      ensures r.Ok? || r == Err(InvalidPosition) ==> View(rows, l, requested) && Renumbered(old(rows), rows, l)
      ensures r.Ok? ==> ReadAs(rows, requested, r.value)
    {
      hide Selected, View, NeverClashes, MoveFirst, UniqueIndex, HydrateAll;
      SelectedIsRanked(rows, rowids, l);
      RankedHoldsExactly(rows, l, Selected(rows, rowids, l));
      ComparedBySets(Ids(Selected(rows, rowids, l)), requested);
      if |requested| != |IdSet(requested)| {
        return Err(DuplicateIds);
      }
      var images := GetListingRows(l);
      var current := Ids(images);
      if |current| != |requested| || IdSet(current) != IdSet(requested) {
        return Err(NotAPermutation);
      }
      ghost var before := rows;
      var saved := rows;
      RequestedAreStored(rows, l, current, requested);
      var ok := UpdatePositions(requested, TEMPORARY_OFFSET);
      if !ok {
        rows := saved;
        return Err(IndexViolated);
      }
      ghost var aside := rows;
      ComesBack(before, aside, l, requested);
      ok := UpdatePositions(requested, 0);
      RenumberedTwice(before, aside, rows, l);
      RenumberedKeepsTable(before, rows, rowids, l);
      RenumberedIsPositive(before, rows, l, requested);
      RenumberedIsAcceptable(before, rows, l);
      ListingReads(rows, rowids, l, requested);
      hide ReadAs;
      var result := GetByListing(l);
      match result {
        case Some(hydrated) => return Ok(hydrated);
        case None => return Err(InvalidPosition);
      }
    }
  }

  lemma HydrationFails(images: seq<Image>, k: nat)
    requires k <= |images| && HydrateAll(images[..k]).None?
    ensures HydrateAll(images).None?
    decreases |images| - k
  {
    if k < |images| {
      assert images[..k + 1][..k] == images[..k];
      HydrationFails(images, k + 1);
    } else {
      assert images[..k] == images;
    }
  }

  /** Only row `id` changed, and it now reads as `image`. */
  ghost predicate RowReads(before: map<Id, Image>, rows: map<Id, Image>, id: Id, image: Image)
  {
    && id in rows && rows == before[id := rows[id]] && Construct(rows[id]) == Some(image)
  }

  predicate Free(rows: map<Id, Image>, l: Id, position: int)
  {
    forall x :: x in rows && rows[x].listing == l ==> rows[x].position != position
  }

  /** Between the two, images of `l` may have moved; nothing else changed. */
  ghost predicate Renumbered(before: map<Id, Image>, rows: map<Id, Image>, l: Id)
  {
    && rows.Keys == before.Keys
    && (forall id :: id in rows ==> rows[id] == before[id].(position := rows[id].position))
    && (forall id :: id in rows && before[id].listing != l ==> rows[id] == before[id])
  }

  lemma MovedRenumbers(rows: map<Id, Image>, l: Id, ids: seq<Id>)
    requires Distinct(ids) && forall id :: id in ids <==> id in rows && rows[id].listing == l
    ensures Renumbered(rows, MoveFirst(rows, ids, |ids|, 0), l)
    ensures Renumbered(rows, MoveFirst(rows, ids, |ids|, TEMPORARY_OFFSET), l)
  {
    hide MoveFirst;
    MovedKeepsOthers(rows, l, ids, 0);
    MovedKeepsOthers(rows, l, ids, TEMPORARY_OFFSET);
  }

  lemma RenumberedTwice(before: map<Id, Image>, aside: map<Id, Image>, rows: map<Id, Image>, l: Id)
    requires Renumbered(before, aside, l) && Renumbered(aside, rows, l)
    ensures Renumbered(before, rows, l)
  {
  }

  lemma RenumberedKeepsTable(before: map<Id, Image>, rows: map<Id, Image>, rowids: seq<Id>, l: Id)
    requires Renumbered(before, rows, l) && Table(before, rowids)
    ensures Table(rows, rowids) && OthersKept(before, rows, l)
  {
  }

  lemma RenumberedIsPositive(before: map<Id, Image>, rows: map<Id, Image>, l: Id, ids: seq<Id>)
    requires Renumbered(before, rows, l) && Positive(before) && View(rows, l, ids)
    ensures Positive(rows)
  {
    forall id | id in rows ensures rows[id].position >= 1 {
      if rows[id].listing == l {
        assert id in ids;
        var k :| 0 <= k < |ids| && ids[k] == id;
      }
    }
  }

  lemma RenumberedIsAcceptable(before: map<Id, Image>, rows: map<Id, Image>, l: Id)
    requires Renumbered(before, rows, l) && AllAcceptable(before)
    ensures AllAcceptable(rows)
  {
  }

  /** Renumbering keeps coherent rows coherent as long as the listing has at most ten images. */
  lemma RenumberedIsCoherent(before: map<Id, Image>, rows: map<Id, Image>, l: Id, ids: seq<Id>)
    requires Renumbered(before, rows, l) && Coherent(before) && View(rows, l, ids) && |ids| <= MAX_IMAGES
    ensures Coherent(rows)
  {
    forall id | id in rows ensures Construct(rows[id]) == Some(rows[id]) {
      assert Construct(before[id]) == Some(before[id]);
      if rows[id].listing == l {
        assert id in ids;
        var k :| 0 <= k < |ids| && ids[k] == id;
      }
    }
  }

  lemma RankedHoldsExactly(rows: map<Id, Image>, l: Id, images: seq<Image>)
    requires Enumerates(rows, images, l) && Ranked(rows, l, Ids(images))
    ensures Distinct(Ids(images)) && forall id :: id in Ids(images) <==> id in rows && rows[id].listing == l
  {
    var ids := Ids(images);
    forall id | id in ids ensures id in rows && rows[id].listing == l {
      var k :| 0 <= k < |ids| && ids[k] == id;
    }
  }

  lemma RequestedAreStored(rows: map<Id, Image>, l: Id, current: seq<Id>, requested: seq<Id>)
    requires Distinct(current) && forall id :: id in current <==> id in rows && rows[id].listing == l
    requires Permutes(current, requested)
    ensures forall id :: id in requested <==> id in rows && rows[id].listing == l
    ensures Renumbered(rows, MoveFirst(rows, requested, |requested|, TEMPORARY_OFFSET), l)
    ensures forall i :: 0 <= i < |requested| ==>
              && requested[i] in MoveFirst(rows, requested, |requested|, TEMPORARY_OFFSET)
              && MoveFirst(rows, requested, |requested|, TEMPORARY_OFFSET)[requested[i]].position ==
                 TEMPORARY_OFFSET + i + 1
  {
    hide MoveFirst;
    MovedRenumbers(rows, l, requested);
    forall i | 0 <= i < |requested| ensures requested[i] in rows {
      assert requested[i] in requested;
    }
    MoveFirstMoves(rows, requested, |requested|, TEMPORARY_OFFSET);
  }

  lemma ComesBack(before: map<Id, Image>, aside: map<Id, Image>, l: Id, requested: seq<Id>)
    requires Distinct(requested) && Renumbered(before, aside, l)
    requires forall id :: id in requested <==> id in before && before[id].listing == l
    requires forall i :: 0 <= i < |requested| ==>
               requested[i] in aside && aside[requested[i]].position == TEMPORARY_OFFSET + i + 1
    ensures NeverClashes(aside, requested, 0)
    ensures View(MoveFirst(aside, requested, |requested|, 0), l, requested)
    ensures Renumbered(aside, MoveFirst(aside, requested, |requested|, 0), l)
  {
    hide MoveFirst, NeverClashes;
    assert forall id :: id in requested <==> id in aside && aside[id].listing == l;
    SecondPhaseNeverClashes(aside, l, requested);
    MovedIsView(aside, l, requested);
    MovedRenumbers(aside, l, requested);
  }

  /** A viewed listing of at most 100 images can be reordered freely; a longer one exactly when the
      request leaves in place what the temporary range would overwrite. */
  lemma {:induction false} ReorderSucceedsIff(rows: map<Id, Image>, rowids: seq<Id>, l: Id,
                                              current: seq<Id>, requested: seq<Id>)
    requires Table(rows, rowids) && View(rows, l, current) && Permutes(current, requested)
    ensures |current| == |requested|
    ensures NeverClashes(rows, requested, TEMPORARY_OFFSET) <==>
            forall i :: 0 <= i < |current| - 100 ==> requested[i] == current[100 + i]
    ensures |current| <= 100 ==> NeverClashes(rows, requested, TEMPORARY_OFFSET)
  {
    hide NeverClashes;
    ComparedBySets(current, requested);
    FirstPhaseFits(rows, l, current, requested);
  }

  /** A listing of `n` images, as the migration leaves one that was filled before the limit existed. */
  function LongRows(l: Id, n: nat): map<Id, Image>
  {
    map i | i in UpTo(n) :: Image(i, l, Details("photo.jpg", "image/jpeg", 1), i + 1, 0, {}, Pending, false, 0)
  }

  function UpTo(n: nat): seq<Id>
  {
    seq(n, i => i)
  }

  function DownFrom(n: nat): seq<Id>
  {
    seq(n, i requires 0 <= i < n => n - 1 - i)
  }

  lemma CountsTo(n: nat)
    ensures |UpTo(n)| == |DownFrom(n)| == n
    ensures forall k :: 0 <= k < n ==> UpTo(n)[k] == k && DownFrom(n)[k] == n - 1 - k
    ensures forall id :: id in UpTo(n) <==> 0 <= id < n
    ensures forall id :: id in DownFrom(n) <==> 0 <= id < n
  {
    var up, down := UpTo(n), DownFrom(n);
    forall id | 0 <= id < n ensures id in up && id in down {
      assert up[id] == id && down[n - 1 - id] == id;
    }
  }

  lemma LongListing(l: Id, n: nat)
    ensures var rows, ids := LongRows(l, n), UpTo(n);
            && Table(rows, ids) && UniqueIndex(rows) && Positive(rows) && AllAcceptable(rows) && View(rows, l, ids)
            && Permutes(ids, DownFrom(n))
  {
    CountsTo(n);
    hide UpTo, DownFrom;
  }

  /** A listing of 11 to 100 images can be turned around, and the call still raises: the new order is stored
      before reading it back fails. */
  method ReverseLongListing(l: Id, n: nat) returns (repo: SQLiteListingImageRepository, r: Result<seq<Image>, Error>)
    requires 10 < n <= 100
    ensures r == Err(InvalidPosition) && View(repo.rows, l, DownFrom(n))
  {
    hide LongRows, UpTo, DownFrom, Table, UniqueIndex, Positive, AllAcceptable, View, Permutes, Selected, NeverClashes;
    LongListing(l, n);
    var rows, rowids := LongRows(l, n), UpTo(n);
    CountsTo(n);
    repo := new SQLiteListingImageRepository.Open(rows, rowids);
    ViewIsRanked(rows, l, rowids);
    SelectedInOrder(rows, rowids, l, rowids);
    ReorderSucceedsIff(rows, rowids, l, rowids, DownFrom(n));
    r := repo.ReorderForListing(l, DownFrom(n));
  }

  /** The media service over this repository; it keeps the same abstract state as over the other one. */
  class SqliteMediaService {
    const repo: SQLiteListingImageRepository
    ghost var gallery: Gallery

    ghost predicate Valid()
      reads this, repo
    {
      repo.Valid() && Coherent(repo.rows) && Represents(repo.rows, gallery)
    }

    constructor ()
      ensures Valid() && gallery == map[]
    {
      repo := new SQLiteListingImageRepository();
      gallery := map[];
    }

    method UploadImage(l: Id, id: Id, details: Details, createdAt: int) returns (r: Result<Image, Error>)
      requires Valid() && id !in repo.rows
      modifies this, repo
      ensures Valid()
      ensures r == Err(MaxImagesExceeded) <==> |Of(old(gallery), l)| >= 10
      ensures r == Err(InvalidDetails) <==> |Of(old(gallery), l)| < MAX_IMAGES && !Acceptable(details)
      ensures r.Err? ==> r.error in {MaxImagesExceeded, InvalidDetails} && gallery == old(gallery)
      ensures r.Ok? ==> gallery == Appended(old(gallery), l, id) && r.value.position == |Of(old(gallery), l)| + 1
    {
      hide Selected, HydrateAll, UniqueIndex, Represents;
      ghost var ids, before := Of(gallery, l), repo.rows;
      Shown(repo.rows, gallery, l);
      ListingIsRead(repo.rows, repo.rowids, l, ids);
      var count := repo.CountByListing(l);
      if count >= MAX_IMAGES {
        return Err(MaxImagesExceeded);
      }
      var existing := repo.GetByListing(l);
      var image := Construct(Image(id, l, details, |existing.value| + 1, createdAt, {}, Pending, false, 0));
      if image.None? {
        return Err(InvalidDetails);
      }
      NextIsFree(before, l, ids);
      AppendedIsView(before, l, ids, image.value);
      AddedAlone(before, image.value);
      var ok := repo.StoreImage(image.value);
      NewSequence(before, gallery, repo.rows, l, ids + [id]);
      gallery := Appended(gallery, l, id);
      return Ok(image.value);
    }

    method DeleteImage(id: Id) returns (deleted: bool)
      requires Valid()
      modifies this, repo
      ensures Valid() && (deleted <==> id in old(repo.rows))
      ensures gallery == if deleted then Removed(old(gallery), old(repo.rows)[id].listing, id) else old(gallery)
    {
      hide Selected, UniqueIndex, Renumbered, Coherent;
      ghost var before := repo.rows;
      deleted := repo.DeleteById(id);
      if deleted {
        ghost var l := before[id].listing;
        assert Shows(before, gallery, l);
        ghost var left := Without(Of(gallery, l), id);
        RemovedIsRanked(before, l, Of(gallery, l), id);
        WithoutLength(Of(gallery, l), id);
        SelectedInOrder(before - {id}, repo.rowids, l, left);
        RestIsCoherent(before, id);
        RenumberedIsCoherent(before - {id}, repo.rows, l, left);
        RemovedAlone(before, repo.rows, repo.rowids, l, id);
        NewSequence(before, gallery, repo.rows, l, left);
        gallery := Removed(gallery, l, id);
      }
    }

    method ReorderListingImages(l: Id, requested: seq<Id>) returns (r: Result<seq<Image>, Error>)
      requires Valid()
      modifies this, repo
      ensures Valid()
      ensures r.Ok? <==> Permutes(Of(old(gallery), l), requested)
      ensures r == Err(DuplicateIds) <==> !Distinct(requested)
      ensures r.Err? ==> r.error in {DuplicateIds, NotAPermutation} && gallery == old(gallery)
      ensures r.Ok? ==> gallery == old(gallery)[l := requested] && Ids(r.value) == requested
    {
      hide Selected, HydrateAll, UniqueIndex, Renumbered, Coherent, NeverClashes, View, Represents, Permutes;
      ghost var ids, before := Of(gallery, l), repo.rows;
      Shown(repo.rows, gallery, l);
      ListingIsRead(repo.rows, repo.rowids, l, ids);
      ComparedBySets(ids, requested);
      var current := repo.GetByListing(l);
      if |requested| != |IdSet(requested)| {
        return Err(DuplicateIds);
      }
      if |current.value| != |requested| || IdSet(Ids(current.value)) != IdSet(requested) {
        return Err(NotAPermutation);
      }
      ReorderSucceedsIff(before, repo.rowids, l, ids, requested);
      r := repo.ReorderForListing(l, requested);
      Reordered(before, gallery, repo.rows, repo.rowids, l, requested);
      gallery := gallery[l := requested];
    }
  }

  /** Reading a listing back gives its images, in order. */
  lemma ListingIsRead(rows: map<Id, Image>, rowids: seq<Id>, l: Id, ids: seq<Id>)
    requires Table(rows, rowids) && UniqueIndex(rows) && Coherent(rows) && View(rows, l, ids)
    ensures var s := Selected(rows, rowids, l); Ids(s) == ids && |s| == |ids| && HydrateAll(s) == Some(s)
  {
    hide Selected, HydrateAll;
    ViewIsRanked(rows, l, ids);
    SelectedInOrder(rows, rowids, l, ids);
    SelectedIsRanked(rows, rowids, l);
    CoherentHydrates(rows, Selected(rows, rowids, l), l);
  }

  /** After a reorder the rows represent the new order, and read back in it. */
  lemma Reordered(before: map<Id, Image>, g: Gallery, rows: map<Id, Image>, rowids: seq<Id>, l: Id, ids: seq<Id>)
    requires Renumbered(before, rows, l) && Table(before, rowids) && Coherent(before) && Represents(before, g)
    requires UniqueIndex(rows) && View(rows, l, ids) && |ids| <= MAX_IMAGES
    ensures Coherent(rows) && Represents(rows, g[l := ids])
    ensures var s := Selected(rows, rowids, l); Ids(s) == ids && HydrateAll(s) == Some(s)
  {
    hide Selected, HydrateAll, UniqueIndex, Renumbered, Coherent, Table, Represents;
    RenumberedIsCoherent(before, rows, l, ids);
    RenumberedKeepsTable(before, rows, rowids, l);
    ListingIsRead(rows, rowids, l, ids);
    NewSequence(before, g, rows, l, ids);
  }

  lemma NextIsFree(rows: map<Id, Image>, l: Id, ids: seq<Id>)
    requires View(rows, l, ids)
    ensures Free(rows, l, |ids| + 1)
  {
    forall x | x in rows && rows[x].listing == l ensures rows[x].position != |ids| + 1 {
      assert x in ids;
      var k :| 0 <= k < |ids| && ids[k] == x;
    }
  }

  lemma AddedAlone(before: map<Id, Image>, image: Image)
    requires image.id !in before && Construct(image) == Some(image) && Coherent(before)
    ensures OthersKept(before, before[image.id := image], image.listing) && Coherent(before[image.id := image])
  {
  }

  lemma RestIsCoherent(before: map<Id, Image>, id: Id)
    requires Coherent(before)
    ensures Coherent(before - {id})
  {
  }

  lemma RemovedAlone(before: map<Id, Image>, rows: map<Id, Image>, rowids: seq<Id>, l: Id, id: Id)
    requires id in before && before[id].listing == l
    requires Renumbered(before - {id}, rows, l) && Table(before - {id}, rowids)
    ensures OthersKept(before, rows, l)
  {
    assert forall x :: x in before && x != id ==> x in before - {id} && (before - {id})[x] == before[x];
  }
}
