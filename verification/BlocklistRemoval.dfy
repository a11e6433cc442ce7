// Removing releases from the blocklist (src/lib/arr-history-data.ts, lines 120-178).
module BlocklistRemoval {
  import opened Options

  // Record ids are positive whole numbers; anything else is not read as a record.
  type Id = x: int | x > 0 witness 1

  datatype Entry = Entry(id: Id, title: string)

  datatype Viewed = Viewed(page: nat, pageSize: nat)

  const SCAN_PAGE := 1_000
  const SCAN_PAGES := 20

  function Min(a: nat, b: nat): nat { if a < b then a else b }

  // Where a page of the list begins and ends; pages count from one.
  function PageStart(list: seq<Entry>, page: nat, size: nat): (r: nat)
    requires page >= 1
    ensures r <= |list|
  {
    Min((page - 1) * size, |list|)
  }

  function PageEnd(list: seq<Entry>, page: nat, size: nat): (r: nat)
    requires page >= 1
    ensures PageStart(list, page, size) <= r <= |list|
  {
    assert page * size == (page - 1) * size + size;
    Min(page * size, |list|)
  }

  ghost predicate Honest(list: seq<Entry>) { forall i, j :: 0 <= i < j < |list| ==> list[i].id != list[j].id }

  predicate GoodPaging(viewed: Option<Viewed>) { viewed.Some? ==> viewed.value.page >= 1 && viewed.value.pageSize >= 1 }

  // The place is among the newest 20,000, or on the viewed page or one of its neighbours.
  predicate WithinReach(k: int, viewed: Option<Viewed>) {
    || 0 <= k < 20_000
    || (viewed.Some?
       && (viewed.value.page - 2) * viewed.value.pageSize <= k < (viewed.value.page + 1) * viewed.value.pageSize)
  }

  ghost predicate Reachable(list: seq<Entry>, id: Id, viewed: Option<Viewed>) {
    exists k :: 0 <= k < |list| && list[k].id == id && WithinReach(k, viewed)
  }

  // The places read so far settle which ids are still wanted and what was found.
  ghost predicate Settled(list: seq<Entry>, ids: seq<Id>, seen: set<nat>, wanted: set<Id>, found: map<Id, Entry>) {
    && (forall k :: k in seen ==> k < |list|)
    && (forall id :: id in wanted ==> id in ids)
    && (forall id :: id in ids && id !in wanted ==>
       id in found && exists k :: k in seen && list[k] == found[id] && list[k].id == id)
    && (forall id, k :: id in wanted && k in seen ==> list[k].id != id)
  }

  predicate PageHolds(page: int, size: nat, k: int) { page >= 1 && (page - 1) * size <= k < page * size }

  ghost predicate AllSeen(list: seq<Entry>, seen: set<nat>, lo: int, hi: int) {
    forall k: nat :: lo <= k < hi && k < |list| ==> k in seen
  }

  method Take(list: seq<Entry>, ids: seq<Id>, page: nat, size: nat, ghost seen: set<nat>, wanted: set<Id>,
      found: map<Id, Entry>)
    returns (ghost seen': set<nat>, wanted': set<Id>, found': map<Id, Entry>, count: nat)
    requires page >= 1 && Settled(list, ids, seen, wanted, found)
    ensures Settled(list, ids, seen', wanted', found') && wanted' <= wanted
    ensures seen <= seen' && forall k :: k in seen' ==> k in seen || PageHolds(page, size, k)
    ensures forall k: nat :: PageHolds(page, size, k) && k < |list| ==> k in seen'
    ensures count == PageEnd(list, page, size) - PageStart(list, page, size)
  {
    seen', wanted', found' := seen, wanted, found;
    var from, to := PageStart(list, page, size), PageEnd(list, page, size);
    count := to - from;
    assert page * size == (page - 1) * size + size;
    for k := from to to
      invariant seen <= seen' && (forall j :: j in seen' ==> j in seen || from <= j < k)
        && AllSeen(list, seen', from, k)
      invariant wanted' <= wanted && Settled(list, ids, seen', wanted', found')
    {
      if list[k].id in wanted' {
        wanted' := wanted' - {list[k].id};
        found' := found'[list[k].id := list[k]];
      }
      seen' := seen' + {k};
    }
  }

  // An id is not among the newest n.
  ghost predicate StillWanted(list: seq<Entry>, wanted: set<Id>, n: nat) {
    exists id :: id in wanted && forall k :: 0 <= k < n && k < |list| ==> list[k].id != id
  }

  lemma SomeStillWanted(list: seq<Entry>, ids: seq<Id>, seen: set<nat>, wanted: set<Id>, wanted': set<Id>,
                        found: map<Id, Entry>, n: nat)
    requires Settled(list, ids, seen, wanted', found) && wanted' <= wanted && wanted' != {} && AllSeen(list, seen, 0, n)
    ensures StillWanted(list, wanted, n)
  {
    var id :| id in wanted';
    assert forall k: nat :: k < n && k < |list| ==> k in seen && list[k].id != id;
  }

  // The newest-first scan: to the end of the list (no answer), to its cap, or until
  // nothing is wanted any more.
  method Scan(list: seq<Entry>, ids: seq<Id>, ghost seen: set<nat>, wanted: set<Id>, found: map<Id, Entry>)
    returns (ghost seen': set<nat>, wanted': set<Id>, found': map<Id, Entry>, scannedThrough: Option<nat>, pages: nat)
    requires Settled(list, ids, seen, wanted, found)
    ensures Settled(list, ids, seen', wanted', found') && wanted' <= wanted && pages <= SCAN_PAGES
    ensures seen <= seen' && forall k :: k in seen' ==> k in seen || k < SCAN_PAGES * SCAN_PAGE
    ensures scannedThrough.None? ==> AllSeen(list, seen', 0, |list|)
    ensures scannedThrough.Some? ==> AllSeen(list, seen', 0, scannedThrough.value)
    ensures scannedThrough.Some? && wanted' != {} ==> scannedThrough.value == SCAN_PAGES * SCAN_PAGE
    // No page is read that was not needed: before each, an id was still not seen.
    ensures forall p :: 0 <= p < pages ==>
      StillWanted(list, wanted, p * SCAN_PAGE) && (p > 0 ==> p * SCAN_PAGE < |list|)
  {
    seen', wanted', found', scannedThrough, pages := seen, wanted, found, Some(0), 0;
    for page := 1 to SCAN_PAGES + 1
      invariant Settled(list, ids, seen', wanted', found') && wanted' <= wanted
      invariant pages == page - 1 && scannedThrough == Some((page - 1) * SCAN_PAGE)
      invariant AllSeen(list, seen', 0, (page - 1) * SCAN_PAGE) && seen <= seen'
      invariant forall k :: k in seen' ==> k in seen || k < (page - 1) * SCAN_PAGE
      invariant forall p :: 0 <= p < pages ==>
        StillWanted(list, wanted, p * SCAN_PAGE) && (p > 0 ==> p * SCAN_PAGE < |list|)
      invariant pages > 0 ==> pages * SCAN_PAGE < |list|
    {
      if wanted' == {} { break; }
      SomeStillWanted(list, ids, seen', wanted, wanted', found', pages * SCAN_PAGE);
      var count;
      seen', wanted', found', count := Take(list, ids, page, SCAN_PAGE, seen', wanted', found');
      pages := pages + 1;
      if count == 0 || page * SCAN_PAGE >= |list| {
        scannedThrough := None;
        break;
      }
      scannedThrough := Some(page * SCAN_PAGE);
    }
  }

  // A page next to the viewed one, when the scan did not already cover it.
  method TakeNeighbour(list: seq<Entry>, ids: seq<Id>, page: nat, size: nat, scannedThrough: nat,
                       ghost seen: set<nat>, wanted: set<Id>, found: map<Id, Entry>)
    returns (ghost seen': set<nat>, wanted': set<Id>, found': map<Id, Entry>, pages: nat)
    requires Settled(list, ids, seen, wanted, found) && AllSeen(list, seen, 0, scannedThrough)
    ensures Settled(list, ids, seen', wanted', found') && wanted' <= wanted && pages <= 1
    ensures seen <= seen' && forall k :: k in seen' ==> k in seen || PageHolds(page, size, k)
    ensures wanted != {} ==> forall k: nat :: PageHolds(page, size, k) && k < |list| ==> k in seen'
  {
    seen', wanted', found', pages := seen, wanted, found, 0;
    if wanted != {} && page >= 1 && page * size > scannedThrough {
      var count;
      seen', wanted', found', count := Take(list, ids, page, size, seen, wanted, found);
      pages := 1;
    }
  }

  predicate NearViewed(viewed: Option<Viewed>, k: nat) {
    && viewed.Some?
    && var p: int, s := viewed.value.page, viewed.value.pageSize;
       PageHolds(p - 1, s, k) || PageHolds(p, s, k) || PageHolds(p + 1, s, k)
  }

  // What the pages and the scan cover is exactly what is within reach.
  lemma ReachIsThePages(viewed: Option<Viewed>, k: nat)
    requires GoodPaging(viewed)
    ensures WithinReach(k, viewed) <==> k < SCAN_PAGES * SCAN_PAGE || NearViewed(viewed, k)
  {
    if viewed.Some? {
      var p: int, s: int := viewed.value.page, viewed.value.pageSize;
      assert (p - 2) * s == p * s - 2 * s && (p - 1) * s == p * s - s && (p + 1) * s == p * s + s;
      assert p - 1 == 0 ==> (p - 1) * s == 0;
    }
  }

  // The removal either names every id's own entry, in order, and sends the ids once; or an
  // id is not where it could be seen, and nothing is sent.
  method RemoveFromBlocklist(list: seq<Entry>, ids: seq<Id>, viewed: Option<Viewed>)
    returns (removed: Option<seq<Entry>>, sent: seq<seq<Id>>, pagesRead: nat)
    requires Honest(list) && GoodPaging(viewed)
    ensures removed.Some? <==> forall id :: id in ids ==> Reachable(list, id, viewed)
    ensures removed.Some? ==> sent == [ids] && |removed.value| == |ids|
    ensures removed.Some? ==> forall i :: 0 <= i < |ids| ==> removed.value[i] in list && removed.value[i].id == ids[i]
    ensures removed.None? ==> sent == []
    ensures pagesRead <= 23
  {
    var wanted := set id | id in ids;
    var found: map<Id, Entry> := map[];
    ghost var seen: set<nat> := {};
    pagesRead := 0;
    if viewed.Some? {
      var count;
      seen, wanted, found, count := Take(list, ids, viewed.value.page, viewed.value.pageSize, seen, wanted, found);
      pagesRead := 1;
    }
    var scannedThrough, pages;
    seen, wanted, found, scannedThrough, pages := Scan(list, ids, seen, wanted, found);
    pagesRead := pagesRead + pages;
    if viewed.Some? && scannedThrough.Some? {
      var more;
      seen, wanted, found, more := TakeNeighbour(list, ids, viewed.value.page + 1, viewed.value.pageSize,
        scannedThrough.value, seen, wanted, found);
      pagesRead := pagesRead + more;
      seen, wanted, found, more := TakeNeighbour(list, ids, viewed.value.page - 1, viewed.value.pageSize,
        scannedThrough.value, seen, wanted, found);
      pagesRead := pagesRead + more;
    }
    forall k: nat
      ensures WithinReach(k, viewed) <==> k < SCAN_PAGES * SCAN_PAGE || NearViewed(viewed, k)
    {
      ReachIsThePages(viewed, k);
    }
    assert forall k :: k in seen ==> WithinReach(k, viewed);
    if wanted != {} {
      assert forall k: nat :: k < |list| && WithinReach(k, viewed) ==> k in seen;
      assert forall id :: id in wanted ==> id in ids && !Reachable(list, id, viewed);
      assert exists id :: id in wanted;
      return None, [], pagesRead;
    }
    sent := [ids];
    forall i | 0 <= i < |ids|
      ensures ids[i] in found && found[ids[i]] in list && found[ids[i]].id == ids[i]
    {
      assert ids[i] in ids;
    }
    removed := Some(EntriesOf(ids, found));
  }

  function EntriesOf(ids: seq<Id>, found: map<Id, Entry>): (entries: seq<Entry>)
    requires forall i :: 0 <= i < |ids| ==> ids[i] in found
    ensures |entries| == |ids| && forall i :: 0 <= i < |ids| ==> entries[i] == found[ids[i]]
  {
    seq(|ids|, i requires 0 <= i < |ids| => found[ids[i]])
  }

  // ── an entry that moved ────────────────────────────────────────────────────

  // An entry picked on a viewed page is found, however deep, when the list has shifted by
  // at most one page since.
  lemma ShiftedByAPageIsFound(list: seq<Entry>, id: Id, viewed: Viewed, was: nat, now: nat)
    requires viewed.page >= 1 && (viewed.page - 1) * viewed.pageSize <= was < viewed.page * viewed.pageSize
    requires now < |list| && list[now].id == id && was - viewed.pageSize <= now <= was + viewed.pageSize
    ensures Reachable(list, id, Some(viewed))
  {
    var p: int, s: int := viewed.page, viewed.pageSize;
    assert (p - 2) * s == (p - 1) * s - s && (p + 1) * s == p * s + s;
    assert WithinReach(now, Some(viewed));
  }

  // Entries added and removed above it shift an entry by no more than their number.
  lemma EditsAboveShift(before: seq<Entry>, after: seq<Entry>, gone: set<Id>, added: set<Id>, i: nat, j: nat)
    requires Honest(before) && Honest(after) && i < |before| && j < |after| && before[i] == after[j]
    requires (set k | 0 <= k < j :: after[k].id) == (set k | 0 <= k < i :: before[k].id) - gone + added
    ensures i - |gone| <= j <= i + |added|
  {
    var olds, news := set k | 0 <= k < i :: before[k].id, set k | 0 <= k < j :: after[k].id;
    IdsCount(before, i);
    IdsCount(after, j);
    SubsetSize(olds - gone, news);
    SubsetSize(news, olds + added);
    assert |olds| <= |olds - gone| + |gone| by { SubsetSize(olds, (olds - gone) + gone); UnionSize(olds - gone, gone); }
    UnionSize(olds, added);
  }

  // So up to a page of entries may come and a page may go above a picked entry.
  lemma PickedEntryIsFound(before: seq<Entry>, after: seq<Entry>, gone: set<Id>, added: set<Id>, i: nat, j: nat,
      viewed: Viewed)
    requires Honest(before) && Honest(after) && i < |before| && j < |after| && before[i] == after[j]
    requires (set k | 0 <= k < j :: after[k].id) == (set k | 0 <= k < i :: before[k].id) - gone + added
    requires |gone| <= viewed.pageSize && |added| <= viewed.pageSize
    requires viewed.page >= 1 && (viewed.page - 1) * viewed.pageSize <= i < viewed.page * viewed.pageSize
    ensures Reachable(after, before[i].id, Some(viewed))
  {
    EditsAboveShift(before, after, gone, added, i, j);
    ShiftedByAPageIsFound(after, before[i].id, viewed, i, j);
  }

  lemma {:induction false} IdsCount(list: seq<Entry>, n: nat)
    requires Honest(list) && n <= |list|
    ensures |set k | 0 <= k < n :: list[k].id| == n
  {
    if n > 0 {
      IdsCount(list, n - 1);
      var rest := set k | 0 <= k < n - 1 :: list[k].id;
      assert (set k | 0 <= k < n :: list[k].id) == rest + {list[n - 1].id};
      assert list[n - 1].id !in rest;
    }
  }

  lemma {:induction false} SubsetSize(a: set<Id>, b: set<Id>)
    requires a <= b
    ensures |a| <= |b|
  {
    if a != {} {
      var x :| x in a;
      SubsetSize(a - {x}, b - {x});
    }
  }

  lemma UnionSize(a: set<Id>, b: set<Id>)
    ensures |a + b| <= |a| + |b|
  {
    assert a + b == a + (b - a);
    SubsetSize(b - a, b);
  }
}
