// Folding history records into rows (src/lib/arr-history.ts, lines 237-338 and 348-383).
module HistoryRows {
  import opened Options

  datatype Kind = Grabbed | Imported | Failed | Other(name: string)

  // `at` is the record's date in milliseconds, `None` when it is missing or unreadable.
  datatype Event = Event(id: int, sonarr: bool, instance: string, downloadId: Option<string>, mediaId: Option<int>,
                         kind: Kind, at: Option<int>)

  datatype FoldKey = FoldKey(instance: string, downloadId: string, mediaId: Option<int>)

  const FOLD_GAP_MS := 5 * 60_000

  function KeyOf(e: Event): Option<FoldKey> {
    if e.sonarr && e.downloadId.Some? then Some(FoldKey(e.instance, e.downloadId.value, e.mediaId)) else None
  }

  function Abs(x: int): nat { if x < 0 then -x else x }

  // `next` continues the run that `prev` ends.
  predicate Continues(prev: Event, next: Event) {
    prev.kind == next.kind && prev.at.Some? && next.at.Some? && Abs(next.at.value - prev.at.value) <= FOLD_GAP_MS
  }

  // ── which records share a row, said without sorting or runs ────────────────
  // A record is named by its place in the list; equal ids keep list order.

  predicate Before(events: seq<Event>, i: nat, j: nat)
    requires i < |events| && j < |events|
  {
    events[i].id < events[j].id || (events[i].id == events[j].id && i < j)
  }

  predicate SameDownload(events: seq<Event>, i: nat, j: nat)
    requires i < |events| && j < |events|
  {
    var (a, b) := (events[i], events[j]);
    && a.sonarr && b.sonarr && a.instance == b.instance && a.mediaId == b.mediaId
    && a.downloadId.Some? && a.downloadId == b.downloadId
  }

  // j is the next record of i's download.
  ghost predicate Successive(events: seq<Event>, i: nat, j: nat)
    requires i < |events| && j < |events|
  {
    && SameDownload(events, i, j) && Before(events, i, j)
    && forall k :: 0 <= k < |events| && SameDownload(events, i, k) ==> !(Before(events, i, k) && Before(events, k, j))
  }

  // a and b are successive records of i's download, neither before i nor after j.
  ghost predicate Between(events: seq<Event>, i: nat, a: nat, b: nat, j: nat)
    requires i < |events| && j < |events| && a < |events| && b < |events|
  {
    SameDownload(events, i, a) && Successive(events, a, b) && !Before(events, a, i) && !Before(events, j, b)
  }

  // Every two successive records of the download from i to j continue one run.
  ghost predicate Unbroken(events: seq<Event>, i: nat, j: nat)
    requires i < |events| && j < |events|
  {
    forall a, b :: 0 <= a < |events| && 0 <= b < |events| && Between(events, i, a, b, j) ==>
      Continues(events[a], events[b])
  }

  ghost predicate SameRow(events: seq<Event>, i: nat, j: nat)
    requires i < |events| && j < |events|
  {
    || i == j
    || (SameDownload(events, i, j) && if Before(events, i, j) then Unbroken(events, i, j) else Unbroken(events, j, i))
  }

  // ── a download's records by id ─────────────────────────────────────────────

  function PositionsOf(events: seq<Event>, key: FoldKey, n: nat): seq<nat>
    requires n <= |events|
  {
    if n == 0 then []
    else
      var before := PositionsOf(events, key, n - 1);
      if KeyOf(events[n - 1]) == Some(key) then before + [n - 1] else before
  }

  ghost predicate InRange(events: seq<Event>, list: seq<nat>) { forall p :: 0 <= p < |list| ==> list[p] < |events| }

  // Stable: behind every record whose id is no larger.
  function Insert(events: seq<Event>, list: seq<nat>, x: nat): (r: seq<nat>)
    requires x < |events| && InRange(events, list)
    ensures |r| == |list| + 1 && InRange(events, r) && forall i :: i in r <==> i == x || i in list
  {
    if list == [] || events[list[|list| - 1]].id <= events[x].id then list + [x]
    else
      var last := list[|list| - 1];
      assert list == list[..|list| - 1] + [last];
      Insert(events, list[..|list| - 1], x) + [last]
  }

  function SortById(events: seq<Event>, list: seq<nat>): (r: seq<nat>)
    requires InRange(events, list)
    ensures |r| == |list| && InRange(events, r) && forall i :: i in r <==> i in list
  {
    if list == [] then []
    else
      assert list == list[..|list| - 1] + [list[|list| - 1]];
      Insert(events, SortById(events, list[..|list| - 1]), list[|list| - 1])
  }

  ghost predicate Ascending(events: seq<Event>, list: seq<nat>)
    requires InRange(events, list)
  {
    forall p, q :: 0 <= p < q < |list| ==> Before(events, list[p], list[q])
  }

  lemma {:induction false} InsertAscends(events: seq<Event>, list: seq<nat>, x: nat)
    requires x < |events| && InRange(events, list) && Ascending(events, list)
    requires forall p :: 0 <= p < |list| ==> list[p] < x
    ensures Ascending(events, Insert(events, list, x))
  {
    if list != [] && events[list[|list| - 1]].id > events[x].id {
      var rest := list[..|list| - 1];
      InsertAscends(events, rest, x);
      var r := Insert(events, rest, x);
      assert Insert(events, list, x) == r + [list[|list| - 1]];
      forall p | 0 <= p < |r|
        ensures Before(events, r[p], list[|list| - 1])
      {
        assert r[p] in r;
        if r[p] != x { var q :| 0 <= q < |rest| && rest[q] == r[p]; assert list[q] == r[p]; }
      }
    }
  }

  lemma {:induction false} PositionsMean(events: seq<Event>, key: FoldKey, n: nat)
    requires n <= |events|
    ensures InRange(events, PositionsOf(events, key, n))
    ensures forall i :: i in PositionsOf(events, key, n) <==> 0 <= i < n && KeyOf(events[i]) == Some(key)
    ensures forall p, q :: 0 <= p < q < |PositionsOf(events, key, n)| ==>
      PositionsOf(events, key, n)[p] < PositionsOf(events, key, n)[q]
  {
    if n > 0 {
      PositionsMean(events, key, n - 1);
      var before := PositionsOf(events, key, n - 1);
      forall p | 0 <= p < |before|
        ensures before[p] < n - 1
      {
        assert before[p] in before;
      }
    }
  }

  lemma {:induction false} SortAscends(events: seq<Event>, list: seq<nat>)
    requires InRange(events, list) && forall p, q :: 0 <= p < q < |list| ==> list[p] < list[q]
    ensures Ascending(events, SortById(events, list))
  {
    if list != [] {
      var rest := list[..|list| - 1];
      SortAscends(events, rest);
      var sorted := SortById(events, rest);
      forall p | 0 <= p < |sorted|
        ensures sorted[p] < list[|list| - 1]
      {
        assert sorted[p] in rest;
      }
      InsertAscends(events, sorted, list[|list| - 1]);
    }
  }

  // One download's records by id.
  ghost function ById(events: seq<Event>, key: FoldKey): (r: seq<nat>)
    ensures InRange(events, r) && Ascending(events, r)
    ensures forall i :: i in r <==> 0 <= i < |events| && KeyOf(events[i]) == Some(key)
  {
    PositionsMean(events, key, |events|);
    SortAscends(events, PositionsOf(events, key, |events|));
    SortById(events, PositionsOf(events, key, |events|))
  }

  // ── runs ───────────────────────────────────────────────────────────────────

  function RunStart(events: seq<Event>, list: seq<nat>, p: nat): (s: nat)
    requires InRange(events, list) && p < |list|
    ensures s <= p
  {
    if p == 0 || !Continues(events[list[p - 1]], events[list[p]]) then p else RunStart(events, list, p - 1)
  }

  function RunEnd(events: seq<Event>, list: seq<nat>, p: nat): (e: nat)
    requires InRange(events, list) && p < |list|
    ensures p < e <= |list|
    decreases |list| - p
  {
    if p + 1 == |list| || !Continues(events[list[p]], events[list[p + 1]]) then p + 1 else RunEnd(events, list, p + 1)
  }

  function RunAt(events: seq<Event>, list: seq<nat>, p: nat): seq<nat>
    requires InRange(events, list) && p < |list|
  {
    list[RunStart(events, list, p)..RunEnd(events, list, p)]
  }

  ghost predicate Chained(events: seq<Event>, list: seq<nat>, p: nat, q: nat)
    requires InRange(events, list) && p <= q < |list|
  {
    forall r :: p <= r < q ==> Continues(events[list[r]], events[list[r + 1]])
  }

  lemma {:induction false} StartMeans(events: seq<Event>, list: seq<nat>, p: nat, q: nat)
    requires InRange(events, list) && q <= p < |list|
    ensures RunStart(events, list, p) <= q <==> Chained(events, list, q, p)
    decreases p
  {
    if q < p && Continues(events[list[p - 1]], events[list[p]]) {
      StartMeans(events, list, p - 1, q);
      assert Chained(events, list, q, p - 1) ==> Chained(events, list, q, p);
    } else if q < p {
      assert !Continues(events[list[p - 1]], events[list[p - 1 + 1]]);
    }
  }

  lemma {:induction false} EndMeans(events: seq<Event>, list: seq<nat>, p: nat, q: nat)
    requires InRange(events, list) && p <= q < |list|
    ensures q < RunEnd(events, list, p) <==> Chained(events, list, p, q)
    decreases |list| - p
  {
    if p < q && Continues(events[list[p]], events[list[p + 1]]) {
      EndMeans(events, list, p + 1, q);
      assert Chained(events, list, p + 1, q) ==> Chained(events, list, p, q);
    }
  }

  // Two places are in one run, which is then the same run, exactly when the stretch
  // between them is chained.
  lemma RunsMeet(events: seq<Event>, list: seq<nat>, p: nat, q: nat)
    requires InRange(events, list) && p <= q < |list|
    ensures RunStart(events, list, p) <= q < RunEnd(events, list, p) <==> Chained(events, list, p, q)
    ensures RunStart(events, list, q) <= p < RunEnd(events, list, q) <==> Chained(events, list, p, q)
    ensures Chained(events, list, p, q) ==> RunStart(events, list, p) == RunStart(events, list, q)
    ensures Chained(events, list, p, q) ==> RunEnd(events, list, p) == RunEnd(events, list, q)
  {
    EndMeans(events, list, p, q);
    StartMeans(events, list, q, p);
    if Chained(events, list, p, q) {
      var s, t := RunStart(events, list, p), RunStart(events, list, q);
      StartMeans(events, list, p, s);
      StartMeans(events, list, q, s);
      StartMeans(events, list, q, t);
      StartMeans(events, list, p, t);
      var e, f := RunEnd(events, list, p) - 1, RunEnd(events, list, q) - 1;
      EndMeans(events, list, p, e);
      EndMeans(events, list, q, f);
      EndMeans(events, list, p, f);
      if q <= e { EndMeans(events, list, q, e); }
    }
  }

  // ── a record's run, and the rows ───────────────────────────────────────────

  function PlaceOf(list: seq<nat>, i: nat): (p: nat)
    requires i in list
    ensures p < |list| && list[p] == i
  {
    if list[0] == i then 0 else PlaceOf(list[1..], i) + 1
  }

  // A record that does not fold is a run of its own.
  ghost function RunOf(events: seq<Event>, i: nat): seq<nat>
    requires i < |events|
  {
    match KeyOf(events[i])
    case None => [i]
    case Some(key) => RunAt(events, ById(events, key), PlaceOf(ById(events, key), i))
  }

  // Neighbours in the list by id are the download's successive records.
  lemma NeighboursSucceed(events: seq<Event>, key: FoldKey, r: nat)
    requires r + 1 < |ById(events, key)|
    ensures Successive(events, ById(events, key)[r], ById(events, key)[r + 1])
  {
    var list := ById(events, key);
    assert list[r] in list && list[r + 1] in list;
    forall k | 0 <= k < |events| && SameDownload(events, list[r], k)
      ensures !(Before(events, list[r], k) && Before(events, k, list[r + 1]))
    {
      assert k in list;
      var p :| 0 <= p < |list| && list[p] == k;
    }
  }

  lemma SuccessorsNeighbour(events: seq<Event>, key: FoldKey, r: nat, s: nat)
    requires r < |ById(events, key)| && s < |ById(events, key)|
    requires Successive(events, ById(events, key)[r], ById(events, key)[s])
    ensures s == r + 1
  {
    var list := ById(events, key);
    assert list[r] in list && list[s] in list;
    assert r < s;
    assert list[r + 1] in list && Before(events, list[r], list[r + 1]);
  }

  lemma ChainedIsUnbroken(events: seq<Event>, key: FoldKey, p: nat, q: nat)
    requires p <= q < |ById(events, key)|
    ensures var list := ById(events, key); Chained(events, list, p, q) <==> Unbroken(events, list[p], list[q])
  {
    var list := ById(events, key);
    assert list[p] in list && list[q] in list;
    if Chained(events, list, p, q) {
      forall a, b | 0 <= a < |events| && 0 <= b < |events| && Between(events, list[p], a, b, list[q])
        ensures Continues(events[a], events[b])
      {
        assert a in list && b in list;
        var r, s := PlaceOf(list, a), PlaceOf(list, b);
        SuccessorsNeighbour(events, key, r, s);
        assert p <= r < q;
      }
    }
    if Unbroken(events, list[p], list[q]) {
      forall r | p <= r < q
        ensures Continues(events[list[r]], events[list[r + 1]])
      {
        NeighboursSucceed(events, key, r);
        assert list[r] in list && list[r + 1] in list;
        assert Between(events, list[p], list[r], list[r + 1], list[q]);
      }
    }
  }

  lemma RunsOfOneDownload(events: seq<Event>, key: FoldKey, p: nat, q: nat)
    requires p <= q < |ById(events, key)|
    ensures var list := ById(events, key);
      && (list[q] in RunAt(events, list, p) <==> Unbroken(events, list[p], list[q]))
      && (list[p] in RunAt(events, list, q) <==> Unbroken(events, list[p], list[q]))
      && (RunAt(events, list, p) == RunAt(events, list, q) <==> Unbroken(events, list[p], list[q]))
  {
    var list := ById(events, key);
    RunHolds(events, list, p, p);
    RunHolds(events, list, p, q);
    RunHolds(events, list, q, p);
    RunsMeet(events, list, p, q);
    ChainedIsUnbroken(events, key, p, q);
  }

  // Two records have the same run exactly when they belong in one row, and a run is
  // just the records that belong with it.
  lemma RunOfMeans(events: seq<Event>, i: nat, j: nat)
    requires i < |events| && j < |events|
    ensures RunOf(events, i) == RunOf(events, j) <==> SameRow(events, i, j)
    ensures j in RunOf(events, i) <==> SameRow(events, i, j)
  {
    if i != j && SameDownload(events, i, j) {
      var key := KeyOf(events[i]).value;
      var p, q := PlaceOf(ById(events, key), i), PlaceOf(ById(events, key), j);
      if p < q { RunsOfOneDownload(events, key, p, q); } else { RunsOfOneDownload(events, key, q, p); }
    } else {
      OwnRun(events, i);
      OwnRun(events, j);
    }
  }

  lemma RunHolds(events: seq<Event>, list: seq<nat>, p: nat, q: nat)
    requires InRange(events, list) && Ascending(events, list) && p < |list| && q < |list|
    ensures list[q] in RunAt(events, list, p) <==> RunStart(events, list, p) <= q < RunEnd(events, list, p)
  {
    var run, s := RunAt(events, list, p), RunStart(events, list, p);
    if list[q] in run {
      var k :| 0 <= k < |run| && run[k] == list[q];
      assert list[s + k] == list[q];
    }
    if s <= q < RunEnd(events, list, p) { assert run[q - s] == list[q]; }
  }

  lemma OwnRun(events: seq<Event>, i: nat)
    requires i < |events|
    ensures i in RunOf(events, i)
    ensures forall j :: j in RunOf(events, i) && j != i ==> j < |events| && SameDownload(events, i, j)
  {
    if KeyOf(events[i]).Some? {
      var list := ById(events, KeyOf(events[i]).value);
      assert i in list;
      RunHolds(events, list, PlaceOf(list, i), PlaceOf(list, i));
      assert forall j :: j in RunOf(events, i) ==> j in list;
    }
  }

  datatype Edges = Edges(hasPrevious: bool, hasNext: bool)

  // `members` are the row's records by id; `lead` is the newest.
  datatype Row = Row(lead: nat, members: seq<nat>, continuesBefore: bool, continuesAfter: bool)

  function Lead(events: seq<Event>, run: seq<nat>): (lead: nat)
    requires run != [] && InRange(events, run)
    ensures lead in run && forall i :: i in run ==> events[i].id <= events[lead].id
  {
    if |run| == 1 then run[0]
    else
      assert run == run[..|run| - 1] + [run[|run| - 1]];
      var a, b := Lead(events, run[..|run| - 1]), run[|run| - 1];
      if events[b].id > events[a].id then b else a
  }

  function RowOf(events: seq<Event>, run: seq<nat>, edges: Option<Edges>): Row
    requires run != [] && InRange(events, run)
  {
    var lead := Lead(events, run);
    var pages := |run| > 1 && events[lead].sonarr && edges.Some?;
    Row(lead, run, pages && edges.value.hasPrevious && 0 in run, pages && edges.value.hasNext && |events| - 1 in run)
  }

  // Each record's run, in list order.
  ghost function RunList(events: seq<Event>): (runs: seq<seq<nat>>)
    ensures |runs| == |events| && forall i :: 0 <= i < |events| ==> runs[i] == RunOf(events, i)
  {
    seq(|events|, i requires 0 <= i < |events| => RunOf(events, i))
  }

  ghost predicate ProperRuns(events: seq<Event>, runs: seq<seq<nat>>) {
    forall i :: 0 <= i < |runs| ==> runs[i] != [] && InRange(events, runs[i])
  }

  lemma RunsAreProper(events: seq<Event>)
    ensures ProperRuns(events, RunList(events))
  {
    forall i | 0 <= i < |events|
      ensures RunOf(events, i) != [] && InRange(events, RunOf(events, i))
    {
      OwnRun(events, i);
    }
  }

  // The rows of the first n records, in list order: a run sits where its first record does.
  ghost function RowsOf(events: seq<Event>, runs: seq<seq<nat>>, n: nat, edges: Option<Edges>): seq<Row>
    requires n <= |runs| && ProperRuns(events, runs)
  {
    if n == 0 then []
    else
      var before := RowsOf(events, runs, n - 1, edges);
      if runs[n - 1] in runs[..n - 1] then before else before + [RowOf(events, runs[n - 1], edges)]
  }

  ghost function Rows(events: seq<Event>, edges: Option<Edges>): seq<Row> {
    RunsAreProper(events);
    RowsOf(events, RunList(events), |events|, edges)
  }

  // ── the fold itself ────────────────────────────────────────────────────────

  method ByDownload(events: seq<Event>) returns (byDownload: map<FoldKey, seq<nat>>)
    ensures forall key :: key in byDownload <==> PositionsOf(events, key, |events|) != []
    ensures forall key :: key in byDownload ==> byDownload[key] == PositionsOf(events, key, |events|)
  {
    byDownload := map[];
    for n := 0 to |events|
      invariant forall key :: key in byDownload <==> PositionsOf(events, key, n) != []
      invariant forall key :: key in byDownload ==> byDownload[key] == PositionsOf(events, key, n)
    {
      var k := KeyOf(events[n]);
      if k.Some? {
        byDownload := byDownload[k.value := (if k.value in byDownload then byDownload[k.value] else []) + [n]];
      }
    }
  }

  lemma Slices(list: seq<nat>, n: nat, s: nat, e: nat)
    requires s <= e <= n < |list|
    ensures list[..n + 1][s..e] == list[..n][s..e] && list[..n + 1][s..n + 1] == list[..n][s..n] + [list[n]]
  {
    assert list[..n + 1][s..e] == list[s..e] && list[..n][s..e] == list[s..e];
    assert list[..n + 1][s..n + 1] == list[s..n + 1] && list[..n][s..n] == list[s..n];
    assert list[s..n + 1] == list[s..n] + [list[n]];
  }

  // One record more: it ends the run it continues, or begins one.
  lemma {:induction false} RunGrows(events: seq<Event>, list: seq<nat>, n: nat, p: nat)
    requires InRange(events, list) && p < n < |list|
    ensures RunEnd(events, list[..n], p) < n ==> RunAt(events, list[..n + 1], p) == RunAt(events, list[..n], p)
    ensures RunEnd(events, list[..n], p) < n ==> RunEnd(events, list[..n + 1], p) < n
    ensures RunEnd(events, list[..n], p) == n && !Continues(events[list[n - 1]], events[list[n]]) ==>
      RunEnd(events, list[..n + 1], p) == n && RunAt(events, list[..n + 1], p) == RunAt(events, list[..n], p)
    ensures RunEnd(events, list[..n], p) == n && Continues(events[list[n - 1]], events[list[n]]) ==>
      RunEnd(events, list[..n + 1], p) == n + 1
        && RunAt(events, list[..n + 1], p) == RunAt(events, list[..n], p) + [list[n]]
  {
    EndGrows(events, list, n, p);
    StartStays(events, list, n, p);
    Slices(list, n, RunStart(events, list[..n], p), RunEnd(events, list[..n], p));
  }

  lemma {:induction false} EndGrows(events: seq<Event>, list: seq<nat>, n: nat, p: nat)
    requires InRange(events, list) && p < n < |list|
    ensures RunEnd(events, list[..n + 1], p) ==
      (if RunEnd(events, list[..n], p) == n && Continues(events[list[n - 1]], events[list[n]]) then n + 1
        else RunEnd(events, list[..n], p))
    decreases n - p
  {
    if p + 1 < n { EndGrows(events, list, n, p + 1); }
  }

  lemma {:induction false} StartStays(events: seq<Event>, list: seq<nat>, n: nat, p: nat)
    requires InRange(events, list) && p < n < |list|
    ensures RunStart(events, list[..n + 1], p) == RunStart(events, list[..n], p)
  {
    if p > 0 { StartStays(events, list, n, p - 1); }
  }

  // `at[p]` is the run the p-th record went to; only the newest run may still grow.
  ghost predicate CutSoFar(events: seq<Event>, list: seq<nat>, n: nat, runs: seq<seq<nat>>, at: seq<nat>)
    requires InRange(events, list)
  {
    && n <= |list| && |at| == n
    && forall p :: 0 <= p < n ==> CutAt(events, list[..n], p, runs, at[p])
  }

  ghost predicate CutAt(events: seq<Event>, list: seq<nat>, p: nat, runs: seq<seq<nat>>, r: nat)
    requires InRange(events, list) && p < |list|
  {
    && r < |runs| && runs[r] == RunAt(events, list, p)
    && (r == |runs| - 1 <==> RunEnd(events, list, p) == |list|)
  }

  lemma NewestRun(events: seq<Event>, list: seq<nat>, n: nat)
    requires InRange(events, list) && n < |list|
    ensures RunEnd(events, list[..n + 1], n) == n + 1
    ensures RunAt(events, list[..n + 1], n) ==
      if n > 0 && Continues(events[list[n - 1]], events[list[n]]) then RunAt(events, list[..n], n - 1) + [list[n]]
      else [list[n]]
  {
    assert list[..n + 1][n..n + 1] == [list[n]];
    if n > 0 {
      StartStays(events, list, n, n - 1);
      Slices(list, n, RunStart(events, list[..n], n - 1), n);
    }
  }

  // The runs with one record more: added to the newest run, or begun anew.
  function Grown(events: seq<Event>, list: seq<nat>, n: nat, runs: seq<seq<nat>>): seq<seq<nat>>
    requires InRange(events, list) && n < |list|
  {
    if n > 0 && runs != [] && Continues(events[list[n - 1]], events[list[n]]) then
      runs[|runs| - 1 := runs[|runs| - 1] + [list[n]]]
    else runs + [[list[n]]]
  }

  lemma CutAtGrows(events: seq<Event>, list: seq<nat>, n: nat, runs: seq<seq<nat>>, p: nat, r: nat)
    requires InRange(events, list) && p < n < |list| && CutAt(events, list[..n], p, runs, r)
    ensures CutAt(events, list[..n + 1], p, Grown(events, list, n, runs), r)
  {
    RunGrows(events, list, n, p);
  }

  lemma CutAtNewest(events: seq<Event>, list: seq<nat>, n: nat, runs: seq<seq<nat>>, r: nat)
    requires InRange(events, list) && n < |list| && (n > 0 ==> CutAt(events, list[..n], n - 1, runs, r))
    ensures n > 0 ==> runs != []
    ensures var grown := Grown(events, list, n, runs);
      grown != [] && CutAt(events, list[..n + 1], n, grown, |grown| - 1)
  {
    NewestRun(events, list, n);
  }

  lemma CutGrows(events: seq<Event>, list: seq<nat>, n: nat, runs: seq<seq<nat>>, at: seq<nat>)
    requires InRange(events, list) && n < |list| && CutSoFar(events, list, n, runs, at)
    ensures n > 0 ==> runs != []
    ensures var grown := Grown(events, list, n, runs);
      grown != [] && CutSoFar(events, list, n + 1, grown, at + [|grown| - 1])
  {
    CutAtNewest(events, list, n, runs, if n > 0 then at[n - 1] else 0);
    var grown := Grown(events, list, n, runs);
    var newAt := at + [|grown| - 1];
    forall p | 0 <= p < n + 1
      ensures CutAt(events, list[..n + 1], p, grown, newAt[p])
    {
      if p < n {
        CutAtGrows(events, list, n, runs, p, at[p]);
        assert newAt[p] == at[p];
      } else {
        assert newAt[p] == |grown| - 1;
      }
    }
  }

  method AddToRuns(events: seq<Event>, list: seq<nat>, n: nat, runs: seq<seq<nat>>) returns (grown: seq<seq<nat>>)
    requires InRange(events, list) && n < |list| && (n > 0 ==> runs != [])
    ensures grown == Grown(events, list, n, runs)
  {
    if n > 0 && Continues(events[list[n - 1]], events[list[n]]) {
      grown := runs[|runs| - 1 := runs[|runs| - 1] + [list[n]]];
    } else {
      grown := runs + [[list[n]]];
    }
  }

  method CutIntoRuns(events: seq<Event>, list: seq<nat>) returns (runs: seq<seq<nat>>, at: seq<nat>)
    requires InRange(events, list)
    ensures |at| == |list|
    ensures forall p :: 0 <= p < |list| ==> at[p] < |runs| && runs[at[p]] == RunAt(events, list, p)
  {
    runs, at := [], [];
    for n := 0 to |list|
      invariant CutSoFar(events, list, n, runs, at)
    {
      CutGrows(events, list, n, runs, at);
      runs := AddToRuns(events, list, n, runs);
      at := at + [|runs| - 1];
    }
    AllIsCut(events, list, runs, at);
  }

  lemma AllIsCut(events: seq<Event>, list: seq<nat>, runs: seq<seq<nat>>, at: seq<nat>)
    requires InRange(events, list) && CutSoFar(events, list, |list|, runs, at)
    ensures forall p :: 0 <= p < |list| ==> at[p] < |runs| && runs[at[p]] == RunAt(events, list, p)
  {
    assert list[..|list|] == list;
    assert forall p :: 0 <= p < |list| ==> CutAt(events, list, p, runs, at[p]);
  }

  lemma SortedIsById(events: seq<Event>, key: FoldKey)
    ensures InRange(events, PositionsOf(events, key, |events|))
    ensures SortById(events, PositionsOf(events, key, |events|)) == ById(events, key)
  {
    PositionsMean(events, key, |events|);
  }

  lemma RunAtIsRunOf(events: seq<Event>, key: FoldKey, p: nat)
    requires p < |ById(events, key)|
    ensures RunAt(events, ById(events, key), p) == RunOf(events, ById(events, key)[p])
  {
    var list := ById(events, key);
    assert list[p] in list;
    var q := PlaceOf(list, list[p]);
    assert !Before(events, list[p], list[q]);
  }

  // Every record of the download is given its run.
  method AddRuns(list: seq<nat>, runs: seq<seq<nat>>, at: seq<nat>, known: map<nat, seq<nat>>)
      returns (runOf: map<nat, seq<nat>>)
    requires |at| == |list| && forall p :: 0 <= p < |at| ==> at[p] < |runs|
    requires forall p, q :: 0 <= p < q < |list| ==> list[p] != list[q]
    ensures forall i :: i in runOf <==> i in known || i in list
    ensures forall i :: i in known && i !in list ==> runOf[i] == known[i]
    ensures forall p :: 0 <= p < |list| ==> runOf[list[p]] == runs[at[p]]
  {
    runOf := known;
    for p := 0 to |list|
      invariant forall i :: i in runOf <==> i in known || i in list[..p]
      invariant forall i :: i in known && i !in list[..p] ==> runOf[i] == known[i]
      invariant forall q :: 0 <= q < p ==> list[q] in runOf && runOf[list[q]] == runs[at[q]]
    {
      runOf := runOf[list[p] := runs[at[p]]];
      assert list[..p + 1] == list[..p] + [list[p]];
    }
    assert list[..|list|] == list;
  }

  // The records whose download has been dealt with have their run.
  ghost predicate RunsKnown(events: seq<Event>, runOf: map<nat, seq<nat>>, done: set<FoldKey>) {
    && (forall i :: i in runOf <==> 0 <= i < |events| && KeyOf(events[i]).Some? && KeyOf(events[i]).value in done)
    && (forall i :: i in runOf ==> runOf[i] == RunOf(events, i))
  }

  lemma OneDownloadMore(events: seq<Event>, key: FoldKey, done: set<FoldKey>, known: map<nat, seq<nat>>,
      runOf: map<nat, seq<nat>>)
    requires RunsKnown(events, known, done)
    requires forall i :: i in runOf <==> i in known || i in ById(events, key)
    requires forall i :: i in known && i !in ById(events, key) ==> runOf[i] == known[i]
    requires forall p :: 0 <= p < |ById(events, key)| ==>
      runOf[ById(events, key)[p]] == RunAt(events, ById(events, key), p)
    ensures RunsKnown(events, runOf, done + {key})
  {
    forall i | i in ById(events, key)
      ensures runOf[i] == RunOf(events, i)
    {
      RunAtIsRunOf(events, key, PlaceOf(ById(events, key), i));
    }
  }

  method DealWith(events: seq<Event>, key: FoldKey, positions: seq<nat>, ghost done: set<FoldKey>,
      known: map<nat, seq<nat>>)
    returns (runOf: map<nat, seq<nat>>)
    requires positions == PositionsOf(events, key, |events|) && RunsKnown(events, known, done)
    ensures RunsKnown(events, runOf, done + {key})
  {
    SortedIsById(events, key);
    var list := SortById(events, positions);
    AscendingDiffer(events, list);
    var runs, at := CutIntoRuns(events, list);
    runOf := AddRuns(list, runs, at, known);
    OneDownloadMore(events, key, done, known, runOf);
  }

  lemma AllRunsKnown(events: seq<Event>, byDownload: map<FoldKey, seq<nat>>, runOf: map<nat, seq<nat>>)
    requires forall key :: key in byDownload <==> PositionsOf(events, key, |events|) != []
    requires RunsKnown(events, runOf, byDownload.Keys)
    ensures forall i :: 0 <= i < |events| ==> RunOf(events, i) == if i in runOf then runOf[i] else [i]
  {
    forall i | 0 <= i < |events| && KeyOf(events[i]).Some?
      ensures KeyOf(events[i]).value in byDownload.Keys
    {
      PositionsMean(events, KeyOf(events[i]).value, |events|);
      assert i in PositionsOf(events, KeyOf(events[i]).value, |events|);
    }
  }

  method GroupHistoryEvents(events: seq<Event>, edges: Option<Edges>) returns (rows: seq<Row>)
    ensures rows == Rows(events, edges)
  {
    var byDownload := ByDownload(events);
    var runOf: map<nat, seq<nat>> := map[];
    var left := byDownload.Keys;
    while left != {}
      invariant left <= byDownload.Keys
      invariant RunsKnown(events, runOf, byDownload.Keys - left)
    {
      var key :| key in left;
      runOf := DealWith(events, key, byDownload[key], byDownload.Keys - left, runOf);
      assert byDownload.Keys - (left - {key}) == byDownload.Keys - left + {key};
      left := left - {key};
    }
    AllRunsKnown(events, byDownload, runOf);
    RunsAreProper(events);
    rows := EmitRows(events, RunList(events), runOf, edges);
  }

  // Runs are disjoint, so telling them apart by their records is telling them apart.
  method EmitRows(events: seq<Event>, ghost runs: seq<seq<nat>>, runOf: map<nat, seq<nat>>, edges: Option<Edges>)
      returns (rows: seq<Row>)
    requires |runs| == |events| && ProperRuns(events, runs)
    requires forall i :: 0 <= i < |events| ==> runs[i] == if i in runOf then runOf[i] else [i]
    ensures rows == RowsOf(events, runs, |events|, edges)
  {
    rows := [];
    var emitted: set<seq<nat>> := {};
    for n := 0 to |events|
      invariant forall run :: run in emitted <==> run in runs[..n]
      invariant rows == RowsOf(events, runs, n, edges)
    {
      var run := if n in runOf then runOf[n] else [n];
      assert runs[..n + 1] == runs[..n] + [run];
      if run !in emitted {
        emitted := emitted + {run};
        rows := rows + [RowOf(events, run, edges)];
      }
    }
  }

  // ── what the rows mean ─────────────────────────────────────────────────────

  // The row that holds record i, among those emitted for the first n records.
  ghost function RowIndex(events: seq<Event>, runs: seq<seq<nat>>, n: nat, edges: Option<Edges>, i: nat): (r: nat)
    requires i < n <= |runs| && ProperRuns(events, runs)
    ensures r < |RowsOf(events, runs, n, edges)| && RowsOf(events, runs, n, edges)[r] == RowOf(events, runs[i], edges)
    ensures forall s :: 0 <= s < |RowsOf(events, runs, n, edges)| && s != r ==>
      RowsOf(events, runs, n, edges)[s].members != runs[i]
  {
    if runs[n - 1] in runs[..n - 1] then
      var j :| 0 <= j < n - 1 && runs[j] == runs[n - 1];
      RowIndex(events, runs, n - 1, edges, if i == n - 1 then j else i)
    else if i == n - 1 then
      RowsAreRuns(events, runs, n - 1, edges);
      |RowsOf(events, runs, n - 1, edges)|
    else
      assert runs[i] in runs[..n - 1];
      RowIndex(events, runs, n - 1, edges, i)
  }

  lemma {:induction false} RowsAreRuns(events: seq<Event>, runs: seq<seq<nat>>, n: nat, edges: Option<Edges>)
    requires n <= |runs| && ProperRuns(events, runs)
    ensures forall r :: 0 <= r < |RowsOf(events, runs, n, edges)| ==>
      RowsOf(events, runs, n, edges)[r].members in runs[..n]
  {
    if n > 0 {
      RowsAreRuns(events, runs, n - 1, edges);
      assert runs[..n] == runs[..n - 1] + [runs[n - 1]];
    }
  }

  ghost predicate Holds(events: seq<Event>, edges: Option<Edges>, r: nat, i: nat) {
    r < |Rows(events, edges)| && i in Rows(events, edges)[r].members
  }

  // Every record is in exactly one row, and two records share a row exactly when they
  // belong together.
  lemma RowsPartition(events: seq<Event>, edges: Option<Edges>, i: nat, j: nat)
    requires i < |events| && j < |events|
    ensures exists r :: 0 <= r < |Rows(events, edges)| && i in Rows(events, edges)[r].members
    ensures forall r, s :: Holds(events, edges, r, i) && Holds(events, edges, s, j) ==>
      (r == s <==> SameRow(events, i, j))
  {
    var rows, runs := Rows(events, edges), RunList(events);
    RunsAreProper(events);
    var r0, s0 := RowIndex(events, runs, |events|, edges, i), RowIndex(events, runs, |events|, edges, j);
    RunOfMeans(events, i, i);
    RunOfMeans(events, j, j);
    RunOfMeans(events, i, j);
    RowsAreRuns(events, runs, |events|, edges);
    forall r | Holds(events, edges, r, i)
      ensures r == r0
    {
      TheRowOf(events, edges, i, r);
    }
    forall s | Holds(events, edges, s, j)
      ensures s == s0
    {
      TheRowOf(events, edges, j, s);
    }
  }

  lemma TheRowOf(events: seq<Event>, edges: Option<Edges>, i: nat, r: nat)
    requires i < |events| && Holds(events, edges, r, i)
    ensures ProperRuns(events, RunList(events)) && r == RowIndex(events, RunList(events), |events|, edges, i)
  {
    var runs := RunList(events);
    RunsAreProper(events);
    RowsAreRuns(events, runs, |events|, edges);
    var members := Rows(events, edges)[r].members;
    var k :| 0 <= k < |events| && runs[k] == members;
    RunOfMeans(events, k, i);
  }

  lemma SuccessorsInOneRow(events: seq<Event>, edges: Option<Edges>, r: nat, a: nat, b: nat)
    requires r < |Rows(events, edges)| && a < |events| && b < |events| && Successive(events, a, b)
    requires a in Rows(events, edges)[r].members || b in Rows(events, edges)[r].members
    ensures a in Rows(events, edges)[r].members && b in Rows(events, edges)[r].members <==>
      Continues(events[a], events[b])
  {
    var i := if a in Rows(events, edges)[r].members then a else b;
    TheRowOf(events, edges, i, r);
    RunOfMeans(events, i, a);
    RunOfMeans(events, i, b);
    SuccessorsShare(events, a, b);
  }

  // Of one kind, and dated within five minutes of one another.
  predicate OneMoment(a: Event, b: Event) {
    a.kind == b.kind && a.at.Some? && b.at.Some? && -300_000 <= b.at.value - a.at.value <= 300_000
  }

  // A row's records run by id, each continuing the one before, and are not cut short: a
  // record of the download right before or after them does not continue them.
  lemma RowsAreMaximalRuns(events: seq<Event>, edges: Option<Edges>, r: nat, a: nat, b: nat)
    requires r < |Rows(events, edges)| && a < |events| && b < |events| && Successive(events, a, b)
    requires a in Rows(events, edges)[r].members || b in Rows(events, edges)[r].members
    ensures a in Rows(events, edges)[r].members && b in Rows(events, edges)[r].members <==>
      OneMoment(events[a], events[b])
  {
    SuccessorsInOneRow(events, edges, r, a, b);
    assert Continues(events[a], events[b]) == OneMoment(events[a], events[b]);
  }

  lemma SuccessorsShare(events: seq<Event>, a: nat, b: nat)
    requires a < |events| && b < |events| && Successive(events, a, b)
    ensures SameRow(events, a, b) <==> Continues(events[a], events[b])
    ensures SameRow(events, b, a) <==> Continues(events[a], events[b])
  {
    assert Between(events, a, a, b, b);
    forall c, d | 0 <= c < |events| && 0 <= d < |events| && Between(events, a, c, d, b)
      ensures c == a && d == b
    {
      assert Before(events, a, d) || a == d;
      assert Before(events, c, b) || c == b;
      if c != a { assert Before(events, a, c); }
    }
  }

  // A row is the row of one of its records' runs.
  lemma RowComesFrom(events: seq<Event>, edges: Option<Edges>, r: nat) returns (i: nat)
    requires r < |Rows(events, edges)|
    ensures i < |events| && RunOf(events, i) != [] && InRange(events, RunOf(events, i))
    ensures Rows(events, edges)[r] == RowOf(events, RunOf(events, i), edges)
  {
    var runs := RunList(events);
    RunsAreProper(events);
    RowsAreRuns(events, runs, |events|, edges);
    i :| 0 <= i < |events| && runs[i] == Rows(events, edges)[r].members;
    OwnRun(events, i);
    TheRowOf(events, edges, i, r);
  }

  lemma LongRunsAreSonarrs(events: seq<Event>, i: nat)
    requires i < |events|
    ensures |RunOf(events, i)| > 1 ==> forall j :: j in RunOf(events, i) ==> j < |events| && events[j].sonarr
  {
    OwnRun(events, i);
    MembersDiffer(events, i);
    var run := RunOf(events, i);
    if |run| > 1 { assert run[0] in run && run[1] in run; }
  }

  lemma PartAscends(events: seq<Event>, list: seq<nat>, s: nat, e: nat)
    requires InRange(events, list) && Ascending(events, list) && s <= e <= |list|
    ensures InRange(events, list[s..e]) && RunById(events, list[s..e])
  {
  }

  lemma MembersById(events: seq<Event>, i: nat)
    requires i < |events|
    ensures InRange(events, RunOf(events, i)) && RunById(events, RunOf(events, i))
  {
    OwnRun(events, i);
    if KeyOf(events[i]).Some? {
      var list := ById(events, KeyOf(events[i]).value);
      var p := PlaceOf(list, i);
      PartAscends(events, list, RunStart(events, list, p), RunEnd(events, list, p));
    }
  }

  ghost predicate RunById(events: seq<Event>, members: seq<nat>)
    requires InRange(events, members)
  {
    forall p, q :: 0 <= p < q < |members| ==> events[members[p]].id <= events[members[q]].id
  }

  // A row's records stand by id.
  lemma RowsRunById(events: seq<Event>, edges: Option<Edges>, r: nat)
    requires r < |Rows(events, edges)|
    ensures InRange(events, Rows(events, edges)[r].members) && RunById(events, Rows(events, edges)[r].members)
  {
    var i := RowComesFrom(events, edges, r);
    MembersById(events, i);
  }

  // A row's lead is its newest record; the page marks sit on folded rows at the edges.
  lemma LeadAndMarks(events: seq<Event>, edges: Option<Edges>, r: nat)
    requires r < |Rows(events, edges)|
    ensures var row := Rows(events, edges)[r];
      && row.lead in row.members && row.lead < |events|
      && (forall i :: i in row.members ==> i < |events| && events[i].id <= events[row.lead].id)
      && (row.continuesBefore <==> edges.Some? && edges.value.hasPrevious && |row.members| > 1 && 0 in row.members)
      && (row.continuesAfter <==>
         edges.Some? && edges.value.hasNext && |row.members| > 1 && |events| - 1 in row.members)
  {
    var i := RowComesFrom(events, edges, r);
    LongRunsAreSonarrs(events, i);
  }

  lemma AscendingDiffer(events: seq<Event>, list: seq<nat>)
    requires InRange(events, list) && Ascending(events, list)
    ensures forall p, q :: 0 <= p < q < |list| ==> list[p] != list[q]
  {
    forall p, q | 0 <= p < q < |list|
      ensures list[p] != list[q]
    {
      assert Before(events, list[p], list[q]);
    }
  }

  lemma MembersDiffer(events: seq<Event>, i: nat)
    requires i < |events|
    ensures forall p, q :: 0 <= p < q < |RunOf(events, i)| ==> RunOf(events, i)[p] != RunOf(events, i)[q]
  {
    if KeyOf(events[i]).Some? { AscendingDiffer(events, ById(events, KeyOf(events[i]).value)); }
  }

  // Where each row's first record is.
  ghost function Firsts(runs: seq<seq<nat>>, n: nat): seq<nat>
    requires n <= |runs|
  {
    if n == 0 then []
    else if runs[n - 1] in runs[..n - 1] then Firsts(runs, n - 1)
    else Firsts(runs, n - 1) + [n - 1]
  }

  // Each record is in its run, and every record of a run has that run.
  ghost predicate SelfRuns(runs: seq<seq<nat>>) {
    forall k, i {:trigger i in runs[k]} :: 0 <= k < |runs| && i in runs[k] ==> i < |runs| && runs[i] == runs[k]
  }

  lemma RunListIsSelf(events: seq<Event>)
    ensures SelfRuns(RunList(events))
  {
    forall k, i | 0 <= k < |events| && i in RunOf(events, k)
      ensures i < |events| && RunOf(events, i) == RunOf(events, k)
    {
      OwnRun(events, k);
      RunOfMeans(events, k, i);
    }
  }

  lemma NewRunStartsHere(runs: seq<seq<nat>>, m: nat)
    requires SelfRuns(runs) && m < |runs| && forall j :: 0 <= j < m ==> runs[j] != runs[m]
    ensures forall i :: i in runs[m] ==> m <= i
  {
    forall i | i in runs[m]
      ensures m <= i
    {
      assert i < |runs| && runs[i] == runs[m];
    }
  }

  lemma {:induction false} FirstsMean(events: seq<Event>, runs: seq<seq<nat>>, n: nat, edges: Option<Edges>)
    requires n <= |runs| && ProperRuns(events, runs) && SelfRuns(runs)
    ensures var rows, firsts := RowsOf(events, runs, n, edges), Firsts(runs, n);
      && |firsts| == |rows|
      && (forall r :: 0 <= r < |firsts| ==> firsts[r] < n && rows[r].members == runs[firsts[r]])
      && (forall r, s :: 0 <= r < s < |firsts| ==> firsts[r] < firsts[s])
      && (forall r, i :: 0 <= r < |firsts| && i in rows[r].members ==> firsts[r] <= i)
  {
    if n > 0 {
      FirstsMean(events, runs, n - 1, edges);
      if runs[n - 1] !in runs[..n - 1] {
        assert forall j :: 0 <= j < n - 1 ==> runs[..n - 1][j] == runs[j];
        NewRunStartsHere(runs, n - 1);
      }
    }
  }

  // Rows stand in the order of their first records.
  lemma RowsInListOrder(events: seq<Event>, edges: Option<Edges>, r: nat, s: nat)
    requires r < s < |Rows(events, edges)|
    ensures exists i :: i in Rows(events, edges)[r].members && forall j :: j in Rows(events, edges)[s].members ==> i < j
  {
    RunsAreProper(events);
    RunListIsSelf(events);
    FirstsMean(events, RunList(events), |events|, edges);
    var i := Firsts(RunList(events), |events|)[r];
    OwnRun(events, i);
  }

  // ── list order does not matter ─────────────────────────────────────────────

  ghost predicate DistinctIds(events: seq<Event>) {
    forall i, j :: 0 <= i < j < |events| ==> events[i].id != events[j].id
  }

  // Two listings of the same records.
  ghost predicate Reordered(a: seq<Event>, b: seq<Event>) {
    DistinctIds(a) && DistinctIds(b) && forall e :: e in a <==> e in b
  }

  lemma SuccessiveElsewhere(a: seq<Event>, b: seq<Event>, i: nat, j: nat, x: nat, y: nat)
    requires Reordered(a, b) && i < |a| && j < |a| && x < |b| && y < |b| && a[i] == b[x] && a[j] == b[y]
    requires Successive(b, x, y)
    ensures Successive(a, i, j)
  {
    forall k | 0 <= k < |a| && SameDownload(a, i, k)
      ensures !(Before(a, i, k) && Before(a, k, j))
    {
      assert a[k] in b;
      var z :| 0 <= z < |b| && b[z] == a[k];
      assert SameDownload(b, x, z) && !(Before(b, x, z) && Before(b, z, y));
    }
  }

  lemma SameRowElsewhere(a: seq<Event>, b: seq<Event>, i: nat, j: nat, x: nat, y: nat)
    requires Reordered(a, b) && i < |a| && j < |a| && x < |b| && y < |b| && a[i] == b[x] && a[j] == b[y]
    requires SameRow(a, i, j)
    ensures SameRow(b, x, y)
  {
    if i != j {
      var early, late := if Before(a, i, j) then i else j, if Before(a, i, j) then j else i;
      var from, to := if Before(a, i, j) then x else y, if Before(a, i, j) then y else x;
      forall c, d | 0 <= c < |b| && 0 <= d < |b| && Between(b, from, c, d, to)
        ensures Continues(b[c], b[d])
      {
        assert b[c] in a && b[d] in a;
        var p :| 0 <= p < |a| && a[p] == b[c];
        var q :| 0 <= q < |a| && a[q] == b[d];
        SuccessiveElsewhere(a, b, p, q, c, d);
        assert Between(a, early, p, q, late);
      }
    }
  }

  ghost function RecordsOf(events: seq<Event>, members: seq<nat>): set<Event> {
    set i | i in members && i < |events| :: events[i]
  }

  // The same records in another order fold into the same rows, with the same leads.
  lemma OrderDoesNotMatter(a: seq<Event>, b: seq<Event>, edges: Option<Edges>, others: Option<Edges>, i: nat, x: nat,
      r: nat, s: nat)
    requires Reordered(a, b) && i < |a| && x < |b| && a[i] == b[x]
    requires Holds(a, edges, r, i) && Holds(b, others, s, x)
    ensures Rows(a, edges)[r].lead < |a| && Rows(b, others)[s].lead < |b|
    ensures RecordsOf(a, Rows(a, edges)[r].members) == RecordsOf(b, Rows(b, others)[s].members)
    ensures a[Rows(a, edges)[r].lead] == b[Rows(b, others)[s].lead]
  {
    LeadAndMarks(a, edges, r);
    LeadAndMarks(b, others, s);
    MembersElsewhere(a, b, edges, others, i, x, r, s);
    MembersElsewhere(b, a, others, edges, x, i, s, r);
    var m, n := Rows(a, edges)[r].lead, Rows(b, others)[s].lead;
    assert a[m] in RecordsOf(b, Rows(b, others)[s].members) && b[n] in RecordsOf(a, Rows(a, edges)[r].members);
    assert a[m].id == b[n].id && a[m] in b;
  }

  lemma MembersElsewhere(a: seq<Event>, b: seq<Event>, edges: Option<Edges>, others: Option<Edges>, i: nat, x: nat,
      r: nat, s: nat)
    requires Reordered(a, b) && i < |a| && x < |b| && a[i] == b[x]
    requires Holds(a, edges, r, i) && Holds(b, others, s, x)
    ensures RecordsOf(a, Rows(a, edges)[r].members) <= RecordsOf(b, Rows(b, others)[s].members)
  {
    TheRowOf(a, edges, i, r);
    TheRowOf(b, others, x, s);
    forall e | e in RecordsOf(a, Rows(a, edges)[r].members)
      ensures e in RecordsOf(b, Rows(b, others)[s].members)
    {
      var j :| j in Rows(a, edges)[r].members && a[j] == e;
      assert a[j] in b;
      var y :| 0 <= y < |b| && b[y] == e;
      RunOfMeans(a, i, j);
      SameRowElsewhere(a, b, i, j, x, y);
      RunOfMeans(b, x, y);
      assert y in Rows(b, others)[s].members;
    }
  }
}
