// Folding queue records into rows, and choosing what a removal or a grab sends
// (src/lib/arr-queue.ts, lines 281-399 and 463-518).
module QueueRows {
  import opened Options

  datatype Episode = Episode(season: nat, number: nat)

  datatype Tracked = Fine | Warning | Error

  // What the fold uses of a record. `id` is read as valid when positive.
  datatype Record = Record(id: int, downloadId: Option<string>, mediaId: Option<int>, episode: Option<Episode>,
                           size: int, sizeLeft: int, attention: bool, changeable: bool,
                           tracked: Option<Tracked>, pending: bool)

  datatype Row = Row(ids: seq<int>, episodes: seq<Episode>, size: int, sizeLeft: int,
                     attention: bool, changeable: bool, tracked: Option<Tracked>, pending: bool)

  datatype Service = Radarr | Sonarr

  datatype FoldKey = FoldKey(downloadId: string, mediaId: Option<int>)

  function KeyOf(service: Service, r: Record): Option<FoldKey> {
    if service.Sonarr? && r.downloadId.Some? then Some(FoldKey(r.downloadId.value, r.mediaId)) else None
  }

  function StartRow(service: Service, r: Record): Row {
    Row([r.id], if service.Sonarr? && r.episode.Some? then [r.episode.value] else [], r.size, r.sizeLeft,
        r.attention, r.changeable, r.tracked, r.pending)
  }

  // Folding a later record of the download into its row.
  function MergeInto(row: Row, next: Row): Row {
    Row(row.ids + next.ids,
        AddEpisodes(row.episodes, next.episodes),
        if next.size > row.size then next.size else row.size,
        if next.size > row.size then next.sizeLeft else row.sizeLeft,
        row.attention || next.attention,
        row.changeable || next.changeable,
        if row.tracked != Some(Error) && (next.tracked == Some(Warning) || next.tracked == Some(Error))
          then next.tracked else row.tracked,
        row.pending)
  }

  function AddEpisodes(have: seq<Episode>, more: seq<Episode>): seq<Episode>
    decreases |more|
  {
    if more == [] then have
    else AddEpisodes(if more[0] in have then have else have + [more[0]], more[1..])
  }

  // ── episodes in order ──────────────────────────────────────────────────────

  predicate Before(a: Episode, b: Episode) { a.season < b.season || (a.season == b.season && a.number < b.number) }

  function InsertEpisode(sorted: seq<Episode>, e: Episode): seq<Episode> {
    if sorted == [] || !Before(e, sorted[|sorted| - 1]) then sorted + [e]
    else InsertEpisode(sorted[..|sorted| - 1], e) + [sorted[|sorted| - 1]]
  }

  function SortEpisodes(list: seq<Episode>): seq<Episode> {
    if list == [] then [] else InsertEpisode(SortEpisodes(list[..|list| - 1]), list[|list| - 1])
  }

  ghost predicate Ascending(list: seq<Episode>) { forall i, j :: 0 <= i < j < |list| ==> Before(list[i], list[j]) }

  ghost predicate NoRepeats(list: seq<Episode>) { forall i, j :: 0 <= i < j < |list| ==> list[i] != list[j] }

  lemma {:induction false} InsertMeans(sorted: seq<Episode>, e: Episode)
    requires Ascending(sorted) && e !in sorted
    ensures Ascending(InsertEpisode(sorted, e))
    ensures forall x :: x in InsertEpisode(sorted, e) <==> x == e || x in sorted
  {
    if sorted != [] && Before(e, sorted[|sorted| - 1]) {
      var rest, last := sorted[..|sorted| - 1], sorted[|sorted| - 1];
      assert sorted == rest + [last];
      InsertMeans(rest, e);
      var r := InsertEpisode(rest, e);
      forall i | 0 <= i < |r|
        ensures Before(r[i], last)
      {
        assert r[i] in r;
      }
    } else {
      forall i | 0 <= i < |sorted|
        ensures Before(sorted[i], e)
      {
        assert sorted[i] in sorted && sorted[|sorted| - 1] in sorted;
      }
    }
  }

  lemma {:induction false} SortMeans(list: seq<Episode>)
    requires NoRepeats(list)
    ensures Ascending(SortEpisodes(list)) && forall x :: x in SortEpisodes(list) <==> x in list
  {
    if list != [] {
      var rest := list[..|list| - 1];
      SortMeans(rest);
      InsertMeans(SortEpisodes(rest), list[|list| - 1]);
      assert list == rest + [list[|list| - 1]];
    }
  }

  // ── the fold, said as a grouping ───────────────────────────────────────────

  predicate HasId(records: seq<Record>, id: int) { exists i :: 0 <= i < |records| && records[i].id == id }

  // The first record of each valid id.
  function Firsts(records: seq<Record>): seq<Record> {
    if records == [] then []
    else
      var before, r := Firsts(records[..|records| - 1]), records[|records| - 1];
      if r.id > 0 && !HasId(before, r.id) then before + [r] else before
  }

  // The group that already holds the record's download, or none.
  function GroupIndex(service: Service, groups: seq<seq<Record>>, r: Record): (i: nat)
    ensures i <= |groups|
    ensures i < |groups| ==>
      groups[i] != [] && KeyOf(service, r).Some? && KeyOf(service, groups[i][0]) == KeyOf(service, r)
    ensures KeyOf(service, r).Some? ==> forall j :: 0 <= j < i && groups[j] != [] ==>
      KeyOf(service, groups[j][0]) != KeyOf(service, r)
  {
    if KeyOf(service, r).None? then |groups|
    else if groups == [] then 0
    else if groups[0] != [] && KeyOf(service, groups[0][0]) == KeyOf(service, r) then 0
    else GroupIndex(service, groups[1..], r) + 1
  }

  // One group a download, in the order of their first records.
  function Groups(service: Service, items: seq<Record>): seq<seq<Record>> {
    if items == [] then []
    else
      Added(service, Groups(service, items[..|items| - 1]), items[|items| - 1])
  }

  function Added(service: Service, groups: seq<seq<Record>>, r: Record): seq<seq<Record>> {
    var i := GroupIndex(service, groups, r);
    if i < |groups| then groups[i := groups[i] + [r]] else groups + [[r]]
  }

  function Merged(service: Service, group: seq<Record>): Row
    requires group != []
  {
    if |group| == 1 then StartRow(service, group[0])
    else MergeInto(Merged(service, group[..|group| - 1]), StartRow(service, group[|group| - 1]))
  }

  function RowOf(service: Service, group: seq<Record>): Row
    requires group != []
  {
    var row := Merged(service, group);
    row.(episodes := SortEpisodes(row.episodes))
  }

  // ── the fold itself ────────────────────────────────────────────────────────

  ghost predicate RowsMatch(service: Service, groups: seq<seq<Record>>, rows: seq<Row>) {
    |rows| == |groups| && forall i :: 0 <= i < |groups| ==> groups[i] != [] && rows[i] == Merged(service, groups[i])
  }

  ghost predicate IndexMatches(service: Service, groups: seq<seq<Record>>, byDownload: map<FoldKey, nat>) {
    && (forall key :: key in byDownload ==> byDownload[key] < |groups| && groups[byDownload[key]] != [] &&
                                            KeyOf(service, groups[byDownload[key]][0]) == Some(key))
    && (forall i :: 0 <= i < |groups| && groups[i] != [] && KeyOf(service, groups[i][0]).Some? ==>
          KeyOf(service, groups[i][0]).value in byDownload && byDownload[KeyOf(service, groups[i][0]).value] == i)
  }

  lemma {:induction false} GroupsAreProper(service: Service, items: seq<Record>)
    ensures forall g :: 0 <= g < |Groups(service, items)| ==> Groups(service, items)[g] != []
  {
    if items != [] { GroupsAreProper(service, items[..|items| - 1]); }
  }

  ghost function Rows(service: Service, records: seq<Record>): seq<Row> {
    var groups := Groups(service, Firsts(records));
    GroupsAreProper(service, Firsts(records));
    seq(|groups|, g requires 0 <= g < |groups| => RowOf(service, groups[g]))
  }

  lemma AddedId(items: seq<Record>, r: Record)
    ensures forall id :: HasId(items + [r], id) <==> HasId(items, id) || id == r.id
  {
    forall id
      ensures HasId(items + [r], id) <==> HasId(items, id) || id == r.id
    {
      if HasId(items, id) {
        var i :| 0 <= i < |items| && items[i].id == id;
        assert (items + [r])[i].id == id;
      }
      assert (items + [r])[|items|] == r;
    }
  }

  lemma GroupsGrow(service: Service, items: seq<Record>, r: Record)
    ensures Groups(service, items + [r]) == Added(service, Groups(service, items), r)
  {
    assert (items + [r])[..|items|] == items;
  }

  method AddRecord(service: Service, ghost groups: seq<seq<Record>>, r: Record, rows0: seq<Row>,
      known: map<FoldKey, nat>)
    returns (rows: seq<Row>, byDownload: map<FoldKey, nat>)
    requires RowsMatch(service, groups, rows0) && IndexMatches(service, groups, known)
    ensures RowsMatch(service, Added(service, groups, r), rows)
      && IndexMatches(service, Added(service, groups, r), byDownload)
  {
    rows, byDownload := rows0, known;
    var key := KeyOf(service, r);
    if key.Some? && key.value in byDownload {
      var i := byDownload[key.value];
      assert GroupIndex(service, groups, r) == i;
      assert (groups[i] + [r])[..|groups[i]|] == groups[i];
      rows := rows[i := MergeInto(rows[i], StartRow(service, r))];
    } else {
      assert GroupIndex(service, groups, r) == |groups|;
      if key.Some? { byDownload := byDownload[key.value := |rows|]; }
      rows := rows + [StartRow(service, r)];
    }
  }

  method FoldQueueRecords(service: Service, records: seq<Record>) returns (rows: seq<Row>)
    ensures rows == Rows(service, records)
  {
    rows := [];
    var byDownload: map<FoldKey, nat> := map[];
    var seenIds: set<int> := {};
    for n := 0 to |records|
      invariant forall id :: id in seenIds <==> HasId(Firsts(records[..n]), id)
      invariant RowsMatch(service, Groups(service, Firsts(records[..n])), rows)
      invariant IndexMatches(service, Groups(service, Firsts(records[..n])), byDownload)
    {
      var r := records[n];
      ghost var items := Firsts(records[..n]);
      assert records[..n + 1][..n] == records[..n];
      if r.id > 0 && r.id !in seenIds {
        assert Firsts(records[..n + 1]) == items + [r];
        AddedId(items, r);
        GroupsGrow(service, items, r);
        seenIds := seenIds + {r.id};
        rows, byDownload := AddRecord(service, Groups(service, items), r, rows, byDownload);
      }
    }
    assert records[..|records|] == records;
    rows := SortRows(rows);
  }

  method SortRows(rows: seq<Row>) returns (sorted: seq<Row>)
    ensures |sorted| == |rows|
    ensures forall i :: 0 <= i < |rows| ==> sorted[i] == rows[i].(episodes := SortEpisodes(rows[i].episodes))
  {
    sorted := rows;
    for i := 0 to |rows|
      invariant |sorted| == |rows|
      invariant forall j :: 0 <= j < |rows| ==>
        sorted[j] == if j < i then rows[j].(episodes := SortEpisodes(rows[j].episodes)) else rows[j]
    {
      sorted := sorted[i := sorted[i].(episodes := SortEpisodes(sorted[i].episodes))];
    }
  }

  // ── what the rows mean ─────────────────────────────────────────────────────

  lemma {:induction false} FirstsMean(records: seq<Record>)
    ensures forall id :: HasId(Firsts(records), id) <==> id > 0 && HasId(records, id)
    ensures forall i, j :: 0 <= i < j < |Firsts(records)| ==> Firsts(records)[i].id != Firsts(records)[j].id
  {
    if records != [] {
      var rest, r := records[..|records| - 1], records[|records| - 1];
      FirstsMean(rest);
      assert records == rest + [r];
      AddedId(rest, r);
      AddedId(Firsts(rest), r);
      forall i | 0 <= i < |Firsts(rest)|
        ensures HasId(Firsts(rest), Firsts(rest)[i].id)
      {
      }
    }
  }

  // A record met again, on whatever page, changes nothing.
  lemma {:induction false} RepeatsDoNotMatter(before: seq<Record>, repeat: Record, after: seq<Record>)
    requires repeat.id > 0 ==> HasId(before, repeat.id)
    ensures Firsts(before + [repeat] + after) == Firsts(before + after)
    decreases |after|
  {
    if after == [] {
      assert (before + [repeat] + after)[..|before|] == before && before + after == before;
      assert before + [repeat] + after == before + [repeat];
      FirstsMean(before);
    } else {
      var rest, last := after[..|after| - 1], after[|after| - 1];
      RepeatsDoNotMatter(before, repeat, rest);
      assert (before + [repeat] + after)[..|before| + 1 + |rest|] == before + [repeat] + rest;
      assert (before + after)[..|before| + |rest|] == before + rest;
    }
  }

  // Each item is in exactly one group; those of one download share it, all others stand alone.
  ghost predicate InGroup(groups: seq<seq<Record>>, g: int, r: Record) { 0 <= g < |groups| && r in groups[g] }

  // Records of one Sonarr download and series.
  predicate OneDownload(service: Service, a: Record, b: Record) {
    service.Sonarr? && a.downloadId.Some? && a.downloadId == b.downloadId && a.mediaId == b.mediaId
  }

  // Every group holds one download, or one record; no two groups hold the same download.
  ghost predicate Grouped(service: Service, groups: seq<seq<Record>>) {
    && (forall g :: 0 <= g < |groups| ==> groups[g] != [] && OneKind(service, groups[g]))
    && (forall g, h :: 0 <= g < h < |groups| ==> !OneDownload(service, groups[g][0], groups[h][0]))
  }

  ghost predicate OneKind(service: Service, group: seq<Record>) {
    forall i :: 0 < i < |group| ==> OneDownload(service, group[0], group[i])
  }

  lemma {:induction false} GroupsAreGrouped(service: Service, items: seq<Record>)
    ensures Grouped(service, Groups(service, items))
  {
    if items != [] { GroupsAreGrouped(service, items[..|items| - 1]); }
  }

  ghost predicate Covers(groups: seq<seq<Record>>, items: seq<Record>) {
    forall r :: r in items <==> exists g :: InGroup(groups, g, r)
  }

  lemma {:induction false} GroupsCover(service: Service, items: seq<Record>)
    ensures Covers(Groups(service, items), items)
  {
    var groups := Groups(service, items);
    if items != [] {
      var rest, last := items[..|items| - 1], items[|items| - 1];
      GroupsCover(service, rest);
      var was := Groups(service, rest);
      var i := GroupIndex(service, was, last);
      assert items == rest + [last];
      assert InGroup(groups, i, last);
      forall r | r in items
        ensures exists g :: InGroup(groups, g, r)
      {
        if r in rest { var g :| InGroup(was, g, r); assert InGroup(groups, g, r); }
      }
      forall g, r | InGroup(groups, g, r)
        ensures r in items
      {
        if g < |was| && r in was[g] { assert InGroup(was, g, r); }
      }
    }
  }

  ghost predicate IdsApart(groups: seq<seq<Record>>) {
    && (forall g, h, i, j :: 0 <= g < h < |groups| && 0 <= i < |groups[g]| && 0 <= j < |groups[h]| ==>
       groups[g][i].id != groups[h][j].id)
    && (forall g, i, j :: 0 <= g < |groups| && 0 <= i < j < |groups[g]| ==> groups[g][i].id != groups[g][j].id)
  }

  lemma {:induction false} GroupsKeepIdsApart(service: Service, items: seq<Record>)
    requires forall i, j :: 0 <= i < j < |items| ==> items[i].id != items[j].id
    ensures IdsApart(Groups(service, items))
  {
    if items != [] {
      var rest, last := items[..|items| - 1], items[|items| - 1];
      GroupsKeepIdsApart(service, rest);
      GroupsCover(service, rest);
      var was: seq<seq<Record>> := Groups(service, rest);
      forall g, i | 0 <= g < |was| && 0 <= i < |was[g]|
        ensures was[g][i].id != last.id
      {
        assert InGroup(was, g, was[g][i]);
        assert was[g][i] in rest;
        var k :| 0 <= k < |rest| && rest[k] == was[g][i];
      }
    }
  }

  lemma {:induction false} MergedIds(service: Service, group: seq<Record>)
    requires group != []
    ensures |Merged(service, group).ids| == |group|
    ensures forall i :: 0 <= i < |group| ==> Merged(service, group).ids[i] == group[i].id
  {
    if |group| > 1 { MergedIds(service, group[..|group| - 1]); }
  }

  ghost predicate IdAt(rows: seq<Row>, g: int, i: int) { 0 <= g < |rows| && 0 <= i < |rows[g].ids| }

  ghost predicate InSomeRow(rows: seq<Row>, id: int) { exists g :: 0 <= g < |rows| && id in rows[g].ids }

  ghost predicate IdsOnce(rows: seq<Row>) {
    forall g, h, i, j :: IdAt(rows, g, i) && IdAt(rows, h, j) && rows[g].ids[i] == rows[h].ids[j] ==> g == h && i == j
  }

  // Each distinct valid id is in exactly one row, once; no other id is in any.
  lemma EachIdInOneRow(service: Service, records: seq<Record>)
    ensures forall id :: id > 0 && HasId(records, id) <==> InSomeRow(Rows(service, records), id)
    ensures IdsOnce(Rows(service, records))
  {
    var items, rows := Firsts(records), Rows(service, records);
    var groups: seq<seq<Record>> := Groups(service, items);
    FirstsMean(records);
    GroupsAreProper(service, items);
    GroupsCover(service, items);
    GroupsKeepIdsApart(service, items);
    forall g | 0 <= g < |rows|
      ensures |rows[g].ids| == |groups[g]| && forall i :: 0 <= i < |groups[g]| ==> rows[g].ids[i] == groups[g][i].id
    {
      MergedIds(service, groups[g]);
    }
    forall id
      ensures id > 0 && HasId(records, id) <==> InSomeRow(rows, id)
    {
      IdsAreCovered(groups, items, rows, id);
    }
  }

  lemma IdsAreCovered(groups: seq<seq<Record>>, items: seq<Record>, rows: seq<Row>, id: int)
    requires Covers(groups, items) && |rows| == |groups|
    requires forall g :: 0 <= g < |rows| ==> |rows[g].ids| == |groups[g]| && forall i :: 0 <= i < |groups[g]| ==>
      rows[g].ids[i] == groups[g][i].id
    ensures HasId(items, id) <==> InSomeRow(rows, id)
  {
    if HasId(items, id) {
      var k :| 0 <= k < |items| && items[k].id == id;
      assert items[k] in items;
      var g :| InGroup(groups, g, items[k]);
      var i :| 0 <= i < |groups[g]| && groups[g][i] == items[k];
      assert rows[g].ids[i] == id;
    }
    if InSomeRow(rows, id) {
      var g :| 0 <= g < |rows| && id in rows[g].ids;
      var i :| 0 <= i < |rows[g].ids| && rows[g].ids[i] == id;
      assert InGroup(groups, g, groups[g][i]);
      assert groups[g][i] in items;
    }
  }

  lemma GroupsAreDownloads(service: Service, records: seq<Record>, a: Record, b: Record, g: nat, h: nat)
    requires InGroup(Groups(service, Firsts(records)), g, a) && InGroup(Groups(service, Firsts(records)), h, b)
      && a != b
    ensures g == h <==> OneDownload(service, a, b)
  {
    var groups := Groups(service, Firsts(records));
    GroupsAreGrouped(service, Firsts(records));
    var i :| 0 <= i < |groups[g]| && groups[g][i] == a;
    var j :| 0 <= j < |groups[h]| && groups[h][j] == b;
  }

  // ── rows and their ids stand in the order met ──────────────────────────────

  // Where a record of this id is first met; the length where none is.
  function FirstMet(records: seq<Record>, id: int): (k: nat)
    ensures k <= |records| && (k < |records| ==> records[k].id == id)
    ensures forall j :: 0 <= j < k ==> records[j].id != id
  {
    if records == [] || records[0].id == id then 0 else FirstMet(records[1..], id) + 1
  }

  ghost predicate MetInOrder(records: seq<Record>, some: seq<Record>) {
    forall i, j :: 0 <= i < j < |some| ==> FirstMet(records, some[i].id) < FirstMet(records, some[j].id)
  }

  lemma OneMoreMet(records: seq<Record>, r: Record)
    ensures forall id :: HasId(records, id) ==> FirstMet(records + [r], id) == FirstMet(records, id) < |records|
    ensures !HasId(records, r.id) ==> FirstMet(records + [r], r.id) == |records|
  {
    var more := records + [r];
    assert more[|records|] == r && forall k :: 0 <= k < |records| ==> more[k] == records[k];
    forall id | HasId(records, id)
      ensures FirstMet(more, id) == FirstMet(records, id) < |records|
    {
      var i :| 0 <= i < |records| && records[i].id == id;
      assert more[i].id == id && more[FirstMet(records, id)].id == id;
    }
  }

  // Each is the first record met of its id, and they stand in that order.
  ghost predicate FirstOnes(records: seq<Record>, some: seq<Record>) {
    && MetInOrder(records, some)
    && forall i :: 0 <= i < |some| ==> IsFirstMet(records, some[i])
  }

  predicate IsFirstMet(records: seq<Record>, r: Record) {
    var k := FirstMet(records, r.id);
    k < |records| && records[k] == r
  }

  lemma FirstOnesGrow(records: seq<Record>, r: Record, some: seq<Record>)
    requires FirstOnes(records, some)
    ensures FirstOnes(records + [r], some)
    ensures !HasId(records, r.id) ==> FirstOnes(records + [r], some + [r])
  {
    OneMoreMet(records, r);
    forall i | 0 <= i < |some|
      ensures FirstMet(records + [r], some[i].id) == FirstMet(records, some[i].id) < |records|
      ensures IsFirstMet(records + [r], some[i])
    {
      assert IsFirstMet(records, some[i]) && records[FirstMet(records, some[i].id)].id == some[i].id;
      assert HasId(records, some[i].id);
    }
  }

  lemma {:induction false} FirstsInOrder(records: seq<Record>)
    ensures FirstOnes(records, Firsts(records))
  {
    if records != [] {
      var rest, r := records[..|records| - 1], records[|records| - 1];
      assert records == rest + [r];
      FirstsInOrder(rest);
      FirstsMean(rest);
      FirstOnesGrow(rest, r, Firsts(rest));
    }
  }

  ghost predicate GroupsInOrder(records: seq<Record>, groups: seq<seq<Record>>) {
    && (forall g :: 0 <= g < |groups| ==> groups[g] != [] && MetInOrder(records, groups[g]))
    && (forall g, h :: 0 <= g < h < |groups| ==>
       FirstMet(records, groups[g][0].id) < FirstMet(records, groups[h][0].id))
  }

  lemma {:induction false} GroupsStayInOrder(service: Service, records: seq<Record>, items: seq<Record>)
    requires MetInOrder(records, items)
    ensures GroupsInOrder(records, Groups(service, items))
  {
    if items != [] {
      var rest, last := items[..|items| - 1], items[|items| - 1];
      GroupsStayInOrder(service, records, rest);
      GroupsCover(service, rest);
      var was: seq<seq<Record>> := Groups(service, rest);
      forall g, i | 0 <= g < |was| && 0 <= i < |was[g]|
        ensures FirstMet(records, was[g][i].id) < FirstMet(records, last.id)
      {
        assert InGroup(was, g, was[g][i]);
        assert was[g][i] in rest;
      }
      LastGoesLast(service, records, was, last);
    }
  }

  lemma LastGoesLast(service: Service, records: seq<Record>, groups: seq<seq<Record>>, r: Record)
    requires GroupsInOrder(records, groups)
    requires forall g, i :: 0 <= g < |groups| && 0 <= i < |groups[g]| ==>
      FirstMet(records, groups[g][i].id) < FirstMet(records, r.id)
    ensures GroupsInOrder(records, Added(service, groups, r))
  {
    var now, k := Added(service, groups, r), GroupIndex(service, groups, r);
    forall g | 0 <= g < |now|
      ensures now[g] != [] && MetInOrder(records, now[g])
      ensures g < |groups| ==> now[g][0] == groups[g][0]
    {
      if g < |groups| { assert MetInOrder(records, groups[g]); }
    }
  }

  // Rows stand in the order their first records are met, and a row names its ids so.
  lemma RowsInOrderMet(service: Service, records: seq<Record>)
    ensures var rows := Rows(service, records);
      && (forall g :: 0 <= g < |rows| ==> rows[g].ids != [])
      && (forall g, h :: 0 <= g < h < |rows| ==> FirstMet(records, rows[g].ids[0]) < FirstMet(records, rows[h].ids[0]))
      && (forall g, i, j :: 0 <= g < |rows| && 0 <= i < j < |rows[g].ids| ==>
           FirstMet(records, rows[g].ids[i]) < FirstMet(records, rows[g].ids[j]))
  {
    var items, rows := Firsts(records), Rows(service, records);
    var groups: seq<seq<Record>> := Groups(service, items);
    FirstsInOrder(records);
    GroupsStayInOrder(service, records, items);
    GroupsAreProper(service, items);
    forall g | 0 <= g < |rows|
      ensures |rows[g].ids| == |groups[g]| && forall i :: 0 <= i < |groups[g]| ==> rows[g].ids[i] == groups[g][i].id
    {
      MergedIds(service, groups[g]);
    }
    forall g, i, j | 0 <= g < |rows| && 0 <= i < j < |rows[g].ids|
      ensures FirstMet(records, rows[g].ids[i]) < FirstMet(records, rows[g].ids[j])
    {
      assert MetInOrder(records, groups[g]);
    }
  }

  // ── what a row says of its records ─────────────────────────────────────────

  ghost predicate AnyAttention(group: seq<Record>) { exists i :: 0 <= i < |group| && group[i].attention }

  ghost predicate AnyChangeable(group: seq<Record>) { exists i :: 0 <= i < |group| && group[i].changeable }

  ghost predicate AnyTracked(group: seq<Record>, t: Tracked) {
    exists i :: 0 <= i < |group| && group[i].tracked == Some(t)
  }

  // The i-th record is the first of the largest.
  ghost predicate LargestAt(group: seq<Record>, i: nat) {
    && i < |group|
    && (forall j :: 0 <= j < |group| ==> group[j].size <= group[i].size)
    && (forall j :: 0 <= j < i ==> group[j].size < group[i].size)
  }

  lemma {:induction false} MergedAttention(service: Service, group: seq<Record>)
    requires group != []
    ensures Merged(service, group).attention <==> AnyAttention(group)
    ensures Merged(service, group).changeable <==> AnyChangeable(group)
    ensures Merged(service, group).pending == group[0].pending
  {
    var n := |group| - 1;
    if n > 0 { MergedAttention(service, group[..n]); }
    assert group == group[..n] + [group[n]];
  }

  lemma {:induction false} MergedSize(service: Service, group: seq<Record>) returns (i: nat)
    requires group != []
    ensures LargestAt(group, i) && Merged(service, group).size == group[i].size
      && Merged(service, group).sizeLeft == group[i].sizeLeft
  {
    i := 0;
    var n := |group| - 1;
    if n > 0 {
      i := MergedSize(service, group[..n]);
      assert forall j :: 0 <= j < n ==> group[..n][j] == group[j];
      if group[n].size > group[i].size { i := n; }
    }
  }

  lemma {:induction false} MergedTracked(service: Service, group: seq<Record>)
    requires group != []
    ensures Merged(service, group).tracked ==
      if AnyTracked(group, Error) then Some(Error) else if AnyTracked(group, Warning) then Some(Warning)
      else group[0].tracked
  {
    var n := |group| - 1;
    if n > 0 {
      MergedTracked(service, group[..n]);
      var last := group[n];
      assert forall j :: 0 <= j < n ==> group[..n][j] == group[j];
      TrackedGrows(group, Error);
      TrackedGrows(group, Warning);
    }
  }

  lemma TrackedGrows(group: seq<Record>, t: Tracked)
    requires group != []
    ensures AnyTracked(group, t) <==> AnyTracked(group[..|group| - 1], t) || group[|group| - 1].tracked == Some(t)
  {
    assert group == group[..|group| - 1] + [group[|group| - 1]];
  }

  lemma AddOne(have: seq<Episode>, e: Episode)
    requires NoRepeats(have)
    ensures NoRepeats(AddEpisodes(have, [e])) && forall x :: x in AddEpisodes(have, [e]) <==> x == e || x in have
  {
    assert [e][1..] == [];
    assert AddEpisodes(have, [e]) == if e in have then have else have + [e];
  }

  ghost predicate HasEpisode(group: seq<Record>, e: Episode) {
    exists i :: 0 <= i < |group| && group[i].episode == Some(e)
  }

  lemma EpisodesGrow(group: seq<Record>, e: Episode)
    requires group != []
    ensures HasEpisode(group, e) <==> HasEpisode(group[..|group| - 1], e) || group[|group| - 1].episode == Some(e)
  {
    assert group == group[..|group| - 1] + [group[|group| - 1]];
  }

  lemma {:induction false} MergedEpisodes(group: seq<Record>)
    requires group != []
    ensures NoRepeats(Merged(Sonarr, group).episodes)
    ensures forall e :: e in Merged(Sonarr, group).episodes <==> HasEpisode(group, e)
  {
    var n := |group| - 1;
    forall e
      ensures HasEpisode(group, e) <==> HasEpisode(group[..n], e) || group[n].episode == Some(e)
    {
      EpisodesGrow(group, e);
    }
    if n > 0 {
      MergedEpisodes(group[..n]);
      if group[n].episode.Some? { AddOne(Merged(Sonarr, group[..n]).episodes, group[n].episode.value); }
    }
  }

  // A row lists its records' distinct episodes in order, asks for attention when one of
  // them does, and shows the largest view of the release and the worst tracked state.
  ghost predicate Says(service: Service, row: Row, group: seq<Record>, i: nat)
    requires group != []
  {
    && EpisodesInOrder(row.episodes)
    && (service.Sonarr? ==> forall e :: e in row.episodes <==> HasEpisode(group, e))
    && (service.Radarr? ==> row.episodes == [])
    && (row.attention <==> AnyAttention(group)) && (row.changeable <==> AnyChangeable(group))
    && row.pending == group[0].pending
    && LargestAt(group, i) && row.size == group[i].size && row.sizeLeft == group[i].sizeLeft
    && row.tracked == (if AnyTracked(group, Error) then Some(Error)
         else if AnyTracked(group, Warning) then Some(Warning) else group[0].tracked)
  }

  ghost predicate EpisodesInOrder(episodes: seq<Episode>) {
    forall j, k :: 0 <= j < k < |episodes| ==>
      || episodes[j].season < episodes[k].season
      || (episodes[j].season == episodes[k].season && episodes[j].number < episodes[k].number)
  }

  lemma GroupMeans(service: Service, group: seq<Record>) returns (i: nat)
    requires group != []
    ensures Says(service, RowOf(service, group), group, i)
  {
    i := MergedSize(service, group);
    MergedAttention(service, group);
    MergedTracked(service, group);
    if service.Sonarr? {
      MergedEpisodes(group);
      SortMeans(Merged(service, group).episodes);
    } else {
      NoEpisodes(group);
    }
  }

  ghost predicate AllNamed(records: seq<Record>, ids: seq<int>) {
    forall i :: 0 <= i < |ids| ==> HasId(records, ids[i])
  }

  // The records of these ids, each as it was first met.
  ghost function Named(records: seq<Record>, ids: seq<int>): (named: seq<Record>)
    requires AllNamed(records, ids)
    ensures |named| == |ids| && forall i :: 0 <= i < |ids| ==> named[i].id == ids[i] && IsFirstMet(records, named[i])
  {
    assert forall i :: 0 <= i < |ids| ==> HasId(records, ids[i]) && FirstMet(records, ids[i]) < |records|;
    seq(|ids|, i requires 0 <= i < |ids| => records[FirstMet(records, ids[i])])
  }

  // A row stands for the records it names.
  lemma GroupIsNamed(service: Service, records: seq<Record>, g: nat)
    requires g < |Rows(service, records)|
    ensures var (ids, groups) := (Rows(service, records)[g].ids, Groups(service, Firsts(records)));
      && |groups| == |Rows(service, records)| && AllNamed(records, ids)
      && groups[g] != [] && Rows(service, records)[g] == RowOf(service, groups[g]) && Named(records, ids) == groups[g]
  {
    var items := Firsts(records);
    var groups: seq<seq<Record>> := Groups(service, items);
    FirstsInOrder(records);
    GroupsAreProper(service, items);
    GroupsCover(service, items);
    var ids := Rows(service, records)[g].ids;
    MergedIds(service, groups[g]);
    forall i | 0 <= i < |ids|
      ensures ids[i] == groups[g][i].id && IsFirstMet(records, groups[g][i]) && HasId(records, ids[i])
    {
      assert InGroup(groups, g, groups[g][i]);
      assert groups[g][i] in items;
      var k :| 0 <= k < |items| && items[k] == groups[g][i];
    }
  }

  // What a row of the fold says of the records it names, in the order it names them.
  lemma RowMeans(service: Service, records: seq<Record>, g: nat) returns (i: nat)
    requires g < |Rows(service, records)|
    ensures var row := Rows(service, records)[g];
      row.ids != [] && AllNamed(records, row.ids) && Says(service, row, Named(records, row.ids), i)
  {
    GroupIsNamed(service, records, g);
    i := GroupMeans(service, Groups(service, Firsts(records))[g]);
  }

  // Two records share a row exactly when they are one Sonarr download's.
  lemma RowsAreDownloads(service: Service, records: seq<Record>, a: Record, b: Record, g: nat, h: nat)
    requires g < |Rows(service, records)| && h < |Rows(service, records)| && a.id != b.id
    requires a.id in Rows(service, records)[g].ids && b.id in Rows(service, records)[h].ids
    requires IsFirstMet(records, a) && IsFirstMet(records, b)
    ensures g == h <==> OneDownload(service, a, b)
  {
    var groups := Groups(service, Firsts(records));
    IsNamedBy(service, records, g, a);
    IsNamedBy(service, records, h, b);
    GroupsAreDownloads(service, records, a, b, g, h);
  }

  lemma IsNamedBy(service: Service, records: seq<Record>, g: nat, a: Record)
    requires g < |Rows(service, records)| && a.id in Rows(service, records)[g].ids && IsFirstMet(records, a)
    ensures InGroup(Groups(service, Firsts(records)), g, a)
  {
    GroupIsNamed(service, records, g);
    var ids := Rows(service, records)[g].ids;
    var i :| 0 <= i < |ids| && ids[i] == a.id;
    assert Named(records, ids)[i] == a;
  }

  lemma {:induction false} NoEpisodes(group: seq<Record>)
    requires group != []
    ensures Merged(Radarr, group).episodes == []
  {
    if |group| > 1 { NoEpisodes(group[..|group| - 1]); }
  }

  // ── what a removal or a grab sends ─────────────────────────────────────────

  predicate Touched(row: Row, requested: seq<int>) { exists i :: 0 <= i < |row.ids| && row.ids[i] in requested }

  predicate Chosen(row: Row, requested: seq<int>, pendingOnly: bool) {
    (pendingOnly ==> row.pending) && Touched(row, requested)
  }

  // The first id of each chosen row, in row order.
  function Sent(rows: seq<Row>, requested: seq<int>, pendingOnly: bool): seq<int> {
    if rows == [] then []
    else
      var before, row := Sent(rows[..|rows| - 1], requested, pendingOnly), rows[|rows| - 1];
      if Chosen(row, requested, pendingOnly) then before + [row.ids[0]] else before
  }

  ghost predicate RowsApart(rows: seq<Row>) {
    && (forall g :: 0 <= g < |rows| ==> rows[g].ids != [])
    && IdsOnce(rows)
  }

  method SelectLiveIds(rows: seq<Row>, requested: seq<int>, pendingOnly: bool) returns (sent: seq<int>)
    requires RowsApart(rows)
    ensures sent == Sent(rows, requested, pendingOnly)
  {
    sent := [];
    var seen: set<int> := {};
    for n := 0 to |rows|
      invariant sent == Sent(rows[..n], requested, pendingOnly)
      invariant forall id :: id in seen ==> exists g :: 0 <= g < n && rows[g].ids[0] == id
    {
      var row := rows[n];
      assert rows[..n + 1][..n] == rows[..n];
      assert IdAt(rows, n, 0) && forall g :: 0 <= g < n ==> IdAt(rows, g, 0);
      if Chosen(row, requested, pendingOnly) && row.ids[0] !in seen {
        seen := seen + {row.ids[0]};
        sent := sent + [row.ids[0]];
      }
    }
    assert rows[..|rows|] == rows;
  }

  // One id for each eligible row the posted ids touch, and nothing else, none twice.
  lemma {:induction false} SentExactly(rows: seq<Row>, requested: seq<int>, pendingOnly: bool)
    requires RowsApart(rows)
    ensures forall id :: id in Sent(rows, requested, pendingOnly) <==>
      exists g :: 0 <= g < |rows| && Chosen(rows[g], requested, pendingOnly) && rows[g].ids[0] == id
    ensures forall i, j :: 0 <= i < j < |Sent(rows, requested, pendingOnly)| ==>
      Sent(rows, requested, pendingOnly)[i] != Sent(rows, requested, pendingOnly)[j]
  {
    if rows != [] {
      var n := |rows| - 1;
      var rest := rows[..n];
      forall g, h, i, j | IdAt(rest, g, i) && IdAt(rest, h, j) && rest[g].ids[i] == rest[h].ids[j]
        ensures g == h && i == j
      {
        assert IdAt(rows, g, i) && IdAt(rows, h, j);
      }
      SentExactly(rest, requested, pendingOnly);
      assert IdAt(rows, n, 0) && forall g :: 0 <= g < n ==> IdAt(rows, g, 0) && rest[g] == rows[g];
      forall i | 0 <= i < |Sent(rest, requested, pendingOnly)|
        ensures Sent(rest, requested, pendingOnly)[i] != rows[n].ids[0]
      {
        assert Sent(rest, requested, pendingOnly)[i] in Sent(rest, requested, pendingOnly);
      }
    }
  }

  // Any of a row's ids names the whole row: what is sent depends only on the rows touched.
  lemma {:induction false} OnlyRowsMatter(rows: seq<Row>, a: seq<int>, b: seq<int>, pendingOnly: bool)
    requires forall g :: 0 <= g < |rows| ==> (Touched(rows[g], a) <==> Touched(rows[g], b))
    ensures Sent(rows, a, pendingOnly) == Sent(rows, b, pendingOnly)
  {
    if rows != [] { OnlyRowsMatter(rows[..|rows| - 1], a, b, pendingOnly); }
  }

  // Posting a whole pack sends what posting any one of its ids sends: one id.
  lemma PackIsOneDownload(service: Service, records: seq<Record>, g: nat, i: nat, pendingOnly: bool)
    requires g < |Rows(service, records)| && i < |Rows(service, records)[g].ids|
    ensures var rows := Rows(service, records);
      && RowsApart(rows)
      && Sent(rows, rows[g].ids, pendingOnly) == Sent(rows, [rows[g].ids[i]], pendingOnly)
      && Sent(rows, rows[g].ids, pendingOnly) == if pendingOnly && !rows[g].pending then [] else [rows[g].ids[0]]
  {
    var rows := Rows(service, records);
    FoldedRowsApart(service, records);
    forall h | 0 <= h < |rows|
      ensures Touched(rows[h], rows[g].ids) <==> h == g
      ensures Touched(rows[h], [rows[g].ids[i]]) <==> h == g
    {
      TouchedOnlyIfOwn(rows, g, h, i);
    }
    OnlyRowsMatter(rows, rows[g].ids, [rows[g].ids[i]], pendingOnly);
    OneRowSends(rows, rows[g].ids, g, pendingOnly);
  }

  lemma TouchedOnlyIfOwn(rows: seq<Row>, g: nat, h: nat, i: nat)
    requires RowsApart(rows) && IdAt(rows, g, i) && h < |rows|
    ensures Touched(rows[h], rows[g].ids) <==> h == g
    ensures Touched(rows[h], [rows[g].ids[i]]) <==> h == g
  {
    if h == g { assert rows[h].ids[i] in rows[g].ids; }
    if k :| 0 <= k < |rows[h].ids| && rows[h].ids[k] in rows[g].ids {
      var j :| 0 <= j < |rows[g].ids| && rows[g].ids[j] == rows[h].ids[k];
      assert IdAt(rows, h, k) && IdAt(rows, g, j);
    }
    if k :| 0 <= k < |rows[h].ids| && rows[h].ids[k] in [rows[g].ids[i]] { assert IdAt(rows, h, k); }
  }

  lemma {:induction false} OneRowSends(rows: seq<Row>, requested: seq<int>, g: nat, pendingOnly: bool)
    requires forall h :: 0 <= h < |rows| ==> rows[h].ids != [] && (Touched(rows[h], requested) <==> h == g)
    ensures Sent(rows, requested, pendingOnly) ==
      if g < |rows| && (pendingOnly ==> rows[g].pending) then [rows[g].ids[0]] else []
  {
    if rows != [] { OneRowSends(rows[..|rows| - 1], requested, g, pendingOnly); }
  }

  lemma FoldedRowsApart(service: Service, records: seq<Record>)
    ensures RowsApart(Rows(service, records))
  {
    EachIdInOneRow(service, records);
    var groups := Groups(service, Firsts(records));
    GroupsAreProper(service, Firsts(records));
    forall g | 0 <= g < |groups|
      ensures Rows(service, records)[g].ids != []
    {
      MergedIds(service, groups[g]);
    }
  }
}
