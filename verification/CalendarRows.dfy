// Folding calendar entries into days, rows and cells (src/lib/arr-calendar-days.ts, lines 241-332).
module CalendarRows {
  import opened Options

  datatype Service = Radarr | Sonarr

  datatype Kind = EpisodeAirs | Cinema | Digital | Physical

  datatype Status = Missing | Downloading | Airing | Downloaded | Upcoming | Released | Aired | Unmonitored

  // `ms` is when the entry falls and `day` the viewer's local date that holds it.
  datatype Entry = Entry(service: Service, instance: string, kind: Kind, ms: int, day: string,
                         arrId: int, episodeId: Option<int>, tmdbId: Option<int>, tvdbId: Option<int>,
                         season: Option<int>, number: Option<int>, poster: Option<string>,
                         status: Status, progress: Option<real>, attention: bool)

  function Rank(status: Status): nat {
    match status
    case Missing => 0
    case Downloading => 1
    case Airing => 2
    case Downloaded => 3
    case Upcoming => 4
    case Released => 5
    case Aired => 6
    case Unmonitored => 7
  }

  datatype Identity =
    | MovieByTmdb(id: int)
    | EpisodeByTvdb(id: int, season: int, number: int)
    | EpisodeByTmdb(id: int, season: int, number: int)
    | ByArr(instance: string, id: int)

  // The title across instances. Without a shared id an episode goes by its own number at
  // the arr, or its series' when it has none.
  function IdentityOf(e: Entry): Identity {
    match e.service
    case Radarr => if e.tmdbId.Some? then MovieByTmdb(e.tmdbId.value) else ByArr(e.instance, e.arrId)
    case Sonarr =>
      if (e.tvdbId.None? && e.tmdbId.None?) || e.season.None? || e.number.None? then
        ByArr(e.instance, if e.episodeId.Some? then e.episodeId.value else e.arrId)
      else if e.tvdbId.Some? then EpisodeByTvdb(e.tvdbId.value, e.season.value, e.number.value)
      else EpisodeByTmdb(e.tmdbId.value, e.season.value, e.number.value)
  }

  datatype RowKey = RowKey(service: Service, identity: Identity, day: string)

  datatype CellKey = CellKey(service: Service, instance: string, arrId: int, episodeId: Option<int>)

  function RowKeyOf(e: Entry): RowKey { RowKey(e.service, IdentityOf(e), e.day) }

  function CellKeyOf(e: Entry): CellKey { CellKey(e.service, e.instance, e.arrId, e.episodeId) }

  datatype Cell = Cell(key: CellKey, status: Status, progress: Option<real>, attention: bool)

  datatype Row = Row(ms: int, tmdbId: Option<int>, poster: Option<string>, kinds: seq<Kind>, cells: seq<Cell>)

  function Or<T>(a: Option<T>, b: Option<T>): Option<T> { if a.Some? then a else b }

  function NewCell(e: Entry): Cell { Cell(CellKeyOf(e), e.status, e.progress, e.attention) }

  function JoinCell(cell: Cell, e: Entry): Cell {
    var flagged := cell.(attention := cell.attention || e.attention);
    if Rank(e.status) < Rank(cell.status) then flagged.(status := e.status, progress := e.progress) else flagged
  }

  function CellIndex(cells: seq<Cell>, key: CellKey): (i: nat)
    ensures i <= |cells| && (i < |cells| ==> cells[i].key == key)
    ensures forall j :: 0 <= j < i ==> cells[j].key != key
  {
    if cells == [] || cells[0].key == key then 0 else CellIndex(cells[1..], key) + 1
  }

  function AddToCells(cells: seq<Cell>, e: Entry): seq<Cell> {
    var i := CellIndex(cells, CellKeyOf(e));
    if i < |cells| then cells[i := JoinCell(cells[i], e)] else cells + [NewCell(e)]
  }

  function NewRow(e: Entry): Row { Row(e.ms, e.tmdbId, e.poster, [], []) }

  function AddToRow(row: Row, e: Entry): Row {
    Row(if e.ms < row.ms then e.ms else row.ms,
        Or(row.tmdbId, e.tmdbId),
        Or(row.poster, e.poster),
        if e.kind in row.kinds then row.kinds else row.kinds + [e.kind],
        AddToCells(row.cells, e))
  }

  // ── the grouping, said declaratively ───────────────────────────────────────

  function Members(entries: seq<Entry>, key: RowKey): seq<Entry> {
    if entries == [] then []
    else
      var before, e := Members(entries[..|entries| - 1], key), entries[|entries| - 1];
      if RowKeyOf(e) == key then before + [e] else before
  }

  function CellMembers(entries: seq<Entry>, key: CellKey): seq<Entry> {
    if entries == [] then []
    else
      var before, e := CellMembers(entries[..|entries| - 1], key), entries[|entries| - 1];
      if CellKeyOf(e) == key then before + [e] else before
  }

  function RowOf(members: seq<Entry>): Row
    requires members != []
  {
    if |members| == 1 then AddToRow(NewRow(members[0]), members[0])
    else AddToRow(RowOf(members[..|members| - 1]), members[|members| - 1])
  }

  // ── the fold itself ────────────────────────────────────────────────────────

  // A day and its rows, in the order they were met.
  datatype Day = Day(key: string, rows: seq<RowKey>)

  function DayIndex(days: seq<Day>, key: string): (i: nat)
    ensures i <= |days| && (i < |days| ==> days[i].key == key)
    ensures forall j :: 0 <= j < i ==> days[j].key != key
  {
    if days == [] || days[0].key == key then 0 else DayIndex(days[1..], key) + 1
  }

  ghost predicate DaysDiffer(days: seq<Day>) { forall i, j :: 0 <= i < j < |days| ==> days[i].key != days[j].key }

  // A day's rows are its own, each once.
  ghost predicate DayOk(day: Day, keys: set<RowKey>) {
    && day.rows != []
    && (forall r :: r in day.rows ==> r.day == day.key && r in keys)
    && (forall p, q :: 0 <= p < q < |day.rows| ==> day.rows[p] != day.rows[q])
  }

  ghost predicate OnADay(days: seq<Day>, r: RowKey) { exists i :: 0 <= i < |days| && r in days[i].rows }

  // Each row stands on its own day, once; days differ.
  ghost predicate Placed(days: seq<Day>, keys: set<RowKey>) {
    && DaysDiffer(days)
    && (forall i :: 0 <= i < |days| ==> DayOk(days[i], keys))
    && (forall r :: r in keys ==> OnADay(days, r))
  }

  function RowCount(days: seq<Day>): nat {
    if days == [] then 0 else RowCount(days[..|days| - 1]) + |days[|days| - 1].rows|
  }

  // The (service, title, day) triples among the entries.
  function KeysOf(entries: seq<Entry>): set<RowKey> { set i | 0 <= i < |entries| :: RowKeyOf(entries[i]) }

  ghost predicate IsRowOf(entries: seq<Entry>, key: RowKey, row: Row) {
    Members(entries, key) != [] && row == RowOf(Members(entries, key))
  }

  // Each triple has its row, made of just its entries.
  ghost predicate RowsMatch(entries: seq<Entry>, rows: map<RowKey, Row>) {
    rows.Keys == KeysOf(entries) && forall key :: key in rows ==> IsRowOf(entries, key, rows[key])
  }

  function PlacedRow(days: seq<Day>, key: RowKey): seq<Day> {
    var i := DayIndex(days, key.day);
    if i < |days| then days[i := days[i].(rows := days[i].rows + [key])] else days + [Day(key.day, [key])]
  }

  lemma OthersStay(days: seq<Day>, key: RowKey, r: RowKey)
    requires r == key || OnADay(days, r)
    ensures OnADay(PlacedRow(days, key), r)
  {
    var i := DayIndex(days, key.day);
    if r == key {
      assert key in PlacedRow(days, key)[i].rows;
    } else {
      var j :| 0 <= j < |days| && r in days[j].rows;
      assert r in PlacedRow(days, key)[j].rows;
    }
  }

  lemma DayGrows(day: Day, keys: set<RowKey>, key: RowKey)
    requires DayOk(day, keys) && key.day == day.key && key !in keys
    ensures DayOk(day.(rows := day.rows + [key]), keys + {key})
  {
    forall p | 0 <= p < |day.rows|
      ensures day.rows[p] != key
    {
      assert day.rows[p] in day.rows;
    }
  }

  lemma DaysAreOk(days: seq<Day>, keys: set<RowKey>, key: RowKey)
    requires Placed(days, keys) && key !in keys
    ensures DaysDiffer(PlacedRow(days, key))
    ensures forall j :: 0 <= j < |PlacedRow(days, key)| ==> DayOk(PlacedRow(days, key)[j], keys + {key})
  {
    var now, i := PlacedRow(days, key), DayIndex(days, key.day);
    forall j | 0 <= j < |now|
      ensures DayOk(now[j], keys + {key})
    {
      if j < |days| { assert DayOk(days[j], keys); }
      if j == i && i < |days| { DayGrows(days[i], keys, key); }
    }
  }

  lemma PlacedRowIsPlaced(days: seq<Day>, keys: set<RowKey>, key: RowKey)
    requires Placed(days, keys) && key !in keys
    ensures Placed(PlacedRow(days, key), keys + {key}) && RowCount(PlacedRow(days, key)) == RowCount(days) + 1
  {
    var now, i := PlacedRow(days, key), DayIndex(days, key.day);
    DaysAreOk(days, keys, key);
    forall r | r in keys + {key}
      ensures OnADay(now, r)
    {
      OthersStay(days, key, r);
    }
    if i < |days| {
      CountGrows(days, i, now[i]);
    } else {
      assert now[..|now| - 1] == days;
    }
  }

  lemma {:induction false} CountGrows(days: seq<Day>, i: nat, day: Day)
    requires i < |days|
    ensures RowCount(days[i := day]) == RowCount(days) - |days[i].rows| + |day.rows|
  {
    var n := |days| - 1;
    if i == n {
      assert days[i := day][..n] == days[..n];
    } else {
      CountGrows(days[..n], i, day);
      assert days[i := day][..n] == days[..n][i := day];
    }
  }

  function AddEntry(rows: map<RowKey, Row>, e: Entry): map<RowKey, Row> {
    var key := RowKeyOf(e);
    rows[key := AddToRow(if key in rows then rows[key] else NewRow(e), e)]
  }

  lemma MembersGrow(entries: seq<Entry>, e: Entry, key: RowKey)
    ensures Members(entries + [e], key) == if RowKeyOf(e) == key then Members(entries, key) + [e]
      else Members(entries, key)
  {
    assert (entries + [e])[..|entries|] == entries;
  }

  lemma RowGrows(members: seq<Entry>, e: Entry)
    ensures RowOf(members + [e]) == AddToRow(if members == [] then NewRow(e) else RowOf(members), e)
  {
    assert (members + [e])[..|members|] == members;
  }

  lemma KeysGrow(entries: seq<Entry>, e: Entry)
    ensures KeysOf(entries + [e]) == KeysOf(entries) + {RowKeyOf(e)}
  {
    assert (entries + [e])[|entries|] == e && forall i :: 0 <= i < |entries| ==> (entries + [e])[i] == entries[i];
  }

  lemma {:induction false} MembersOfOthers(entries: seq<Entry>, key: RowKey)
    ensures key in KeysOf(entries) <==> Members(entries, key) != []
  {
    if entries != [] {
      var n := |entries| - 1;
      MembersOfOthers(entries[..n], key);
      KeysGrow(entries[..n], entries[n]);
      assert entries[..n] + [entries[n]] == entries;
    }
  }

  lemma OneEntryMore(entries: seq<Entry>, e: Entry, rows: map<RowKey, Row>)
    requires RowsMatch(entries, rows)
    ensures RowsMatch(entries + [e], AddEntry(rows, e))
  {
    var now := AddEntry(rows, e);
    KeysGrow(entries, e);
    assert now.Keys == rows.Keys + {RowKeyOf(e)};
    forall key | key in now
      ensures IsRowOf(entries + [e], key, now[key])
    {
      MembersGrow(entries, e, key);
      MembersOfOthers(entries, key);
      if key in rows { assert IsRowOf(entries, key, rows[key]); }
      if key == RowKeyOf(e) { RowGrows(Members(entries, key), e); }
    }
  }

  // Days hold these rows, each on its own day and once; their number is the triples'.
  ghost predicate DaysMatch(days: seq<Day>, keys: set<RowKey>) { Placed(days, keys) && RowCount(days) == |keys| }

  lemma DaysGrow(days: seq<Day>, keys: set<RowKey>, key: RowKey)
    requires DaysMatch(days, keys)
    ensures DaysMatch(if key in keys then days else PlacedRow(days, key), keys + {key})
  {
    if key in keys {
      assert keys + {key} == keys;
    } else {
      PlacedRowIsPlaced(days, keys, key);
    }
  }

  lemma TakeOneMore(entries: seq<Entry>, n: nat)
    requires n < |entries|
    ensures entries[..n + 1] == entries[..n] + [entries[n]]
  {
  }

  method CalendarDays(entries: seq<Entry>) returns (days: seq<Day>, rows: map<RowKey, Row>)
    ensures RowsMatch(entries, rows)
    ensures DaysMatch(days, KeysOf(entries))
  {
    days, rows := [], map[];
    ghost var done: seq<Entry> := [];
    for n := 0 to |entries|
      invariant done == entries[..n]
      invariant RowsMatch(done, rows)
      invariant DaysMatch(days, KeysOf(done))
    {
      var e := entries[n];
      TakeOneMore(entries, n);
      OneEntryMore(done, e, rows);
      DaysGrow(days, KeysOf(done), RowKeyOf(e));
      KeysGrow(done, e);
      days := if RowKeyOf(e) in rows then days else PlacedRow(days, RowKeyOf(e));
      rows := AddEntry(rows, e);
      done := done + [e];
    }
    assert done == entries;
  }

  // ── which entries are one title, from what they say ────────────────────────

  // A movie by its TMDB id; only where neither has one, by its place at one instance.
  predicate OneMovie(e: Entry, f: Entry) {
    if e.tmdbId.Some? || f.tmdbId.Some? then e.tmdbId == f.tmdbId else e.instance == f.instance && e.arrId == f.arrId
  }

  // An episode known across instances: by its series' TVDB, else TMDB, id and its numbers.
  predicate Shared(e: Entry) { (e.tvdbId.Some? || e.tmdbId.Some?) && e.season.Some? && e.number.Some? }

  function OwnNumber(e: Entry): int {
    match e.episodeId
    case Some(id) => id
    case None => e.arrId
  }

  // An episode by its series and numbers where both are known so; else only within an
  // instance, by its own number there, its series' where it has none.
  predicate OneEpisode(e: Entry, f: Entry) {
    if Shared(e) || Shared(f) then
      && Shared(e) && Shared(f) && e.season == f.season && e.number == f.number
      && e.tvdbId == f.tvdbId && (e.tvdbId.None? ==> e.tmdbId == f.tmdbId)
    else e.instance == f.instance && OwnNumber(e) == OwnNumber(f)
  }

  predicate OneTitle(e: Entry, f: Entry) {
    e.service == f.service && if e.service.Radarr? then OneMovie(e, f) else OneEpisode(e, f)
  }

  lemma KeysAreTitles(e: Entry, f: Entry)
    ensures RowKeyOf(e) == RowKeyOf(f) <==> OneTitle(e, f) && e.day == f.day
  {
  }

  lemma {:induction false} MembersMean(entries: seq<Entry>, key: RowKey, e: Entry)
    ensures e in Members(entries, key) <==> e in entries && RowKeyOf(e) == key
  {
    if entries != [] {
      var n := |entries| - 1;
      MembersMean(entries[..n], key, e);
      assert entries == entries[..n] + [entries[n]];
    }
  }

  lemma {:induction false} CellMembersMean(members: seq<Entry>, key: CellKey, e: Entry)
    ensures e in CellMembers(members, key) <==> e in members && CellKeyOf(e) == key
  {
    if members != [] {
      var n := |members| - 1;
      CellMembersMean(members[..n], key, e);
      assert members == members[..n] + [members[n]];
    }
  }

  // Both entries went into the row.
  ghost predicate InRow(entries: seq<Entry>, rows: map<RowKey, Row>, key: RowKey, e: Entry, f: Entry) {
    key in rows && e in Members(entries, key) && f in Members(entries, key)
  }

  // In what the fold answers, two entries are in one row exactly when they are of one
  // service, one title and one day; a row stands for some entry.
  lemma RowsAreTitles(entries: seq<Entry>, rows: map<RowKey, Row>, e: Entry, f: Entry)
    requires RowsMatch(entries, rows) && e in entries && f in entries
    ensures (exists key :: InRow(entries, rows, key, e, f)) <==> OneTitle(e, f) && e.day == f.day
    ensures forall key :: key in rows ==> rows[key] == RowOf(Members(entries, key)) && Members(entries, key) != []
  {
    KeysAreTitles(e, f);
    forall key
      ensures e in Members(entries, key) <==> RowKeyOf(e) == key
      ensures f in Members(entries, key) <==> RowKeyOf(f) == key
    {
      MembersMean(entries, key, e);
      MembersMean(entries, key, f);
    }
    var i :| 0 <= i < |entries| && entries[i] == e;
    assert RowKeyOf(e) in rows.Keys;
    assert RowKeyOf(e) == RowKeyOf(f) ==> InRow(entries, rows, RowKeyOf(e), e, f);
    forall key | key in rows
      ensures rows[key] == RowOf(Members(entries, key)) && Members(entries, key) != []
    {
      assert IsRowOf(entries, key, rows[key]);
    }
  }

  ghost predicate InCell(members: seq<Entry>, cells: seq<Cell>, i: int, e: Entry, f: Entry) {
    0 <= i < |cells| && e in CellMembers(members, cells[i].key) && f in CellMembers(members, cells[i].key)
  }

  // In a row, two entries are in one cell exactly when they are one instance's, of one of
  // its titles and one of its episodes: what one search there acts on.
  lemma CellsAreSearches(members: seq<Entry>, e: Entry, f: Entry)
    requires members != [] && e in members && f in members
    ensures (exists i :: InCell(members, RowOf(members).cells, i, e, f)) <==>
      e.service == f.service && e.instance == f.instance && e.arrId == f.arrId && e.episodeId == f.episodeId
  {
    RowCells(members);
    var cells := RowOf(members).cells;
    forall key
      ensures e in CellMembers(members, key) <==> CellKeyOf(e) == key
      ensures f in CellMembers(members, key) <==> CellKeyOf(f) == key
    {
      CellMembersMean(members, key, e);
      CellMembersMean(members, key, f);
    }
    var i := CellIndex(cells, CellKeyOf(e));
    assert e in CellMembers(members, CellKeyOf(e));
    assert i < |cells| && cells[i].key == CellKeyOf(e);
    assert CellKeyOf(e) == CellKeyOf(f) ==> InCell(members, cells, i, e, f);
  }

  // ── what a cell shows ──────────────────────────────────────────────────────

  // A cell made of just its own entries.
  function CellOf(members: seq<Entry>): Cell
    requires members != []
  {
    if |members| == 1 then NewCell(members[0]) else JoinCell(CellOf(members[..|members| - 1]), members[|members| - 1])
  }

  lemma CellMembersGrow(members: seq<Entry>, e: Entry, key: CellKey)
    ensures CellMembers(members + [e], key) == if CellKeyOf(e) == key then CellMembers(members, key) + [e]
      else CellMembers(members, key)
  {
    assert (members + [e])[..|members|] == members;
  }

  lemma CellGrows(members: seq<Entry>, e: Entry)
    ensures CellOf(members + [e]) == if members == [] then NewCell(e) else JoinCell(CellOf(members), e)
  {
    assert (members + [e])[..|members|] == members;
  }

  // The list of cells is right for these entries: one cell for each key among them.
  ghost predicate CellsMatch(members: seq<Entry>, cells: seq<Cell>) {
    && (forall i, j :: 0 <= i < j < |cells| ==> cells[i].key != cells[j].key)
    && (forall key :: CellIndex(cells, key) < |cells| <==> CellMembers(members, key) != [])
    && (forall i :: 0 <= i < |cells| ==> IsCellOf(members, cells[i]))
  }

  ghost predicate IsCellOf(members: seq<Entry>, cell: Cell) {
    CellMembers(members, cell.key) != [] && cell == CellOf(CellMembers(members, cell.key))
  }

  lemma KeyOfCell(members: seq<Entry>)
    requires members != []
    ensures CellOf(members).key == CellKeyOf(members[0])
  {
    if |members| > 1 { KeyOfCell(members[..|members| - 1]); }
  }

  lemma CellsGrow(members: seq<Entry>, cells: seq<Cell>, e: Entry)
    requires CellsMatch(members, cells)
    ensures CellsMatch(members + [e], AddToCells(cells, e))
  {
    var mine, now := CellKeyOf(e), AddToCells(cells, e);
    var at := CellIndex(cells, mine);
    assert at < |cells| ==> IsCellOf(members, cells[at]);
    forall key
      ensures CellIndex(now, key) < |now| <==> CellMembers(members + [e], key) != []
    {
      CellMembersGrow(members, e, key);
      IndexAfterAdding(cells, e, key);
    }
    forall i | 0 <= i < |now|
      ensures IsCellOf(members + [e], now[i])
    {
      CellMembersGrow(members, e, now[i].key);
      if i != at { assert IsCellOf(members, cells[i]); }
      if i == at { CellGrows(CellMembers(members, mine), e); }
    }
  }

  lemma IndexAfterAdding(cells: seq<Cell>, e: Entry, key: CellKey)
    ensures CellIndex(AddToCells(cells, e), key) < |AddToCells(cells, e)| <==>
      CellIndex(cells, key) < |cells| || key == CellKeyOf(e)
  {
    var now := AddToCells(cells, e);
    var i, j := CellIndex(cells, key), CellIndex(now, key);
    var at := CellIndex(cells, CellKeyOf(e));
    assert i < |cells| ==> now[i].key == key;
    assert now[at].key == CellKeyOf(e);
    assert j < |now| && j < |cells| ==> cells[j].key == now[j].key;
  }

  lemma {:induction false} RowCells(members: seq<Entry>)
    requires members != []
    ensures CellsMatch(members, RowOf(members).cells)
  {
    var n := |members| - 1;
    var e := members[n];
    assert members == members[..n] + [e];
    if n > 0 {
      RowCells(members[..n]);
      CellsGrow(members[..n], RowOf(members[..n]).cells, e);
    } else {
      assert members[..n] == [];
      CellsGrow([], [], e);
    }
  }

  ghost predicate Best(members: seq<Entry>, i: int) {
    0 <= i < |members| && forall j :: 0 <= j < |members| ==> Rank(members[i].status) <= Rank(members[j].status)
  }

  ghost predicate FirstBest(members: seq<Entry>, i: int) {
    Best(members, i) && forall j :: 0 <= j < i ==> Rank(members[i].status) < Rank(members[j].status)
  }

  ghost predicate AnyAttention(members: seq<Entry>) { exists i :: 0 <= i < |members| && members[i].attention }

  // What an admin can act on first comes first.
  const ACT_ON_FIRST: seq<Status> :=
    [Missing, Downloading, Airing, Downloaded, Upcoming, Released, Aired, Unmonitored]

  ghost predicate HasStatus(members: seq<Entry>, status: Status) {
    exists i :: 0 <= i < |members| && members[i].status == status
  }

  lemma RankIsPlace(status: Status)
    ensures Rank(status) < |ACT_ON_FIRST| && ACT_ON_FIRST[Rank(status)] == status
    ensures forall k :: 0 <= k < |ACT_ON_FIRST| ==> Rank(ACT_ON_FIRST[k]) == k
  {
  }

  // The status a cell shows is the first on that list that any of its entries has.
  lemma CellShowsTheFirst(members: seq<Entry>) returns (k: nat)
    requires members != []
    ensures k < |ACT_ON_FIRST| && CellOf(members).status == ACT_ON_FIRST[k] && HasStatus(members, ACT_ON_FIRST[k])
    ensures forall j :: 0 <= j < k ==> !HasStatus(members, ACT_ON_FIRST[j])
  {
    var i := CellMeans(members);
    k := Rank(members[i].status);
    RankIsPlace(members[i].status);
    assert forall m :: 0 <= m < |members| ==> k <= Rank(members[m].status);
  }

  // A cell shows the best-ranked of its entries, the first of them, with its progress, and
  // flags attention when any of them does.
  lemma {:induction false} CellMeans(members: seq<Entry>) returns (i: int)
    requires members != []
    ensures FirstBest(members, i) && CellOf(members).status == members[i].status
      && CellOf(members).progress == members[i].progress
    ensures CellOf(members).attention <==> AnyAttention(members)
  {
    var n := |members| - 1;
    i := 0;
    if n > 0 {
      i := CellMeans(members[..n]);
      assert forall j :: 0 <= j < n ==> members[..n][j] == members[j];
      if Rank(members[n].status) < Rank(members[i].status) { i := n; }
      AttentionGrows(members);
    }
  }

  lemma AttentionGrows(members: seq<Entry>)
    requires members != []
    ensures AnyAttention(members) <==> AnyAttention(members[..|members| - 1]) || members[|members| - 1].attention
  {
    assert members == members[..|members| - 1] + [members[|members| - 1]];
  }

  ghost predicate HasKind(members: seq<Entry>, kind: Kind) { exists i :: 0 <= i < |members| && members[i].kind == kind }

  lemma KindsGrow(members: seq<Entry>, kind: Kind)
    requires members != []
    ensures HasKind(members, kind) <==> HasKind(members[..|members| - 1], kind) || members[|members| - 1].kind == kind
  {
    assert members == members[..|members| - 1] + [members[|members| - 1]];
  }

  // What the first entry that knows it says.
  ghost predicate FirstKnown<T>(said: seq<Option<T>>, value: Option<T>) {
    && (value.Some? <==> exists i :: 0 <= i < |said| && said[i].Some?)
    && (value.Some? ==> exists i :: 0 <= i < |said| && said[i] == value && forall j :: 0 <= j < i ==> said[j].None?)
  }

  function TmdbIds(members: seq<Entry>): (r: seq<Option<int>>)
    ensures |r| == |members| && forall i :: 0 <= i < |r| ==> r[i] == members[i].tmdbId
  {
    seq(|members|, i requires 0 <= i < |members| => members[i].tmdbId)
  }

  function Posters(members: seq<Entry>): (r: seq<Option<string>>)
    ensures |r| == |members| && forall i :: 0 <= i < |r| ==> r[i] == members[i].poster
  {
    seq(|members|, i requires 0 <= i < |members| => members[i].poster)
  }

  lemma KnownGrows<T>(said: seq<Option<T>>, value: Option<T>, next: Option<T>)
    requires FirstKnown(said, value)
    ensures FirstKnown(said + [next], Or(value, next))
  {
    var now := said + [next];
    assert now[|said|] == next && forall i :: 0 <= i < |said| ==> now[i] == said[i];
    if value.Some? {
      var i :| 0 <= i < |said| && said[i] == value && forall j :: 0 <= j < i ==> said[j].None?;
      assert now[i] == value;
    }
  }

  lemma {:induction false} RowTmdbId(members: seq<Entry>)
    requires members != []
    ensures FirstKnown(TmdbIds(members), RowOf(members).tmdbId)
  {
    var n := |members| - 1;
    if n == 0 {
      assert TmdbIds(members)[0] == members[0].tmdbId;
    } else {
      RowTmdbId(members[..n]);
      KnownGrows(TmdbIds(members[..n]), RowOf(members[..n]).tmdbId, members[n].tmdbId);
      assert TmdbIds(members) == TmdbIds(members[..n]) + [members[n].tmdbId];
    }
  }

  lemma {:induction false} RowPoster(members: seq<Entry>)
    requires members != []
    ensures FirstKnown(Posters(members), RowOf(members).poster)
  {
    var n := |members| - 1;
    if n == 0 {
      assert Posters(members)[0] == members[0].poster;
    } else {
      RowPoster(members[..n]);
      KnownGrows(Posters(members[..n]), RowOf(members[..n]).poster, members[n].poster);
      assert Posters(members) == Posters(members[..n]) + [members[n].poster];
    }
  }

  // A row takes its TMDB id and its poster from the first entry that has one.
  lemma RowIsFilledIn(members: seq<Entry>)
    requires members != []
    ensures FirstKnown(TmdbIds(members), RowOf(members).tmdbId) && FirstKnown(Posters(members), RowOf(members).poster)
  {
    RowTmdbId(members);
    RowPoster(members);
  }

  // A row stands at its earliest entry and lists the kinds among its entries.
  lemma {:induction false} RowMeans(members: seq<Entry>)
    requires members != []
    ensures forall i :: 0 <= i < |members| ==> RowOf(members).ms <= members[i].ms
    ensures exists i :: 0 <= i < |members| && RowOf(members).ms == members[i].ms
    ensures forall kind :: kind in RowOf(members).kinds <==> HasKind(members, kind)
    ensures forall i, j :: 0 <= i < j < |RowOf(members).kinds| ==> RowOf(members).kinds[i] != RowOf(members).kinds[j]
  {
    var n := |members| - 1;
    forall kind
      ensures HasKind(members, kind) <==> HasKind(members[..n], kind) || members[n].kind == kind
    {
      KindsGrow(members, kind);
    }
    if n > 0 {
      RowMeans(members[..n]);
      assert forall j :: 0 <= j < n ==> members[..n][j] == members[j];
    }
  }

  // ── entry order ────────────────────────────────────────────────────────────

  lemma {:induction false} MembersCount(entries: seq<Entry>, key: RowKey, e: Entry)
    ensures multiset(Members(entries, key))[e] == if RowKeyOf(e) == key then multiset(entries)[e] else 0
  {
    if entries != [] {
      var n := |entries| - 1;
      MembersCount(entries[..n], key, e);
      MembersGrow(entries[..n], entries[n], key);
      assert entries == entries[..n] + [entries[n]];
    }
  }

  lemma {:induction false} CellMembersCount(entries: seq<Entry>, key: CellKey, e: Entry)
    ensures multiset(CellMembers(entries, key))[e] == if CellKeyOf(e) == key then multiset(entries)[e] else 0
  {
    if entries != [] {
      var n := |entries| - 1;
      CellMembersCount(entries[..n], key, e);
      CellMembersGrow(entries[..n], entries[n], key);
      assert entries == entries[..n] + [entries[n]];
    }
  }

  ghost predicate SameRecords(a: seq<Entry>, b: seq<Entry>) { forall e :: e in a <==> e in b }

  lemma ReorderedMembers(a: seq<Entry>, b: seq<Entry>, key: RowKey)
    requires multiset(a) == multiset(b)
    ensures multiset(Members(a, key)) == multiset(Members(b, key))
  {
    forall e
      ensures multiset(Members(a, key))[e] == multiset(Members(b, key))[e]
    {
      MembersCount(a, key, e);
      MembersCount(b, key, e);
    }
  }

  lemma ReorderedCellMembers(a: seq<Entry>, b: seq<Entry>, key: CellKey)
    requires multiset(a) == multiset(b)
    ensures multiset(CellMembers(a, key)) == multiset(CellMembers(b, key))
  {
    forall e
      ensures multiset(CellMembers(a, key))[e] == multiset(CellMembers(b, key))[e]
    {
      CellMembersCount(a, key, e);
      CellMembersCount(b, key, e);
    }
  }

  lemma ReorderedSame(a: seq<Entry>, b: seq<Entry>)
    requires multiset(a) == multiset(b)
    ensures SameRecords(a, b) && |a| == |b|
  {
    assert forall e :: e in a <==> e in multiset(a);
    assert forall e :: e in b <==> e in multiset(b);
    assert |multiset(a)| == |a| && |multiset(b)| == |b|;
  }

  lemma RankTellsStatus(a: Status, b: Status)
    requires Rank(a) == Rank(b)
    ensures a == b
  {
  }

  // Reordering a cell's entries changes neither its status nor its flag.
  lemma CellOrderDoesNotMatter(a: seq<Entry>, b: seq<Entry>)
    requires a != [] && b != [] && SameRecords(a, b)
    ensures CellOf(a).status == CellOf(b).status && CellOf(a).attention == CellOf(b).attention
  {
    var i := CellMeans(a);
    var j := CellMeans(b);
    assert a[i] in b && b[j] in a;
    RankTellsStatus(a[i].status, b[j].status);
    if AnyAttention(a) { AttentionIsShared(a, b); }
    if AnyAttention(b) { AttentionIsShared(b, a); }
  }

  lemma AttentionIsShared(a: seq<Entry>, b: seq<Entry>)
    requires SameRecords(a, b) && AnyAttention(a)
    ensures AnyAttention(b)
  {
    var i :| 0 <= i < |a| && a[i].attention;
    assert a[i] in b;
  }

  lemma SameRowKeys(a: seq<Entry>, b: seq<Entry>)
    requires SameRecords(a, b)
    ensures KeysOf(a) <= KeysOf(b)
  {
    forall i | 0 <= i < |a|
      ensures RowKeyOf(a[i]) in KeysOf(b)
    {
      assert a[i] in b;
      var j :| 0 <= j < |b| && b[j] == a[i];
    }
  }

  lemma RowOrderDoesNotMatter(a: seq<Entry>, b: seq<Entry>)
    requires a != [] && b != [] && SameRecords(a, b)
    ensures RowOf(a).ms == RowOf(b).ms && forall kind :: kind in RowOf(a).kinds <==> kind in RowOf(b).kinds
  {
    RowMeans(a);
    RowMeans(b);
    var i :| 0 <= i < |a| && RowOf(a).ms == a[i].ms;
    var j :| 0 <= j < |b| && RowOf(b).ms == b[j].ms;
    assert a[i] in b && b[j] in a;
    forall kind
      ensures HasKind(a, kind) <==> HasKind(b, kind)
    {
      if HasKind(a, kind) { var k :| 0 <= k < |a| && a[k].kind == kind; assert a[k] in b; }
      if HasKind(b, kind) { var k :| 0 <= k < |b| && b[k].kind == kind; assert b[k] in a; }
    }
  }

  // The same entries in any order make the same rows on the same days, each with the same
  // kinds, the same instant and the same cells, in status and in flag.
  lemma OrderDoesNotMatter(a: seq<Entry>, b: seq<Entry>, key: RowKey, cell: CellKey)
    requires multiset(a) == multiset(b)
    ensures KeysOf(a) == KeysOf(b)
    ensures key in KeysOf(a) ==> Members(a, key) != [] && Members(b, key) != []
    ensures key in KeysOf(a) ==> RowOf(Members(a, key)).ms == RowOf(Members(b, key)).ms
    ensures key in KeysOf(a) ==> forall kind :: kind in RowOf(Members(a, key)).kinds <==>
      kind in RowOf(Members(b, key)).kinds
    ensures key in KeysOf(a) ==> SameCell(RowOf(Members(a, key)).cells, RowOf(Members(b, key)).cells, cell)
  {
    ReorderedSame(a, b);
    SameRowKeys(a, b);
    SameRowKeys(b, a);
    MembersOfOthers(a, key);
    MembersOfOthers(b, key);
    if key in KeysOf(a) {
      ReorderedMembers(a, b, key);
      ReorderedSame(Members(a, key), Members(b, key));
      RowOrderDoesNotMatter(Members(a, key), Members(b, key));
      CellsOrderDoesNotMatter(Members(a, key), Members(b, key), cell);
    }
  }

  // Both rows have the cell, with one status and flag, or neither has it.
  predicate SameCell(a: seq<Cell>, b: seq<Cell>, key: CellKey) {
    var i, j := CellIndex(a, key), CellIndex(b, key);
    (i < |a| <==> j < |b|) && (i < |a| && j < |b| ==> a[i].status == b[j].status && a[i].attention == b[j].attention)
  }

  lemma CellsOrderDoesNotMatter(a: seq<Entry>, b: seq<Entry>, key: CellKey)
    requires a != [] && b != [] && multiset(a) == multiset(b)
    ensures SameCell(RowOf(a).cells, RowOf(b).cells, key)
  {
    RowCells(a);
    RowCells(b);
    ReorderedCellMembers(a, b, key);
    ReorderedSame(CellMembers(a, key), CellMembers(b, key));
    var i, j := CellIndex(RowOf(a).cells, key), CellIndex(RowOf(b).cells, key);
    if i < |RowOf(a).cells| {
      assert IsCellOf(a, RowOf(a).cells[i]) && IsCellOf(b, RowOf(b).cells[j]);
      CellOrderDoesNotMatter(CellMembers(a, key), CellMembers(b, key));
    }
  }

  // ── progress ───────────────────────────────────────────────────────────────

  ghost predicate BestEntry(members: seq<Entry>, e: Entry) {
    e in members && forall x :: x in members ==> Rank(e.status) <= Rank(x.status)
  }

  ghost predicate SharedProgress(members: seq<Entry>) {
    forall x, y :: BestEntry(members, x) && BestEntry(members, y) ==> x.progress == y.progress
  }

  ghost predicate ProgressIsOrderFree(members: seq<Entry>) {
    forall a, b :: multiset(a) == multiset(members) && multiset(b) == multiset(members) && a != [] && b != [] ==>
      CellOf(a).progress == CellOf(b).progress
  }

  lemma ProgressIsABest(a: seq<Entry>, members: seq<Entry>) returns (e: Entry)
    requires a != [] && multiset(a) == multiset(members)
    ensures BestEntry(members, e) && CellOf(a).progress == e.progress
  {
    ReorderedSame(a, members);
    var i := CellMeans(a);
    e := a[i];
    assert e in members;
  }

  lemma MovedToFront(members: seq<Entry>, i: nat) returns (a: seq<Entry>)
    requires i < |members|
    ensures a != [] && a[0] == members[i] && multiset(a) == multiset(members)
  {
    a := [members[i]] + (members[..i] + members[i + 1..]);
    assert members == members[..i] + ([members[i]] + members[i + 1..]);
  }

  lemma BestFirst(members: seq<Entry>, e: Entry) returns (a: seq<Entry>)
    requires BestEntry(members, e)
    ensures a != [] && multiset(a) == multiset(members) && CellOf(a).progress == e.progress
  {
    var i :| 0 <= i < |members| && members[i] == e;
    a := MovedToFront(members, i);
    ReorderedSame(a, members);
    var k := CellMeans(a);
    assert a[k] in members;
    assert k == 0;
  }

  // Exactly when the order of a cell's entries does not show in its progress: its
  // best-ranked entries all have the same.
  lemma ProgressExactly(members: seq<Entry>)
    requires members != []
    ensures ProgressIsOrderFree(members) <==> SharedProgress(members)
  {
    if SharedProgress(members) {
      forall a, b | multiset(a) == multiset(members) && multiset(b) == multiset(members) && a != [] && b != []
        ensures CellOf(a).progress == CellOf(b).progress
      {
        var x := ProgressIsABest(a, members);
        var y := ProgressIsABest(b, members);
      }
    }
    if ProgressIsOrderFree(members) {
      forall x, y | BestEntry(members, x) && BestEntry(members, y)
        ensures x.progress == y.progress
      {
        var a := BestFirst(members, x);
        var b := BestFirst(members, y);
      }
    }
  }

  // Two downloads of one cell at different points: the first met is the one shown.
  lemma ProgressCanDependOnOrder(e: Entry)
    requires e.status.Downloading?
    ensures var x, y := e.(progress := Some(0.25)), e.(progress := Some(0.75));
      CellOf([x, y]).progress == Some(0.25) && CellOf([y, x]).progress == Some(0.75) && CellKeyOf(x) == CellKeyOf(y)
  {
    var x, y := e.(progress := Some(0.25)), e.(progress := Some(0.75));
    assert [x, y][..1] == [x] && [y, x][..1] == [y];
  }
}
