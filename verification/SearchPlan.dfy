// What a series search asks Sonarr for (src/lib/arr-missing.ts, lines 248-303).
module SearchPlan {
  import opened Options

  type Positive = x: int | x > 0 witness 1

  // An episode row as read: `None` where a field is absent or not the number it should be.
  datatype Episode = Episode(id: Option<Positive>, season: Option<Positive>, number: Option<nat>, aired: Option<int>,
                             monitored: bool, hasFile: bool)

  // Regular season, numbered, aired, monitored, no file.
  predicate IsMissing(e: Episode, now: int) {
    && e.season.Some? && e.number.Some? && e.aired.Some? && e.aired.value <= now
    && e.monitored && !e.hasFile
  }

  // Missing in this season, with an id to search by.
  predicate Searchable(e: Episode, season: Positive, now: int) {
    IsMissing(e, now) && e.season == Some(season) && e.id.Some?
  }

  function MissingIn(rows: seq<Episode>, season: Positive, now: int): seq<Positive> {
    if rows == [] then []
    else
      var before, e := MissingIn(rows[..|rows| - 1], season, now), rows[|rows| - 1];
      if Searchable(e, season, now) then before + [e.id.value] else before
  }

  predicate HasFile(rows: seq<Episode>, season: Positive) {
    exists i :: 0 <= i < |rows| && rows[i].season == Some(season) && rows[i].hasFile
  }

  // A season is searched whole when two or more of it are missing and none of it is on disk.
  predicate SearchedWhole(rows: seq<Episode>, season: Positive, now: int) {
    |MissingIn(rows, season, now)| > 1 && !HasFile(rows, season)
  }

  ghost predicate Ascending(seasons: seq<Positive>) {
    forall i, j :: 0 <= i < j < |seasons| ==> seasons[i] < seasons[j]
  }

  function InsertSeason(sorted: seq<Positive>, season: Positive): seq<Positive> {
    if sorted == [] || sorted[|sorted| - 1] <= season then sorted + [season]
    else InsertSeason(sorted[..|sorted| - 1], season) + [sorted[|sorted| - 1]]
  }

  lemma {:induction false} InsertMeans(sorted: seq<Positive>, season: Positive)
    requires Ascending(sorted) && season !in sorted
    ensures Ascending(InsertSeason(sorted, season))
    ensures forall s: Positive :: s in InsertSeason(sorted, season) <==> s == season || s in sorted
  {
    if sorted != [] && sorted[|sorted| - 1] > season {
      var rest, last := sorted[..|sorted| - 1], sorted[|sorted| - 1];
      assert sorted == rest + [last];
      InsertMeans(rest, season);
      var r := InsertSeason(rest, season);
      forall i | 0 <= i < |r|
        ensures r[i] < last
      {
        assert r[i] in r;
      }
    }
  }

  method SortSeasons(keys: seq<Positive>) returns (sorted: seq<Positive>)
    requires forall i, j :: 0 <= i < j < |keys| ==> keys[i] != keys[j]
    ensures Ascending(sorted) && forall s: Positive :: s in sorted <==> s in keys
  {
    sorted := [];
    for n := 0 to |keys|
      invariant Ascending(sorted) && forall s: Positive :: s in sorted <==> s in keys[..n]
    {
      assert keys[..n + 1] == keys[..n] + [keys[n]];
      InsertMeans(sorted, keys[n]);
      sorted := InsertSeason(sorted, keys[n]);
    }
    assert keys[..|keys|] == keys;
  }

  datatype Plan = Plan(seasons: seq<Positive>, episodeIds: seq<Positive>)

  // The plan for these seasons, taken in order.
  function PlanFor(rows: seq<Episode>, seasons: seq<Positive>, now: int): Plan {
    if seasons == [] then Plan([], [])
    else
      var before, s := PlanFor(rows, seasons[..|seasons| - 1], now), seasons[|seasons| - 1];
      if SearchedWhole(rows, s, now) then before.(seasons := before.seasons + [s])
      else before.(episodeIds := before.episodeIds + MissingIn(rows, s, now))
  }

  // Every season with something to search, in ascending order.
  ghost predicate AllSeasons(rows: seq<Episode>, seasons: seq<Positive>, now: int) {
    Ascending(seasons) && forall s: Positive :: s in seasons <==> MissingIn(rows, s, now) != []
  }

  ghost predicate Gathered(rows: seq<Episode>, now: int, missing: map<Positive, seq<Positive>>,
      withFile: set<Positive>, order: seq<Positive>) {
    && (forall s: Positive :: s in withFile <==> HasFile(rows, s))
    && (forall s: Positive :: s in missing <==> MissingIn(rows, s, now) != [])
    && (forall s: Positive :: s in missing ==> missing[s] == MissingIn(rows, s, now))
    && (forall s: Positive :: s in missing <==> s in order)
    && (forall i, j :: 0 <= i < j < |order| ==> order[i] != order[j])
  }

  lemma FilesGrow(rows: seq<Episode>, e: Episode, season: Positive)
    ensures HasFile(rows + [e], season) <==> HasFile(rows, season) || (e.season == Some(season) && e.hasFile)
  {
    if HasFile(rows, season) {
      var i :| 0 <= i < |rows| && rows[i].season == Some(season) && rows[i].hasFile;
      assert (rows + [e])[i] == rows[i];
    }
    assert (rows + [e])[|rows|] == e;
  }

  lemma MissingGrows(rows: seq<Episode>, e: Episode, season: Positive, now: int)
    ensures MissingIn(rows + [e], season, now) ==
      if Searchable(e, season, now) then MissingIn(rows, season, now) + [e.id.value] else MissingIn(rows, season, now)
  {
    assert (rows + [e])[..|rows|] == rows;
  }

  method Gather(rows: seq<Episode>, now: int)
    returns (missing: map<Positive, seq<Positive>>, withFile: set<Positive>, order: seq<Positive>)
    ensures Gathered(rows, now, missing, withFile, order)
  {
    missing, withFile, order := map[], {}, [];
    ghost var done: seq<Episode> := [];
    for n := 0 to |rows|
      invariant done == rows[..n] && Gathered(done, now, missing, withFile, order)
    {
      var e := rows[n];
      forall s: Positive
        ensures HasFile(done + [e], s) <==> HasFile(done, s) || (e.season == Some(s) && e.hasFile)
      {
        FilesGrow(done, e, s);
      }
      forall s: Positive
        ensures MissingIn(done + [e], s, now) == if Searchable(e, s, now) then MissingIn(done, s, now) + [e.id.value]
          else MissingIn(done, s, now)
      {
        MissingGrows(done, e, s, now);
      }
      if e.season.Some? && e.hasFile { withFile := withFile + {e.season.value}; }
      if IsMissing(e, now) && e.id.Some? {
        var s := e.season.value;
        if s in missing {
          missing := missing[s := missing[s] + [e.id.value]];
        } else {
          missing := missing[s := [e.id.value]];
          order := order + [s];
        }
      }
      done := done + [e];
    }
    assert done == rows;
  }

  ghost predicate IsPlan(rows: seq<Episode>, seasons: seq<Positive>, now: int, plan: Plan) {
    AllSeasons(rows, seasons, now) && plan == PlanFor(rows, seasons, now)
  }

  method PlanSeriesSearch(rows: seq<Episode>, now: int) returns (plan: Plan)
    ensures exists seasons :: IsPlan(rows, seasons, now, plan)
  {
    var missing, withFile, order := Gather(rows, now);
    var sorted := SortSeasons(order);
    plan := Plan([], []);
    for n := 0 to |sorted|
      invariant plan == PlanFor(rows, sorted[..n], now)
    {
      assert sorted[..n + 1][..n] == sorted[..n] && sorted[n] in sorted;
      var ids := missing[sorted[n]];
      if |ids| > 1 && sorted[n] !in withFile {
        plan := plan.(seasons := plan.seasons + [sorted[n]]);
      } else {
        plan := plan.(episodeIds := plan.episodeIds + ids);
      }
    }
    assert sorted[..|sorted|] == sorted;
    assert IsPlan(rows, sorted, now, plan);
  }

  // ── what the plan asks for ─────────────────────────────────────────────────

  ghost predicate MissingAt(rows: seq<Episode>, i: int, season: Positive, now: int, id: Positive) {
    0 <= i < |rows| && Searchable(rows[i], season, now) && rows[i].id == Some(id)
  }

  lemma {:induction false} MissingMeans(rows: seq<Episode>, season: Positive, now: int, id: Positive)
    ensures id in MissingIn(rows, season, now) <==> exists i :: MissingAt(rows, i, season, now, id)
  {
    if rows != [] {
      var n := |rows| - 1;
      MissingMeans(rows[..n], season, now, id);
      if MissingAt(rows, n, season, now, id) { assert id in MissingIn(rows, season, now); }
      if i :| MissingAt(rows[..n], i, season, now, id) { assert MissingAt(rows, i, season, now, id); }
      if i :| MissingAt(rows, i, season, now, id) { assert i < n ==> MissingAt(rows[..n], i, season, now, id); }
    }
  }

  ghost predicate OneByOne(rows: seq<Episode>, seasons: seq<Positive>, now: int, id: Positive) {
    exists s :: s in seasons && !SearchedWhole(rows, s, now) && id in MissingIn(rows, s, now)
  }

  lemma {:induction false} PlanMeans(rows: seq<Episode>, seasons: seq<Positive>, now: int)
    requires Ascending(seasons)
    ensures Ascending(PlanFor(rows, seasons, now).seasons)
    ensures forall s: Positive :: s in PlanFor(rows, seasons, now).seasons <==>
      s in seasons && SearchedWhole(rows, s, now)
    ensures forall id: Positive :: id in PlanFor(rows, seasons, now).episodeIds <==> OneByOne(rows, seasons, now, id)
  {
    if seasons != [] {
      var rest, s := seasons[..|seasons| - 1], seasons[|seasons| - 1];
      PlanMeans(rows, rest, now);
      assert seasons == rest + [s];
      var before := PlanFor(rows, rest, now);
      forall i | 0 <= i < |before.seasons|
        ensures before.seasons[i] < s
      {
        assert before.seasons[i] in rest;
      }
      forall id: Positive
        ensures OneByOne(rows, seasons, now, id) <==>
          OneByOne(rows, rest, now, id) || (!SearchedWhole(rows, s, now) && id in MissingIn(rows, s, now))
      {
      }
    }
  }

  ghost predicate DistinctIds(rows: seq<Episode>) {
    forall i, j :: 0 <= i < j < |rows| && rows[i].id.Some? ==> rows[i].id != rows[j].id
  }

  // Each missing episode with an id is asked for exactly one way: its season is searched
  // whole, or it is listed by its id.
  lemma EachMissingOneWay(rows: seq<Episode>, now: int, plan: Plan, seasons: seq<Positive>, i: nat)
    requires DistinctIds(rows) && IsPlan(rows, seasons, now, plan)
    requires i < |rows| && IsMissing(rows[i], now) && rows[i].id.Some?
    ensures rows[i].season.value in plan.seasons <==> rows[i].id.value !in plan.episodeIds
  {
    var s, id := rows[i].season.value, rows[i].id.value;
    PlanMeans(rows, seasons, now);
    assert MissingAt(rows, i, s, now, id);
    MissingMeans(rows, s, now, id);
    if OneByOne(rows, seasons, now, id) {
      var t :| t in seasons && !SearchedWhole(rows, t, now) && id in MissingIn(rows, t, now);
      MissingMeans(rows, t, now, id);
      var j :| MissingAt(rows, j, t, now, id);
      assert j == i;
    }
  }

  // Nothing else is asked for: a planned season has two missing episodes and no file
  // anywhere in it, and a listed id is a missing episode's.
  lemma NothingElseIsAsked(rows: seq<Episode>, now: int, plan: Plan, seasons: seq<Positive>, s: Positive, id: Positive)
    requires IsPlan(rows, seasons, now, plan)
    ensures Ascending(plan.seasons)
    ensures s in plan.seasons ==>
      exists i, j :: 0 <= i < j < |rows| && Searchable(rows[i], s, now) && Searchable(rows[j], s, now)
    ensures s in plan.seasons ==> forall i :: 0 <= i < |rows| && rows[i].season == Some(s) ==> !rows[i].hasFile
    ensures id in plan.episodeIds ==> exists i, t :: MissingAt(rows, i, t, now, id) && t !in plan.seasons
  {
    PlanMeans(rows, seasons, now);
    if s in plan.seasons { var i, j := TwoMissing(rows, s, now); }
    if id in plan.episodeIds {
      var t :| t in seasons && !SearchedWhole(rows, t, now) && id in MissingIn(rows, t, now);
      MissingMeans(rows, t, now, id);
      var i :| MissingAt(rows, i, t, now, id);
    }
  }

  // A missing episode of this season with an id, said of the row alone.
  predicate IsSearched(e: Episode, season: int, now: int) {
    && e.id.Some? && e.season.Some? && e.season.value == season && e.number.Some?
    && e.aired.Some? && e.aired.value <= now && e.monitored && !e.hasFile
  }

  predicate IsListed(rows: seq<Episode>, now: int, plan: Plan, i: int, season: Positive, id: Positive) {
    0 <= i < |rows| && rows[i].id == Some(id) && IsSearched(rows[i], season, now) && season !in plan.seasons
  }

  // Exactly what is asked for: a season whole when two missing episodes of it, or more,
  // can be searched and no file of it is on disk; and one by one the ids of the missing
  // episodes of the other seasons.
  lemma AskedExactly(rows: seq<Episode>, now: int, plan: Plan, seasons: seq<Positive>, s: Positive, id: Positive)
    requires IsPlan(rows, seasons, now, plan)
    ensures s in plan.seasons <==>
      && (exists i, j :: 0 <= i < j < |rows| && IsSearched(rows[i], s, now) && IsSearched(rows[j], s, now))
      && (forall i :: 0 <= i < |rows| && rows[i].season == Some(s) ==> !rows[i].hasFile)
    ensures id in plan.episodeIds <==>
      exists i, t: Positive :: IsListed(rows, now, plan, i, t, id)
  {
    PlanMeans(rows, seasons, now);
    NothingElseIsAsked(rows, now, plan, seasons, s, id);
    if i, j :| 0 <= i < j < |rows| && IsSearched(rows[i], s, now) && IsSearched(rows[j], s, now) {
      TwoAreMissing(rows, s, now, i, j);
    }
    if i, t: Positive :| IsListed(rows, now, plan, i, t, id) {
      assert MissingAt(rows, i, t, now, id);
      MissingMeans(rows, t, now, id);
      assert OneByOne(rows, seasons, now, id);
    }
    if id in plan.episodeIds {
      var i: int, t: Positive :| MissingAt(rows, i, t, now, id) && t !in plan.seasons;
      assert IsListed(rows, now, plan, i, t, id);
    }
  }

  lemma {:induction false} TwoAreMissing(rows: seq<Episode>, s: Positive, now: int, i: nat, j: nat)
    requires i < j < |rows| && Searchable(rows[i], s, now) && Searchable(rows[j], s, now)
    ensures |MissingIn(rows, s, now)| > 1
  {
    var n := |rows| - 1;
    if j < n {
      TwoAreMissing(rows[..n], s, now, i, j);
    } else {
      assert MissingAt(rows[..n], i, s, now, rows[i].id.value);
      MissingMeans(rows[..n], s, now, rows[i].id.value);
    }
  }

  lemma {:induction false} TwoMissing(rows: seq<Episode>, s: Positive, now: int) returns (i: nat, j: nat)
    requires |MissingIn(rows, s, now)| > 1
    ensures i < j < |rows| && Searchable(rows[i], s, now) && Searchable(rows[j], s, now)
  {
    var n := |rows| - 1;
    if Searchable(rows[n], s, now) {
      var id := MissingIn(rows[..n], s, now)[0];
      MissingMeans(rows[..n], s, now, id);
      i :| MissingAt(rows[..n], i, s, now, id);
      j := n;
    } else {
      i, j := TwoMissing(rows[..n], s, now);
    }
  }

  ghost predicate NoRepeats(ids: seq<Positive>) { forall i, j :: 0 <= i < j < |ids| ==> ids[i] != ids[j] }

  lemma {:induction false} MissingOnce(rows: seq<Episode>, s: Positive, now: int)
    requires DistinctIds(rows)
    ensures NoRepeats(MissingIn(rows, s, now))
  {
    if rows != [] {
      var n := |rows| - 1;
      MissingOnce(rows[..n], s, now);
      if Searchable(rows[n], s, now) {
        var before := MissingIn(rows[..n], s, now);
        forall i | 0 <= i < |before|
          ensures before[i] != rows[n].id.value
        {
          MissingMeans(rows[..n], s, now, before[i]);
          var k :| MissingAt(rows[..n], k, s, now, before[i]);
        }
      }
    }
  }

  // Both are missing episodes' ids: the first in an earlier season, or in an earlier row of
  // the same one.
  ghost predicate ComesBefore(rows: seq<Episode>, now: int, a: Positive, b: Positive) {
    exists i, j, s: Positive, t: Positive :: StandsBefore(rows, now, a, b, i, j, s, t)
  }

  ghost predicate StandsBefore(rows: seq<Episode>, now: int, a: Positive, b: Positive, i: int, j: int,
                               s: Positive, t: Positive) {
    MissingAt(rows, i, s, now, a) && MissingAt(rows, j, t, now, b) && (s < t || (s == t && i < j))
  }

  lemma {:induction false} MissingInOrder(rows: seq<Episode>, s: Positive, now: int, p: nat, q: nat)
    returns (i: int, j: int)
    requires p < q < |MissingIn(rows, s, now)|
    ensures i < j && MissingAt(rows, i, s, now, MissingIn(rows, s, now)[p])
    ensures MissingAt(rows, j, s, now, MissingIn(rows, s, now)[q])
  {
    var n := |rows| - 1;
    var before := MissingIn(rows[..n], s, now);
    if q < |before| {
      i, j := MissingInOrder(rows[..n], s, now, p, q);
    } else {
      j := n;
      MissingMeans(rows[..n], s, now, before[p]);
      i :| MissingAt(rows[..n], i, s, now, before[p]);
    }
  }

  // The ids are listed season by season, and within one as its rows come.
  lemma {:induction false} ListedInOrder(rows: seq<Episode>, seasons: seq<Positive>, now: int, p: nat, q: nat)
    requires Ascending(seasons) && p < q < |PlanFor(rows, seasons, now).episodeIds|
    ensures ComesBefore(rows, now, PlanFor(rows, seasons, now).episodeIds[p], PlanFor(rows, seasons, now).episodeIds[q])
  {
    var rest, s := seasons[..|seasons| - 1], seasons[|seasons| - 1];
    var ids, before, mine := PlanFor(rows, seasons, now).episodeIds, PlanFor(rows, rest, now).episodeIds,
      MissingIn(rows, s, now);
    if q < |before| {
      ListedInOrder(rows, rest, now, p, q);
    } else if p < |before| {
      PlanMeans(rows, rest, now);
      assert ids[p] in before;
      var t :| t in rest && !SearchedWhole(rows, t, now) && ids[p] in MissingIn(rows, t, now);
      MissingMeans(rows, t, now, ids[p]);
      MissingMeans(rows, s, now, ids[q]);
      var i, j :| MissingAt(rows, i, t, now, ids[p]) && MissingAt(rows, j, s, now, ids[q]);
      assert StandsBefore(rows, now, ids[p], ids[q], i, j, t, s);
    } else {
      var i, j := MissingInOrder(rows, s, now, p - |before|, q - |before|);
      assert StandsBefore(rows, now, ids[p], ids[q], i, j, s, s);
    }
  }

  // No id is listed twice.
  lemma {:induction false} ListedOnce(rows: seq<Episode>, seasons: seq<Positive>, now: int)
    requires DistinctIds(rows) && Ascending(seasons)
    ensures NoRepeats(PlanFor(rows, seasons, now).episodeIds)
  {
    if seasons != [] {
      var rest, s := seasons[..|seasons| - 1], seasons[|seasons| - 1];
      ListedOnce(rows, rest, now);
      PlanMeans(rows, rest, now);
      MissingOnce(rows, s, now);
      var before, mine := PlanFor(rows, rest, now).episodeIds, MissingIn(rows, s, now);
      forall i, j | 0 <= i < |before| && 0 <= j < |mine|
        ensures before[i] != mine[j]
      {
        var id := before[i];
        assert id in before;
        var t :| t in rest && !SearchedWhole(rows, t, now) && id in MissingIn(rows, t, now);
        MissingMeans(rows, t, now, id);
        MissingMeans(rows, s, now, mine[j]);
        var p :| MissingAt(rows, p, t, now, id);
        var q :| MissingAt(rows, q, s, now, mine[j]);
      }
    }
  }

  // Sonarr's ids are its own; were a row repeated, one missing episode would count twice
  // and its season be searched whole.
  lemma ARepeatedRowPlansItsSeason(e: Episode, season: Positive, now: int)
    requires Searchable(e, season, now)
    ensures SearchedWhole([e, e], season, now) && !SearchedWhole([e], season, now)
  {
    assert [e, e] == [e] + [e] && [e] == [] + [e];
    MissingGrows([e], e, season, now);
    MissingGrows([], e, season, now);
  }
}
