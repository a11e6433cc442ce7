// What is asked of the arrs for a viewer's days, and what lands on them (src/lib/arr-calendar.ts, lines 85-202).
module CalendarWindow {
  const HOUR_MS := 60 * 60_000
  const DAY_MS := 24 * HOUR_MS
  const SONARR_SLACK_MS := 14 * HOUR_MS

  // A viewer's zone: where the local day that bears a UTC date begins. Local days follow
  // one another, and the widest offsets are 12 hours behind UTC and 14 ahead.
  ghost predicate Zone(dayStart: int -> int) {
    && (forall d :: d * DAY_MS - 14 * HOUR_MS <= dayStart(d) <= d * DAY_MS + 12 * HOUR_MS)
    && (forall c, d :: c < d ==> dayStart(c) < dayStart(d))
  }

  datatype Service = Radarr | Sonarr

  datatype Window = Window(from: int, to: int)

  function CalendarFetchWindow(service: Service, start: int, end: int): Window {
    var pad := if service.Sonarr? then SONARR_SLACK_MS else DAY_MS;
    Window(start - pad, end + pad)
  }

  predicate Within(w: Window, ms: int) { w.from <= ms < w.to }

  datatype Kind = EpisodeAirs | Cinema | Physical | Digital

  // The UTC date an instant falls on.
  function UtcDate(ms: int): int { ms / DAY_MS }

  // An episode is placed at its instant; a movie's date on that same date locally.
  function EntryMs(dayStart: int -> int, kind: Kind, ms: int): int {
    if kind.EpisodeAirs? then ms else dayStart(UtcDate(ms))
  }

  // ── the padding loses nothing, and no less would do ────────────────────────

  // Asked with these pads, no movie date that lands on the viewer's own days is missed,
  // whatever the zone and the days, and whatever the time of day the date carries.
  ghost predicate PadsSuffice(before: int, after: int) {
    forall dayStart, first, last, ms :: Zone(dayStart) ==> !MissedBy(dayStart, first, last, ms, before, after)
  }

  ghost predicate MissedBy(dayStart: int -> int, first: int, last: int, ms: int, before: int, after: int) {
    && dayStart(first) <= dayStart(UtcDate(ms)) < dayStart(last)
    && !Within(Window(dayStart(first) - before, dayStart(last) + after), ms)
  }

  lemma DateIsAroundItsInstant(ms: int)
    ensures UtcDate(ms) * DAY_MS <= ms < (UtcDate(ms) + 1) * DAY_MS
  {
  }

  lemma MovieDatesAreFetched(dayStart: int -> int, first: int, last: int, ms: int, before: int, after: int)
    requires Zone(dayStart) && before >= 12 * HOUR_MS && after >= 14 * HOUR_MS
    requires dayStart(first) <= dayStart(UtcDate(ms)) < dayStart(last)
    ensures Within(Window(dayStart(first) - before, dayStart(last) + after), ms)
  {
    var d := UtcDate(ms);
    DateIsAroundItsInstant(ms);
    SameOrder(dayStart, last, d);
    assert d + 1 < last ==> dayStart(d + 1) < dayStart(last);
    assert dayStart(d + 1) >= (d + 1) * DAY_MS - 14 * HOUR_MS;
  }

  // Furthest west, a day begins 12 hours after the UTC date; furthest east, 14 hours before.
  function West(d: int): int { d * DAY_MS + 12 * HOUR_MS }

  function East(d: int): int { d * DAY_MS - 14 * HOUR_MS }

  lemma LessBeforeMisses(before: int, after: int)
    requires before < 12 * HOUR_MS
    ensures Zone(West) && MissedBy(West, 0, 1, 0, before, after)
  {
    assert UtcDate(0) == 0;
  }

  lemma LessAfterMisses(before: int, after: int)
    requires after < 14 * HOUR_MS
    ensures Zone(East) && MissedBy(East, 0, 1, DAY_MS - 1, before, after)
  {
    assert UtcDate(DAY_MS - 1) == 0;
  }

  // Exactly the pads that lose nothing in any zone: 12 hours before and 14 after.
  lemma PadsExactly(before: int, after: int)
    ensures PadsSuffice(before, after) <==> before >= 12 * HOUR_MS && after >= 14 * HOUR_MS
  {
    if before < 12 * HOUR_MS {
      LessBeforeMisses(before, after);
    } else if after < 14 * HOUR_MS {
      LessAfterMisses(before, after);
    } else {
      forall dayStart, first, last, ms | Zone(dayStart)
        ensures !MissedBy(dayStart, first, last, ms, before, after)
      {
        if dayStart(first) <= dayStart(UtcDate(ms)) < dayStart(last) {
          MovieDatesAreFetched(dayStart, first, last, ms, before, after);
        }
      }
    }
  }

  // Sonarr may read the query's instants as its host's local time, off by the host's
  // offset: the viewer's episodes are all asked for exactly up to the slack.
  lemma SonarrMisreadingExactly(off: int)
    ensures (forall start, end, ms :: AskedAnyway(start, end, off, ms)) <==> -SONARR_SLACK_MS <= off <= SONARR_SLACK_MS
  {
    assert off > SONARR_SLACK_MS ==> !AskedAnyway(0, 1, off, 0);
    assert off < -SONARR_SLACK_MS ==> !AskedAnyway(0, 1, off, 0);
  }

  ghost predicate AskedAnyway(start: int, end: int, off: int, ms: int) {
    start <= ms < end ==>
      var w := CalendarFetchWindow(Sonarr, start, end);
      Within(Window(w.from + off, w.to + off), ms)
  }

  // So an episode is shown exactly when it airs on the viewer's days, and then, whatever
  // the host's offset up to those 14 hours, it was asked for.
  lemma EpisodesShownExactly(dayStart: int -> int, first: int, last: int, off: int, ms: int)
    requires -14 * HOUR_MS <= off <= 14 * HOUR_MS
    ensures var w := CalendarFetchWindow(Sonarr, dayStart(first), dayStart(last));
      (Within(Window(w.from + off, w.to + off), ms)
        && dayStart(first) <= EntryMs(dayStart, EpisodeAirs, ms) < dayStart(last))
      <==> dayStart(first) <= ms < dayStart(last)
  {
  }

  // Radarr is asked for a day more on either side, the end not included.
  lemma AskedADayEitherSide(start: int, end: int, ms: int)
    ensures Within(CalendarFetchWindow(Radarr, start, end), ms) <==> start - 86_400_000 <= ms < end + 86_400_000
  {
  }

  // ── the arr-side filter, with its caps ─────────────────────────────────────

  const MAX_ENTRIES := 10_000
  const SCAN_FACTOR := 10

  // A movie's release dates in the order they are read; unreadable ones are absent.
  datatype Dated = Dated(movie: int, kind: Kind, ms: int)

  type Movie = seq<Dated>

  function AllDates(movies: seq<Movie>): seq<Dated> {
    if movies == [] then [] else AllDates(movies[..|movies| - 1]) + movies[|movies| - 1]
  }

  function Kept(dates: seq<Dated>, w: Window): seq<Dated> {
    if dates == [] then []
    else
      var before, d := Kept(dates[..|dates| - 1], w), dates[|dates| - 1];
      if Within(w, d.ms) then before + [d] else before
  }

  function Min(a: nat, b: nat): nat { if a < b then a else b }

  function FirstOf(dates: seq<Dated>, n: nat): seq<Dated> { dates[..Min(n, |dates|)] }

  lemma {:induction false} KeptSum(a: seq<Dated>, b: seq<Dated>, w: Window)
    ensures Kept(a + b, w) == Kept(a, w) + Kept(b, w)
  {
    if b == [] {
      assert a + b == a;
    } else {
      var n := |b| - 1;
      KeptSum(a, b[..n], w);
      assert (a + b)[..|a| + n] == a + b[..n] && (a + b)[|a| + n] == b[n];
    }
  }

  // The dates inside the window of at most the first 100,000 movies, at most the first
  // 10,000 of them.
  method RadarrCalendarEntries(movies: seq<Movie>, w: Window) returns (out: seq<Dated>)
    ensures out == FirstOf(Kept(AllDates(movies[..Min(|movies|, 100_000)]), w), 10_000)
  {
    out := [];
    var n := Min(|movies|, MAX_ENTRIES * SCAN_FACTOR);
    var i := 0;
    while i < n && |out| < MAX_ENTRIES
      invariant i <= n && out == FirstOf(Kept(AllDates(movies[..i]), w), MAX_ENTRIES)
    {
      out := AddDates(out, Kept(AllDates(movies[..i]), w), movies[i], w);
      assert movies[..i + 1][..i] == movies[..i];
      KeptSum(AllDates(movies[..i]), movies[i], w);
      i := i + 1;
    }
    if i < n { MoreKeeps(movies, i, n, w); }
  }

  method AddDates(kept: seq<Dated>, ghost all: seq<Dated>, movie: Movie, w: Window) returns (out: seq<Dated>)
    requires kept == FirstOf(all, MAX_ENTRIES)
    ensures out == FirstOf(all + Kept(movie, w), MAX_ENTRIES)
  {
    out := kept;
    assert movie[..0] == [] && all + [] == all;
    for j := 0 to |movie|
      invariant out == FirstOf(all + Kept(movie[..j], w), MAX_ENTRIES)
    {
      if |out| >= MAX_ENTRIES {
        KeptSum(movie[..j], movie[j..], w);
        assert movie[..j] + movie[j..] == movie;
        assert all + Kept(movie, w) == all + Kept(movie[..j], w) + Kept(movie[j..], w);
        return;
      }
      assert movie[..j + 1][..j] == movie[..j];
      if Within(w, movie[j].ms) {
        assert all + Kept(movie[..j + 1], w) == all + Kept(movie[..j], w) + [movie[j]];
        out := out + [movie[j]];
      }
    }
    assert movie[..|movie|] == movie;
  }

  lemma {:induction false} MoreKeeps(movies: seq<Movie>, i: nat, n: nat, w: Window)
    requires i <= n <= |movies| && |Kept(AllDates(movies[..i]), w)| >= MAX_ENTRIES
    ensures FirstOf(Kept(AllDates(movies[..n]), w), MAX_ENTRIES) == FirstOf(Kept(AllDates(movies[..i]), w), MAX_ENTRIES)
    ensures |Kept(AllDates(movies[..n]), w)| >= MAX_ENTRIES
  {
    if i < n {
      MoreKeeps(movies, i, n - 1, w);
      assert movies[..n][..n - 1] == movies[..n - 1];
      KeptSum(AllDates(movies[..n - 1]), movies[n - 1], w);
    }
  }

  lemma {:induction false} KeptMeans(dates: seq<Dated>, w: Window, d: Dated)
    ensures d in Kept(dates, w) <==> d in dates && Within(w, d.ms)
  {
    if dates != [] {
      var n := |dates| - 1;
      KeptMeans(dates[..n], w, d);
      assert dates == dates[..n] + [dates[n]];
    }
  }

  // From the viewer's days to the arr and back: within the caps, what the page shows is
  // exactly the movie dates on the viewer's own days.
  lemma ShownExactly(dayStart: int -> int, first: int, last: int, movies: seq<Movie>, d: Dated)
    requires Zone(dayStart) && !d.kind.EpisodeAirs? && |movies| <= MAX_ENTRIES * SCAN_FACTOR
    requires var w := CalendarFetchWindow(Radarr, dayStart(first), dayStart(last));
      |Kept(AllDates(movies), w)| <= MAX_ENTRIES
    ensures var w := CalendarFetchWindow(Radarr, dayStart(first), dayStart(last));
      var answered := FirstOf(Kept(AllDates(movies), w), MAX_ENTRIES);
      (d in answered && dayStart(first) <= EntryMs(dayStart, d.kind, d.ms) < dayStart(last)) <==>
      (d in AllDates(movies) && first <= UtcDate(d.ms) < last)
  {
    var w := CalendarFetchWindow(Radarr, dayStart(first), dayStart(last));
    KeptMeans(AllDates(movies), w, d);
    assert FirstOf(Kept(AllDates(movies), w), MAX_ENTRIES) == Kept(AllDates(movies), w);
    SameOrder(dayStart, first, UtcDate(d.ms));
    SameOrder(dayStart, last, UtcDate(d.ms));
    if first <= UtcDate(d.ms) < last { MovieDatesAreFetched(dayStart, first, last, d.ms, DAY_MS, DAY_MS); }
  }

  lemma SameOrder(dayStart: int -> int, c: int, d: int)
    requires Zone(dayStart)
    ensures c <= d <==> dayStart(c) <= dayStart(d)
  {
    assert c < d ==> dayStart(c) < dayStart(d);
    assert d < c ==> dayStart(d) < dayStart(c);
  }
}
