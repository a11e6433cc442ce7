// Concurrent "mark failed" requests against one arr (src/lib/arr-title-data.ts, lines 522-617).
module MarkFailed {
  import opened Options

  const MARK_CLAIM_TTL_MS: nat := 600_000
  const MARK_UNKNOWN_HOLD_MS: nat := 90_000

  datatype Service = Radarr | Sonarr

  datatype Kind = Grabbed | Failed | OtherKind

  // One history record. `title` is the title whose history the arr lists it in;
  // `arrMediaId` is what the record itself says, which old builds leave out.
  datatype Rec = Rec(
    id: nat, kind: Kind, downloadId: Option<string>, title: nat,
    arrMediaId: Option<nat>, sourceTitle: string, episodeId: Option<nat>)

  // What a claim is taken on: a download, or a grab that has no download id.
  datatype Key = Download(id: string) | Single(recordId: nat)

  function KeyOf(r: Rec): Key {
    if r.downloadId.Some? then Download(r.downloadId.value) else Single(r.id)
  }

  // Two records are claimed as one exactly when they are one download's, or one record
  // that has no download id.
  lemma KeysAreDownloads(a: Rec, b: Rec)
    ensures KeyOf(a) == KeyOf(b) <==>
      if a.downloadId.Some? || b.downloadId.Some? then a.downloadId == b.downloadId else a.id == b.id
  {
  }

  predicate FailsIdlessGrab(service: Service, grab: Rec, e: Rec) {
    && e.kind == Failed && e.id > grab.id && e.downloadId.None? && grab.downloadId.None?
    && grab.arrMediaId.Some? && e.arrMediaId == grab.arrMediaId && e.sourceTitle == grab.sourceTitle
    && (service == Radarr || (grab.episodeId.Some? && e.episodeId == grab.episodeId))
  }

  predicate FailedSince(service: Service, grab: Rec, e: Rec) {
    if grab.downloadId.Some? then
      e.kind == Failed && e.id > grab.id && e.downloadId == grab.downloadId
    else
      FailsIdlessGrab(service, grab, e)
  }

  // Whether the failure the arr writes for this grab can be told to be its own.
  predicate Identifiable(service: Service, grab: Rec) {
    grab.downloadId.Some? || (grab.arrMediaId.Some? && (service == Radarr || grab.episodeId.Some?))
  }

  predicate AlreadyFailed(service: Service, grab: Rec, history: seq<Rec>) {
    history != [] && (FailedSince(service, grab, history[0]) || AlreadyFailed(service, grab, history[1..]))
  }

  lemma {:induction false} AlreadyFailedMeans(service: Service, grab: Rec, history: seq<Rec>)
    ensures AlreadyFailed(service, grab, history) <==> exists e :: e in history && FailedSince(service, grab, e)
    ensures AlreadyFailed(service, grab, history) <==> exists e :: e in history && IsItsFailure(service, grab, e)
  {
    if history != [] {
      AlreadyFailedMeans(service, grab, history[1..]);
      assert history == [history[0]] + history[1..];
    }
  }

  // A newer failure of the grab's download; or, of a grab with no download id, one with
  // none either, of the same release, title and, on Sonarr, episode.
  predicate IsItsFailure(service: Service, grab: Rec, e: Rec) {
    && e.kind == Failed && e.id > grab.id && e.downloadId == grab.downloadId
    && (grab.downloadId.None? ==>
         && e.sourceTitle == grab.sourceTitle && grab.arrMediaId.Some? && e.arrMediaId == grab.arrMediaId
         && (service == Sonarr ==> grab.episodeId.Some? && e.episodeId == grab.episodeId))
  }

  function MaxId(history: seq<Rec>): nat {
    if history == [] then 0
    else
      var rest := MaxId(history[1..]);
      if history[0].id > rest then history[0].id else rest
  }

  lemma {:induction false} MaxIdIsMost(history: seq<Rec>)
    ensures forall e :: e in history ==> e.id <= MaxId(history)
  {
    if history != [] {
      MaxIdIsMost(history[1..]);
      assert history == [history[0]] + history[1..];
    }
  }

  // The records the arr lists for one title.
  function ViewOf(history: seq<Rec>, title: nat): seq<Rec> {
    if history == [] then []
    else if history[0].title == title then [history[0]] + ViewOf(history[1..], title)
    else ViewOf(history[1..], title)
  }

  lemma {:induction false} ViewMeans(history: seq<Rec>, title: nat)
    ensures forall e :: e in ViewOf(history, title) <==> e in history && e.title == title
  {
    if history != [] {
      ViewMeans(history[1..], title);
      assert history == [history[0]] + history[1..];
    }
  }

  // ── the claim book ─────────────────────────────────────────────────────────

  // `owner` is the mark that took the claim: the identity of the claim object.
  datatype Claim = Claim(expiresAt: nat, upTo: nat, owner: nat)

  type Claims = map<Key, Claim>

  function Unexpired(claims: Claims, now: nat): Claims {
    map k | k in claims && now < claims[k].expiresAt :: claims[k]
  }

  predicate Blocks(claims: Claims, grab: Rec) {
    KeyOf(grab) in claims && grab.id <= claims[KeyOf(grab)].upTo
  }

  function Claimed(claims: Claims, grab: Rec, history: seq<Rec>, owner: nat, now: nat): Claims {
    claims[KeyOf(grab) := Claim(now + MARK_CLAIM_TTL_MS, MaxId([grab] + history), owner)]
  }

  // What the arr answered to one POST: done, an HTTP status, or nothing at all.
  datatype Answer = Accepted | Status(code: nat) | NoAnswer

  predicate DefinitelyRefused(a: Answer) {
    a.Status? && 400 <= a.code < 500 && a.code != 408
  }

  // The older-build fallbacks: a route that is not there, then a body it can't read.
  predicate TriesNext(attempt: nat, a: Answer) {
    || (attempt == 0 && a.Status? && (a.code == 404 || a.code == 405))
    || (attempt == 1 && a.Status? && (a.code == 400 || a.code == 415))
  }

  function Settled(claims: Claims, key: Key, owner: nat, a: Answer, now: nat): Claims {
    if a.Accepted? || key !in claims || claims[key].owner != owner then claims
    else if DefinitelyRefused(a) then claims - {key}
    else claims[key := claims[key].(expiresAt := Min(claims[key].expiresAt, now + MARK_UNKNOWN_HOLD_MS))]
  }

  function Min(a: nat, b: nat): nat { if a <= b then a else b }

  // Ten minutes from now, up to the newest record of the grab and its title's history.
  predicate IsNewClaim(c: Claim, grab: Rec, history: seq<Rec>, owner: nat, now: nat) {
    && c.owner == owner && c.expiresAt == now + 600_000
    && grab.id <= c.upTo && (forall i :: 0 <= i < |history| ==> history[i].id <= c.upTo)
    && (c.upTo == grab.id || exists i :: 0 <= i < |history| && history[i].id == c.upTo)
  }

  predicate IsShortened(c: Claim, was: Claim, now: nat) {
    && c.owner == was.owner && c.upTo == was.upTo
    && c.expiresAt <= was.expiresAt && c.expiresAt <= now + 90_000
    && (c.expiresAt == was.expiresAt || c.expiresAt == now + 90_000)
  }

  lemma {:induction false} MaxIdIsNewest(history: seq<Rec>)
    requires history != []
    ensures forall i :: 0 <= i < |history| ==> history[i].id <= MaxId(history)
    ensures exists i :: 0 <= i < |history| && history[i].id == MaxId(history)
  {
    MaxIdIsMost(history);
    assert forall i :: 0 <= i < |history| ==> history[i] in history;
    assert |history| == 1 ==> history[1..] == [] && MaxId(history[1..]) == 0;
    if history[0].id != MaxId(history) {
      MaxIdIsNewest(history[1..]);
      var i :| 0 <= i < |history[1..]| && history[1..][i].id == MaxId(history[1..]);
      assert history[i + 1].id == MaxId(history);
    }
  }

  lemma NewClaimIs(grab: Rec, history: seq<Rec>, owner: nat, now: nat)
    ensures IsNewClaim(Claim(now + MARK_CLAIM_TTL_MS, MaxId([grab] + history), owner), grab, history, owner, now)
  {
    var all := [grab] + history;
    MaxIdIsNewest(all);
    assert all[0] == grab && forall i :: 0 <= i < |history| ==> all[i + 1] == history[i];
    var i :| 0 <= i < |all| && all[i].id == MaxId(all);
    assert i > 0 ==> history[i - 1].id == MaxId(all);
  }

  datatype Verdict = Proceed | IsAlreadyFailed | InProgress

  // The process-wide claim map, changed in place.
  class ClaimBook {
    var claims: Claims

    constructor ()
      ensures claims == map[]
    {
      claims := map[];
    }

    // The check and the claim: one synchronous step between two awaits.
    method CheckAndClaim(service: Service, grab: Rec, history: seq<Rec>, owner: nat, now: nat) returns (v: Verdict)
      modifies this
      ensures v.IsAlreadyFailed? <==> AlreadyFailed(service, grab, history)
      ensures v.InProgress? <==> !AlreadyFailed(service, grab, history) && Blocks(Unexpired(old(claims), now), grab)
      ensures claims ==
        match v
        case IsAlreadyFailed => old(claims)
        case InProgress => Unexpired(old(claims), now)
        case Proceed => Claimed(Unexpired(old(claims), now), grab, history, owner, now)
      // Said of the book itself: a live claim that reaches the grab stands in its way; a
      // new one lasts ten minutes and reaches the newest record there is; the rest go
      // exactly when they have run out.
      ensures v.InProgress? <==>
        && !AlreadyFailed(service, grab, history) && KeyOf(grab) in old(claims)
        && now < old(claims)[KeyOf(grab)].expiresAt && grab.id <= old(claims)[KeyOf(grab)].upTo
      ensures v.Proceed? ==> KeyOf(grab) in claims && IsNewClaim(claims[KeyOf(grab)], grab, history, owner, now)
      ensures !v.IsAlreadyFailed? ==> forall k :: k in claims && (k != KeyOf(grab) || v.InProgress?) ==>
        k in old(claims) && claims[k] == old(claims)[k]
      ensures !v.IsAlreadyFailed? ==> forall k :: k in old(claims) && k != KeyOf(grab) ==>
        (k in claims <==> now < old(claims)[k].expiresAt)
    {
      NewClaimIs(grab, history, owner, now);
      for i := 0 to |history|
        invariant forall j :: 0 <= j < i ==> !FailedSince(service, grab, history[j])
        invariant claims == old(claims)
      {
        if FailedSince(service, grab, history[i]) {
          AlreadyFailedMeans(service, grab, history);
          return IsAlreadyFailed;
        }
      }
      AlreadyFailedMeans(service, grab, history);
      var left := claims.Keys;
      while left != {}
        invariant left <= old(claims).Keys
        invariant forall k :: k in claims <==> k in old(claims) && (k in left || now < old(claims)[k].expiresAt)
        invariant forall k :: k in claims ==> claims[k] == old(claims)[k]
        decreases left
      {
        var k :| k in left;
        if claims[k].expiresAt <= now {
          claims := claims - {k};
        }
        left := left - {k};
      }
      assert claims == Unexpired(old(claims), now);
      var key := KeyOf(grab);
      if key in claims && grab.id <= claims[key].upTo {
        return InProgress;
      }
      claims := claims[key := Claim(now + MARK_CLAIM_TTL_MS, MaxId([grab] + history), owner)];
      return Proceed;
    }

    // After the POST threw: hand the claim back, or shorten it, if it is still this mark's.
    method AfterPost(key: Key, owner: nat, a: Answer, now: nat)
      modifies this
      ensures claims == Settled(old(claims), key, owner, a, now)
      // Of its own claim: a 4xx other than 408 hands it back, an acceptance leaves it, and
      // any other failure leaves it at most ninety seconds more.
      ensures key in old(claims) && old(claims)[key].owner == owner ==>
        match a
        case Accepted => key in claims && claims[key] == old(claims)[key]
        case Status(code) =>
          if 400 <= code < 500 && code != 408 then key !in claims
          else key in claims && IsShortened(claims[key], old(claims)[key], now)
        case NoAnswer => key in claims && IsShortened(claims[key], old(claims)[key], now)
      // Nobody else's claim is touched.
      ensures forall k :: k != key || k !in old(claims) || old(claims)[k].owner != owner ==>
        (k in claims <==> k in old(claims)) && (k in claims ==> claims[k] == old(claims)[k])
    {
      if !a.Accepted? {
        if key in claims && claims[key].owner == owner {
          if DefinitelyRefused(a) {
            claims := claims - {key};
          } else {
            claims := claims[key := claims[key].(expiresAt := Min(claims[key].expiresAt, now + MARK_UNKNOWN_HOLD_MS))];
          }
        }
      }
    }
  }

  // ── the protocol ───────────────────────────────────────────────────────────

  // The longest: from a history read to its claim check (lag), a POST with its
  // fallbacks (post), and the arr acting on a POST we gave up on (drift).
  datatype Timing = Timing(service: Service, lag: nat, post: nat, drift: nat)

  predicate InTime(p: Timing) {
    && p.lag + p.drift < MARK_UNKNOWN_HOLD_MS
    && p.lag + p.post + p.drift < MARK_CLAIM_TTL_MS
  }

  datatype Fate = Waiting | AnsweredAt(at: nat) | Refused | GaveUpAt(at: nat)

  datatype Mark =
    | Read(grab: Rec, readAt: nat, history: seq<Rec>)
    | Posted(grab: Rec, claimedAt: nat, attempt: nat, wroteAt: Option<nat>, fate: Fate)
    | TurnedAway(grab: Rec)

  datatype State = State(now: nat, history: seq<Rec>, claims: Claims, marks: map<nat, Mark>)

  datatype Event =
    | Tick(ms: nat)
    | ReadHistory(mark: nat, title: nat, historyId: nat)
    | Check(mark: nat)
    | ArrWrites(mark: nat)
    | AnswerComes(mark: nat, answer: Answer)
    | ArrRecords(record: Rec)

  // The record the arr writes when it takes a mark of `grab`.
  function FailureOf(grab: Rec, id: nat): Rec {
    Rec(id, Failed, grab.downloadId, grab.title, grab.arrMediaId, grab.sourceTitle, grab.episodeId)
  }

  // The last moment the arr may still write for a POST.
  function LastWrite(p: Timing, m: Mark): nat
    requires m.Posted?
  {
    match m.fate
    case Waiting => m.claimedAt + p.post + p.drift
    case AnsweredAt(at) => at
    case Refused => m.claimedAt
    case GaveUpAt(at) => at + p.drift
  }

  function ReadNext(s: State, mark: nat, title: nat, historyId: nat): Option<State> {
    var view := ViewOf(s.history, title);
    if mark in s.marks || !(exists g :: g in view && g.id == historyId && g.kind == Grabbed) then None
    else
      var g := FindGrab(view, historyId);
      Some(s.(marks := s.marks[mark := Read(g, s.now, view)]))
  }

  function FindGrab(view: seq<Rec>, historyId: nat): Rec
    requires exists e :: e in view && e.id == historyId && e.kind == Grabbed
  {
    if view[0].id == historyId && view[0].kind == Grabbed then view[0]
    else
      assert view == [view[0]] + view[1..];
      FindGrab(view[1..], historyId)
  }

  lemma {:induction false} FindGrabMeans(view: seq<Rec>, historyId: nat)
    requires exists e :: e in view && e.id == historyId && e.kind == Grabbed
    ensures var g := FindGrab(view, historyId);
      g in view && g.id == historyId && g.kind == Grabbed
  {
    if !(view[0].id == historyId && view[0].kind == Grabbed) {
      assert view == [view[0]] + view[1..];
      FindGrabMeans(view[1..], historyId);
    }
  }

  // What a history read holds: the title's records, and a grab among them.
  lemma ReadNextMeans(s: State, mark: nat, title: nat, historyId: nat)
    requires ReadNext(s, mark, title, historyId).Some?
    ensures var t := ReadNext(s, mark, title, historyId).value;
      && mark !in s.marks && t == s.(marks := t.marks) && t.marks == s.marks[mark := t.marks[mark]]
      && t.marks[mark] == Read(t.marks[mark].grab, s.now, ViewOf(s.history, title))
      && t.marks[mark].grab in s.history && t.marks[mark].grab.title == title && t.marks[mark].grab.kind == Grabbed
      && t.marks[mark].grab.id == historyId
  {
    ViewMeans(s.history, title);
    FindGrabMeans(ViewOf(s.history, title), historyId);
  }

  function CheckNext(p: Timing, s: State, mark: nat): Option<State> {
    if mark !in s.marks || !s.marks[mark].Read? || s.now > s.marks[mark].readAt + p.lag then None
    else
      var r := s.marks[mark];
      var live := Unexpired(s.claims, s.now);
      if AlreadyFailed(p.service, r.grab, r.history) then
        Some(s.(marks := s.marks[mark := TurnedAway(r.grab)]))
      else if Blocks(live, r.grab) then
        Some(s.(claims := live, marks := s.marks[mark := TurnedAway(r.grab)]))
      else
        Some(s.(claims := Claimed(live, r.grab, r.history, mark, s.now),
                marks := s.marks[mark := Posted(r.grab, s.now, 0, None, Waiting)]))
  }

  function WriteNext(p: Timing, s: State, mark: nat): Option<State> {
    if mark !in s.marks || !s.marks[mark].Posted? then None
    else
      var m := s.marks[mark];
      if m.wroteAt.Some? || !(m.fate.Waiting? || m.fate.GaveUpAt?) || s.now > LastWrite(p, m) then None
      else
        Some(s.(history := s.history + [FailureOf(m.grab, MaxId(s.history) + 1)],
                marks := s.marks[mark := m.(wroteAt := Some(s.now))]))
  }

  // A definite refusal wrote nothing: that is what makes it definite.
  function AnswerNext(p: Timing, s: State, mark: nat, a: Answer): Option<State> {
    if mark !in s.marks || !s.marks[mark].Posted? then None
    else
      var m := s.marks[mark];
      if !m.fate.Waiting? || s.now > m.claimedAt + p.post || (DefinitelyRefused(a) && m.wroteAt.Some?) then None
      else if TriesNext(m.attempt, a) then
        Some(s.(marks := s.marks[mark := m.(attempt := m.attempt + 1)]))
      else
        var fate := if a.Accepted? then AnsweredAt(s.now) else if DefinitelyRefused(a) then Refused
          else GaveUpAt(s.now);
        Some(s.(claims := Settled(s.claims, KeyOf(m.grab), mark, a, s.now),
                marks := s.marks[mark := m.(fate := fate)]))
  }

  function Next(p: Timing, s: State, e: Event): Option<State> {
    match e
    case Tick(ms) => Some(s.(now := s.now + ms))
    case ReadHistory(mark, title, historyId) => ReadNext(s, mark, title, historyId)
    case Check(mark) => CheckNext(p, s, mark)
    case ArrWrites(mark) => WriteNext(p, s, mark)
    case AnswerComes(mark, a) => AnswerNext(p, s, mark, a)
    case ArrRecords(r) => if r.id <= MaxId(s.history) then None else Some(s.(history := s.history + [r]))
  }

  // A run so far: the events in the order they happened.
  datatype Trace = Begin | Then(before: Trace, last: Event)

  function Run(p: Timing, s: State, events: Trace): Option<State> {
    match events
    case Begin => Some(s)
    case Then(before, last) =>
      match Run(p, s, before)
      case None => None
      case Some(t) => Next(p, t, last)
  }

  function Start(history: seq<Rec>): State {
    State(0, history, map[], map[])
  }

  ghost predicate DistinctIds(history: seq<Rec>) {
    forall a, b :: a in history && b in history && a.id == b.id ==> a == b
  }

  // The grab reads as failed where it is listed.
  predicate ReadsFailed(p: Timing, history: seq<Rec>, g: Rec) {
    AlreadyFailed(p.service, g, ViewOf(history, g.title))
  }

  // Every grab of the key still open is one title's, and its failure can be told.
  ghost predicate OneTitleOpen(p: Timing, k: Key, title: nat, history: seq<Rec>) {
    forall g :: g in history && IsGrab(k, g) ==>
      ReadsFailed(p, history, g) || (g.title == title && Identifiable(p.service, g))
  }

  // Nothing in the run grabs the download again.
  predicate NoRegrab(events: Trace, k: Key) {
    events.Then? ==> NoRegrab(events.before, k) && !(events.last.ArrRecords? && IsGrab(k, events.last.record))
  }

  ghost predicate Accepts(s: State, k: Key, mark: nat) {
    mark in s.marks && s.marks[mark].Posted? && KeyOf(s.marks[mark].grab) == k && s.marks[mark].wroteAt.Some?
  }

  ghost predicate AtMostOneAccepted(s: State, k: Key) {
    forall a, b :: Accepts(s, k, a) && Accepts(s, k, b) ==> a == b
  }

  // ── what every step keeps ──────────────────────────────────────────────────

  predicate IsGrab(k: Key, r: Rec) { r.kind == Grabbed && KeyOf(r) == k }

  predicate Reads(k: Key, s: State, m: nat) {
    m in s.marks && s.marks[m].Read? && KeyOf(s.marks[m].grab) == k
  }

  predicate Posts(k: Key, s: State, m: nat) {
    m in s.marks && s.marks[m].Posted? && KeyOf(s.marks[m].grab) == k
  }

  ghost predicate HistoryOk(p: Timing, k: Key, title: nat, history: seq<Rec>) {
    OneTitleOpen(p, k, title, history) && DistinctIds(history)
  }

  predicate MarkOk(p: Timing, s: State, m: Mark) {
    && m.grab in s.history && m.grab.kind == Grabbed
    && (m.Read? ==> m.readAt <= s.now)
    && (m.Posted? ==>
        && m.claimedAt <= s.now
        && (m.fate.Refused? ==> m.wroteAt.None?)
        && ((m.fate.AnsweredAt? || m.fate.GaveUpAt?) ==>
           m.claimedAt <= m.fate.at <= m.claimedAt + p.post && m.fate.at <= s.now)
        && (m.wroteAt.Some? ==> m.wroteAt.value <= LastWrite(p, m) && m.wroteAt.value <= s.now))
  }

  ghost predicate MarksOk(p: Timing, s: State) {
    forall m :: m in s.marks ==> MarkOk(p, s, s.marks[m])
  }

  predicate IsOurs(k: Key, title: nat, r: Rec) { IsGrab(k, r) && r.title == title }

  // A read of the title's grabs of the key holds every such grab.
  ghost predicate ReadsHoldGrabs(k: Key, title: nat, s: State) {
    forall m, g :: Reads(k, s, m) && s.marks[m].grab.title == title && g in s.history && IsOurs(k, title, g) ==>
      g in s.marks[m].history
  }

  // A read of another title's grab of the key read it as failed, and it was never sent.
  ghost predicate OthersAreTurnedAway(p: Timing, k: Key, title: nat, s: State) {
    && (forall m :: ReadsClean(p, k, s, m) ==> s.marks[m].grab.title == title)
    && (forall m :: Posts(k, s, m) ==> s.marks[m].grab.title == title)
  }

  ghost predicate FailureShows(p: Timing, k: Key, title: nat, history: seq<Rec>) {
    forall g :: g in history && IsOurs(k, title, g) ==> ReadsFailed(p, history, g)
  }

  // Once a mark was accepted, every grab of the key reads as failed.
  ghost predicate WritesShow(p: Timing, k: Key, title: nat, s: State) {
    forall m :: Accepts(s, k, m) ==> FailureShows(p, k, title, s.history)
  }

  predicate ReadsClean(p: Timing, k: Key, s: State, m: nat) {
    Reads(k, s, m) && !AlreadyFailed(p.service, s.marks[m].grab, s.marks[m].history)
  }

  // A history read without a failure was read before any mark was accepted.
  ghost predicate CleanReadsAreEarly(p: Timing, k: Key, s: State) {
    forall r, w :: ReadsClean(p, k, s, r) && Accepts(s, k, w)
      ==> s.marks[r].readAt <= s.marks[w].wroteAt.value
  }

  predicate Covered(p: Timing, k: Key, s: State, m: nat)
    requires Posts(k, s, m)
  {
    if k in s.claims && s.claims[k].owner == m then
      && LastWrite(p, s.marks[m]) + p.lag < s.claims[k].expiresAt
      && (s.marks[m].fate.Waiting? ==> s.claims[k].expiresAt == s.marks[m].claimedAt + MARK_CLAIM_TTL_MS)
    else
      LastWrite(p, s.marks[m]) + p.lag < s.now
  }

  // A posted mark still holds its claim, or its last possible write is more than a lag ago.
  ghost predicate ClaimCovers(p: Timing, k: Key, s: State) {
    forall m :: Posts(k, s, m) && !s.marks[m].fate.Refused? ==> Covered(p, k, s, m)
  }

  ghost predicate ClaimReaches(k: Key, title: nat, s: State) {
    k in s.claims ==> forall g :: g in s.history && IsOurs(k, title, g) ==> g.id <= s.claims[k].upTo
  }

  // The mark was accepted, or the arr may still accept it.
  predicate Potent(p: Timing, k: Key, s: State, m: nat) {
    && Posts(k, s, m)
    && (s.marks[m].wroteAt.Some? ||
        ((s.marks[m].fate.Waiting? || s.marks[m].fate.GaveUpAt?) && s.now <= LastWrite(p, s.marks[m])))
  }

  ghost predicate OnePotent(p: Timing, k: Key, s: State) {
    forall a, b :: Potent(p, k, s, a) && Potent(p, k, s, b) ==> a == b
  }

  ghost predicate Inv(p: Timing, k: Key, title: nat, s: State) {
    && HistoryOk(p, k, title, s.history) && MarksOk(p, s) && ReadsHoldGrabs(k, title, s)
       && OthersAreTurnedAway(p, k, title, s)
    && WritesShow(p, k, title, s) && CleanReadsAreEarly(p, k, s)
    && ClaimCovers(p, k, s) && ClaimReaches(k, title, s) && OnePotent(p, k, s)
  }

  // The other marks stand as they were, and so does what is said of each.
  ghost predicate OnlyMoves(s: State, t: State, mark: nat) {
    && (forall m :: m in t.marks && m != mark ==> m in s.marks)
    && (forall m :: m in s.marks && m != mark ==> m in t.marks && t.marks[m] == s.marks[m])
  }

  lemma OthersStand(p: Timing, k: Key, s: State, t: State, mark: nat)
    requires OnlyMoves(s, t, mark)
    ensures forall m :: m != mark ==> (Posts(k, t, m) <==> Posts(k, s, m))
    ensures forall m :: m != mark ==> (Reads(k, t, m) <==> Reads(k, s, m))
    ensures forall m :: m != mark ==> (ReadsClean(p, k, t, m) <==> ReadsClean(p, k, s, m))
    ensures forall m :: m != mark ==> (Accepts(t, k, m) <==> Accepts(s, k, m))
    ensures s.now <= t.now ==> forall m :: m != mark && Potent(p, k, t, m) ==> Potent(p, k, s, m)
  {
  }

  // What is true of each mark alone needs nothing else.
  lemma StepKeepsMarks(p: Timing, s: State, e: Event, t: State)
    requires MarksOk(p, s) && Next(p, s, e) == Some(t)
    ensures MarksOk(p, t)
  {
    assert s.now <= t.now && (forall r :: r in s.history ==> r in t.history);
    if e.ReadHistory? { ReadNextMeans(s, e.mark, e.title, e.historyId); }
    forall m | m in t.marks
      ensures MarkOk(p, t, t.marks[m])
    {
      if m in s.marks {
        assert MarkOk(p, s, s.marks[m]);
        if t.marks[m] != s.marks[m] { MovedMarkOk(p, s, e, t, m); }
      }
    }
  }

  lemma MovedMarkOk(p: Timing, s: State, e: Event, t: State, m: nat)
    requires m in s.marks && MarkOk(p, s, s.marks[m]) && Next(p, s, e) == Some(t) && t.marks[m] != s.marks[m]
    ensures MarkOk(p, t, t.marks[m])
  {
  }

  // A new read of the key without a failure is of the title's, before any acceptance.
  lemma NewReadMeans(p: Timing, k: Key, title: nat, s: State, t: State, mark: nat, of: nat, historyId: nat)
    requires HistoryOk(p, k, title, s.history) && WritesShow(p, k, title, s)
    requires ReadNext(s, mark, of, historyId) == Some(t)
    ensures OnlyMoves(s, t, mark) && mark in t.marks && t.marks[mark].Read? && t.history == s.history
    ensures t.marks[mark].grab.title == of && t.marks[mark].history == ViewOf(s.history, of)
    ensures ReadsClean(p, k, t, mark) ==> of == title && forall w :: !Accepts(s, k, w)
  {
    var r := t.marks[mark];
    ReadNextMeans(s, mark, of, historyId);
    if ReadsClean(p, k, t, mark) {
      assert IsGrab(k, r.grab) && !ReadsFailed(p, s.history, r.grab);
      assert IsOurs(k, title, r.grab);
    }
  }

  lemma ReadStaysClean(p: Timing, k: Key, title: nat, s: State, t: State, mark: nat, of: nat, historyId: nat)
    requires HistoryOk(p, k, title, s.history) && WritesShow(p, k, title, s)
    requires ReadsHoldGrabs(k, title, s) && CleanReadsAreEarly(p, k, s) && OthersAreTurnedAway(p, k, title, s)
    requires ReadNext(s, mark, of, historyId) == Some(t)
    ensures ReadsHoldGrabs(k, title, t) && CleanReadsAreEarly(p, k, t) && OthersAreTurnedAway(p, k, title, t)
  {
    NewReadMeans(p, k, title, s, t, mark, of, historyId);
    OthersStand(p, k, s, t, mark);
    ViewHoldsOurs(k, title, s.history);
  }

  lemma ViewHoldsOurs(k: Key, title: nat, history: seq<Rec>)
    ensures forall g :: g in history && IsOurs(k, title, g) ==> g in ViewOf(history, title)
  {
    ViewMeans(history, title);
  }

  // The posted marks and the claims stand, and no grab has come.
  ghost predicate ClaimsStand(k: Key, s: State, t: State) {
    && t.claims == s.claims && t.now == s.now
    && (forall m :: Posts(k, t, m) ==> Posts(k, s, m) && t.marks[m] == s.marks[m])
    && (forall g :: g in t.history && IsGrab(k, g) ==> g in s.history)
  }

  lemma ClaimsStay(p: Timing, k: Key, title: nat, s: State, t: State)
    requires ClaimsStand(k, s, t) && ClaimCovers(p, k, s) && ClaimReaches(k, title, s) && OnePotent(p, k, s)
    ensures ClaimCovers(p, k, t) && ClaimReaches(k, title, t) && OnePotent(p, k, t)
  {
    assert forall m :: Potent(p, k, t, m) ==> Potent(p, k, s, m);
    forall m | Posts(k, t, m) && !t.marks[m].fate.Refused?
      ensures Covered(p, k, t, m)
    {
      assert Posts(k, s, m) && Covered(p, k, s, m);
    }
  }

  lemma ReadKeeps(p: Timing, k: Key, title: nat, s: State, t: State, mark: nat, of: nat, historyId: nat)
    requires Inv(p, k, title, s) && MarksOk(p, t) && ReadNext(s, mark, of, historyId) == Some(t)
    ensures Inv(p, k, title, t)
  {
    ReadStaysClean(p, k, title, s, t, mark, of, historyId);
    OthersStand(p, k, s, t, mark);
    ClaimsStay(p, k, title, s, t);
    assert forall m :: Accepts(t, k, m) ==> Accepts(s, k, m);
  }

  lemma ClaimFindsNoOther(p: Timing, k: Key, title: nat, s: State, mark: nat)
    requires MarksOk(p, s) && CleanReadsAreEarly(p, k, s) && OthersAreTurnedAway(p, k, title, s)
    requires ClaimCovers(p, k, s) && ClaimReaches(k, title, s)
    requires ReadsClean(p, k, s, mark) && s.now <= s.marks[mark].readAt + p.lag
    requires !Blocks(Unexpired(s.claims, s.now), s.marks[mark].grab)
    ensures forall m :: !Potent(p, k, s, m)
    ensures k !in Unexpired(s.claims, s.now)
  {
    var r := s.marks[mark];
    assert MarkOk(p, s, r) && IsOurs(k, title, r.grab);
    forall m | Potent(p, k, s, m)
      ensures false
    {
      assert MarkOk(p, s, s.marks[m]) && Covered(p, k, s, m);
      if s.marks[m].wroteAt.Some? {
        assert Accepts(s, k, m);
      }
    }
  }

  // A claim dropped as expired was the claim of a mark that can no longer be accepted.
  lemma ExpiryKeepsCover(p: Timing, k: Key, s: State)
    requires ClaimCovers(p, k, s)
    ensures ClaimCovers(p, k, s.(claims := Unexpired(s.claims, s.now)))
  {
    var t := s.(claims := Unexpired(s.claims, s.now));
    forall m | Posts(k, t, m) && !t.marks[m].fate.Refused?
      ensures Covered(p, k, t, m)
    {
      assert Posts(k, s, m) && Covered(p, k, s, m);
    }
  }

  lemma TurnedAwayKeeps(p: Timing, k: Key, title: nat, s: State, t: State, mark: nat)
    requires Inv(p, k, title, s) && MarksOk(p, t) && mark in s.marks && s.marks[mark].Read?
    requires t == s.(marks := s.marks[mark := TurnedAway(s.marks[mark].grab)])
    ensures Inv(p, k, title, t)
  {
    OthersStand(p, k, s, t, mark);
    TurnedAwayLeaves(p, k, s, mark);
    ClaimsStay(p, k, title, s, t);
  }

  lemma TurnedAwayLeaves(p: Timing, k: Key, s: State, mark: nat)
    requires mark in s.marks && s.marks[mark].Read?
    ensures var t := s.(marks := s.marks[mark := TurnedAway(s.marks[mark].grab)]);
      && (forall m :: Accepts(t, k, m) ==> Accepts(s, k, m) && t.marks[m] == s.marks[m])
      && (forall m :: Reads(k, t, m) ==> Reads(k, s, m) && t.marks[m] == s.marks[m])
      && (forall m :: ReadsClean(p, k, t, m) ==> ReadsClean(p, k, s, m))
      && (forall m :: Posts(k, t, m) ==> Posts(k, s, m) && t.marks[m] == s.marks[m])
  {
  }

  lemma ExpiryKeeps(p: Timing, k: Key, title: nat, s: State, t: State)
    requires Inv(p, k, title, s) && t == s.(claims := Unexpired(s.claims, s.now))
    ensures Inv(p, k, title, t)
  {
    ExpiryKeepsCover(p, k, s);
    assert forall m :: Posts(k, t, m) <==> Posts(k, s, m);
    assert forall m :: Reads(k, t, m) <==> Reads(k, s, m);
    assert forall m :: ReadsClean(p, k, t, m) <==> ReadsClean(p, k, s, m);
    assert forall m :: Accepts(t, k, m) <==> Accepts(s, k, m);
    assert forall m :: Potent(p, k, t, m) <==> Potent(p, k, s, m);
  }

  predicate MayClaim(p: Timing, s: State, mark: nat) {
    && mark in s.marks && s.marks[mark].Read? && s.now <= s.marks[mark].readAt + p.lag
    && Unexpired(s.claims, s.now) == s.claims
    && !AlreadyFailed(p.service, s.marks[mark].grab, s.marks[mark].history)
    && !Blocks(s.claims, s.marks[mark].grab)
  }

  function ClaimBy(s: State, mark: nat): State
    requires mark in s.marks && s.marks[mark].Read?
  {
    var r := s.marks[mark];
    s.(claims := Claimed(s.claims, r.grab, r.history, mark, s.now),
       marks := s.marks[mark := Posted(r.grab, s.now, 0, None, Waiting)])
  }

  lemma ClaimKeepsAlone(p: Timing, k: Key, title: nat, s: State, mark: nat)
    requires InTime(p) && MayClaim(p, s, mark) && OthersAreTurnedAway(p, k, title, s)
    requires MarksOk(p, s) && CleanReadsAreEarly(p, k, s) && ClaimCovers(p, k, s) && ClaimReaches(k, title, s)
      && OnePotent(p, k, s)
    ensures OnePotent(p, k, ClaimBy(s, mark)) && ClaimCovers(p, k, ClaimBy(s, mark))
  {
    var r, t := s.marks[mark], ClaimBy(s, mark);
    OthersStand(p, k, s, t, mark);
    if KeyOf(r.grab) == k {
      assert ReadsClean(p, k, s, mark);
      ClaimFindsNoOther(p, k, title, s, mark);
    }
    forall m | Posts(k, t, m) && !t.marks[m].fate.Refused?
      ensures Covered(p, k, t, m)
    {
      if m != mark { assert Covered(p, k, s, m); }
    }
  }

  lemma ClaimKeepsReads(p: Timing, k: Key, title: nat, s: State, mark: nat)
    requires MayClaim(p, s, mark)
    requires ReadsHoldGrabs(k, title, s) && ClaimReaches(k, title, s) && WritesShow(p, k, title, s)
      && CleanReadsAreEarly(p, k, s)
    requires OthersAreTurnedAway(p, k, title, s)
    ensures ReadsHoldGrabs(k, title, ClaimBy(s, mark)) && ClaimReaches(k, title, ClaimBy(s, mark))
    ensures OthersAreTurnedAway(p, k, title, ClaimBy(s, mark))
    ensures WritesShow(p, k, title, ClaimBy(s, mark)) && CleanReadsAreEarly(p, k, ClaimBy(s, mark))
  {
    var r, t := s.marks[mark], ClaimBy(s, mark);
    OthersStand(p, k, s, t, mark);
    if KeyOf(r.grab) == k {
      assert ReadsClean(p, k, s, mark) && Reads(k, s, mark);
      MaxIdIsMost([r.grab] + r.history);
      assert forall g :: g in r.history ==> g in [r.grab] + r.history;
    }
  }

  lemma CheckKeeps(p: Timing, k: Key, title: nat, s: State, t: State, mark: nat)
    requires InTime(p) && Inv(p, k, title, s) && MarksOk(p, t) && CheckNext(p, s, mark) == Some(t)
    ensures Inv(p, k, title, t)
  {
    var r := s.marks[mark];
    var u := s.(claims := Unexpired(s.claims, s.now));
    if AlreadyFailed(p.service, r.grab, r.history) {
      TurnedAwayKeeps(p, k, title, s, t, mark);
    } else {
      ExpiryKeeps(p, k, title, s, u);
      if Blocks(u.claims, r.grab) {
        TurnedAwayKeeps(p, k, title, u, t, mark);
      } else {
        ClaimKeepsAlone(p, k, title, u, mark);
        ClaimKeepsReads(p, k, title, u, mark);
      }
    }
  }

  // A record added at the end hides no failure that showed before.
  lemma MoreHistoryKeepsFailed(p: Timing, history: seq<Rec>, e: Rec, g: Rec)
    requires ReadsFailed(p, history, g)
    ensures ReadsFailed(p, history + [e], g)
  {
    ViewMeans(history, g.title);
    ViewMeans(history + [e], g.title);
    AlreadyFailedMeans(p.service, g, ViewOf(history, g.title));
    AlreadyFailedMeans(p.service, g, ViewOf(history + [e], g.title));
  }

  lemma MoreHistoryKeepsFailures(p: Timing, k: Key, title: nat, history: seq<Rec>, e: Rec)
    requires FailureShows(p, k, title, history) && !IsGrab(k, e)
    ensures FailureShows(p, k, title, history + [e])
  {
    forall g | g in history + [e] && IsOurs(k, title, g)
      ensures ReadsFailed(p, history + [e], g)
    {
      MoreHistoryKeepsFailed(p, history, e, g);
    }
  }

  lemma MoreHistoryIsOk(p: Timing, k: Key, title: nat, history: seq<Rec>, e: Rec)
    requires HistoryOk(p, k, title, history) && !IsGrab(k, e) && MaxId(history) < e.id
    ensures HistoryOk(p, k, title, history + [e])
  {
    MaxIdIsMost(history);
    forall g | g in history + [e] && IsGrab(k, g)
      ensures ReadsFailed(p, history + [e], g) || (g.title == title && Identifiable(p.service, g))
    {
      if ReadsFailed(p, history, g) { MoreHistoryKeepsFailed(p, history, e, g); }
    }
  }

  lemma FailureIsSeen(p: Timing, history: seq<Rec>, e: Rec, g: Rec)
    requires FailedSince(p.service, g, e) && e.title == g.title
    ensures ReadsFailed(p, history + [e], g)
  {
    ViewMeans(history + [e], g.title);
    assert e in ViewOf(history + [e], g.title);
    AlreadyFailedMeans(p.service, g, ViewOf(history + [e], g.title));
  }

  lemma FailsItsKey(p: Timing, k: Key, history: seq<Rec>, grab: Rec, g: Rec)
    requires DistinctIds(history) && grab in history && IsGrab(k, grab) && g in history && IsGrab(k, g)
    requires Identifiable(p.service, g)
    ensures FailedSince(p.service, g, FailureOf(grab, MaxId(history) + 1))
  {
    MaxIdIsMost(history);
    if k.Single? { assert g == grab; }
  }

  // The record the arr writes for a mark fails every grab of its key its title has.
  lemma WriteShows(p: Timing, k: Key, title: nat, history: seq<Rec>, grab: Rec)
    requires HistoryOk(p, k, title, history) && grab in history && IsOurs(k, title, grab)
    ensures FailureShows(p, k, title, history + [FailureOf(grab, MaxId(history) + 1)])
  {
    var e := FailureOf(grab, MaxId(history) + 1);
    forall g | g in history + [e] && IsOurs(k, title, g)
      ensures ReadsFailed(p, history + [e], g)
    {
      assert g in history && IsGrab(k, g);
      if ReadsFailed(p, history, g) {
        MoreHistoryKeepsFailed(p, history, e, g);
      } else {
        FailsItsKey(p, k, history, grab, g);
        FailureIsSeen(p, history, e, g);
      }
    }
  }

  lemma WriteKeepsHistory(p: Timing, k: Key, title: nat, s: State, t: State, mark: nat)
    requires HistoryOk(p, k, title, s.history) && WriteNext(p, s, mark) == Some(t)
    ensures HistoryOk(p, k, title, t.history)
  {
    var e := FailureOf(s.marks[mark].grab, MaxId(s.history) + 1);
    assert t.history == s.history + [e];
    MoreHistoryIsOk(p, k, title, s.history, e);
  }

  lemma AcceptedBefore(p: Timing, k: Key, s: State, t: State, mark: nat, x: nat)
    requires WriteNext(p, s, mark) == Some(t) && Accepts(t, k, x) && KeyOf(s.marks[mark].grab) != k
    ensures Accepts(s, k, x)
  {
  }

  lemma WriteKeepsShown(p: Timing, k: Key, title: nat, s: State, t: State, mark: nat)
    requires HistoryOk(p, k, title, s.history) && MarksOk(p, s) && WritesShow(p, k, title, s)
    requires OthersAreTurnedAway(p, k, title, s) && WriteNext(p, s, mark) == Some(t)
    ensures WritesShow(p, k, title, t)
  {
    var m := s.marks[mark];
    var e := FailureOf(m.grab, MaxId(s.history) + 1);
    assert t.history == s.history + [e];
    if KeyOf(m.grab) == k {
      assert MarkOk(p, s, m) && Posts(k, s, mark);
      WriteShows(p, k, title, s.history, m.grab);
    } else {
      forall x | Accepts(t, k, x)
        ensures FailureShows(p, k, title, t.history)
      {
        AcceptedBefore(p, k, s, t, mark, x);
        MoreHistoryKeepsFailures(p, k, title, s.history, e);
      }
    }
  }

  lemma WriteKeepsReads(p: Timing, k: Key, title: nat, s: State, t: State, mark: nat)
    requires ReadsHoldGrabs(k, title, s) && MarksOk(p, s) && CleanReadsAreEarly(p, k, s)
      && OthersAreTurnedAway(p, k, title, s)
    requires WriteNext(p, s, mark) == Some(t)
    ensures ReadsHoldGrabs(k, title, t) && CleanReadsAreEarly(p, k, t) && OthersAreTurnedAway(p, k, title, t)
  {
    OthersStand(p, k, s, t, mark);
    forall r, w | ReadsClean(p, k, t, r) && Accepts(t, k, w)
      ensures t.marks[r].readAt <= t.marks[w].wroteAt.value
    {
      assert MarkOk(p, s, s.marks[r]);
    }
  }

  lemma WriteKeepsCover(p: Timing, k: Key, s: State, t: State, mark: nat)
    requires ClaimCovers(p, k, s) && WriteNext(p, s, mark) == Some(t)
    ensures ClaimCovers(p, k, t)
  {
    forall m | Posts(k, t, m) && !t.marks[m].fate.Refused?
      ensures Covered(p, k, t, m)
    {
      assert Posts(k, s, m) && Covered(p, k, s, m);
    }
  }

  lemma WriteKeepsClaims(p: Timing, k: Key, title: nat, s: State, t: State, mark: nat)
    requires ClaimReaches(k, title, s) && OnePotent(p, k, s) && WriteNext(p, s, mark) == Some(t)
    ensures ClaimReaches(k, title, t) && OnePotent(p, k, t)
  {
    OthersStand(p, k, s, t, mark);
    assert Potent(p, k, t, mark) ==> Potent(p, k, s, mark);
  }

  lemma WriteKeeps(p: Timing, k: Key, title: nat, s: State, t: State, mark: nat)
    requires Inv(p, k, title, s) && MarksOk(p, t) && WriteNext(p, s, mark) == Some(t)
    ensures Inv(p, k, title, t)
  {
    WriteKeepsHistory(p, k, title, s, t, mark);
    WriteKeepsShown(p, k, title, s, t, mark);
    WriteKeepsReads(p, k, title, s, t, mark);
    WriteKeepsCover(p, k, s, t, mark);
    WriteKeepsClaims(p, k, title, s, t, mark);
  }

  lemma AnswerKeepsCover(p: Timing, k: Key, s: State, t: State, mark: nat, a: Answer)
    requires InTime(p) && MarksOk(p, s) && ClaimCovers(p, k, s) && AnswerNext(p, s, mark, a) == Some(t)
    ensures ClaimCovers(p, k, t)
  {
    forall x | Posts(k, t, x) && !t.marks[x].fate.Refused?
      ensures Covered(p, k, t, x)
    {
      assert Posts(k, s, x) && Covered(p, k, s, x) && MarkOk(p, s, s.marks[x]);
    }
  }

  // An answer makes no mark read, sent or accepted that was not, and none potent.
  lemma AnswerMoves(p: Timing, k: Key, s: State, t: State, mark: nat, a: Answer)
    requires MarksOk(p, s) && AnswerNext(p, s, mark, a) == Some(t)
    ensures t.history == s.history && forall m :: m in s.marks && m != mark ==> m in t.marks && t.marks[m] == s.marks[m]
    ensures forall m :: Reads(k, t, m) <==> Reads(k, s, m)
    ensures forall m :: Posts(k, t, m) ==> Posts(k, s, m) && t.marks[m].grab == s.marks[m].grab
    ensures forall m :: Accepts(t, k, m) ==> Accepts(s, k, m) && t.marks[m].wroteAt == s.marks[m].wroteAt
    ensures forall m :: Potent(p, k, t, m) ==> Potent(p, k, s, m)
  {
    OthersStand(p, k, s, t, mark);
    assert MarkOk(p, s, s.marks[mark]);
    assert Potent(p, k, t, mark) ==> Potent(p, k, s, mark);
  }

  lemma AnswerKeepsReads(p: Timing, k: Key, title: nat, s: State, t: State, mark: nat, a: Answer)
    requires MarksOk(p, s) && ReadsHoldGrabs(k, title, s) && CleanReadsAreEarly(p, k, s) && ClaimReaches(k, title, s)
      && OnePotent(p, k, s)
    requires OthersAreTurnedAway(p, k, title, s) && AnswerNext(p, s, mark, a) == Some(t)
    ensures OthersAreTurnedAway(p, k, title, t)
    ensures ReadsHoldGrabs(k, title, t) && CleanReadsAreEarly(p, k, t) && ClaimReaches(k, title, t)
      && OnePotent(p, k, t)
  {
    AnswerMoves(p, k, s, t, mark, a);
  }

  lemma AnswerKeeps(p: Timing, k: Key, title: nat, s: State, t: State, mark: nat, a: Answer)
    requires InTime(p) && Inv(p, k, title, s) && MarksOk(p, t) && AnswerNext(p, s, mark, a) == Some(t)
    ensures Inv(p, k, title, t)
  {
    AnswerKeepsCover(p, k, s, t, mark, a);
    AnswerKeepsReads(p, k, title, s, t, mark, a);
    assert forall m :: Accepts(t, k, m) <==> Accepts(s, k, m);
  }

  lemma RecordKeepsHistory(p: Timing, k: Key, title: nat, s: State, t: State, r: Rec)
    requires HistoryOk(p, k, title, s.history) && WritesShow(p, k, title, s) && ReadsHoldGrabs(k, title, s)
    requires Next(p, s, ArrRecords(r)) == Some(t) && !IsGrab(k, r)
    ensures HistoryOk(p, k, title, t.history) && WritesShow(p, k, title, t) && ReadsHoldGrabs(k, title, t)
  {
    MoreHistoryIsOk(p, k, title, s.history, r);
    assert forall x :: Accepts(t, k, x) ==> Accepts(s, k, x);
    assert forall x :: Reads(k, t, x) <==> Reads(k, s, x);
    if x :| Accepts(t, k, x) {
      assert Accepts(s, k, x);
      MoreHistoryKeepsFailures(p, k, title, s.history, r);
    }
  }

  lemma RecordKeeps(p: Timing, k: Key, title: nat, s: State, t: State, r: Rec)
    requires Inv(p, k, title, s) && MarksOk(p, t) && Next(p, s, ArrRecords(r)) == Some(t) && !IsGrab(k, r)
    ensures Inv(p, k, title, t)
  {
    RecordKeepsHistory(p, k, title, s, t, r);
    ClaimsStay(p, k, title, s, t);
    assert forall x :: Accepts(t, k, x) <==> Accepts(s, k, x);
    assert forall x :: ReadsClean(p, k, t, x) <==> ReadsClean(p, k, s, x);
  }

  lemma TickKeeps(p: Timing, k: Key, title: nat, s: State, t: State, ms: nat)
    requires Inv(p, k, title, s) && MarksOk(p, t) && t == s.(now := s.now + ms)
    ensures Inv(p, k, title, t)
  {
    TickMoves(p, k, s, ms);
    forall m | Posts(k, t, m) && !t.marks[m].fate.Refused?
      ensures Covered(p, k, t, m)
    {
      assert Posts(k, s, m) && Covered(p, k, s, m);
    }
  }

  lemma TickMoves(p: Timing, k: Key, s: State, ms: nat)
    ensures var t := s.(now := s.now + ms);
      && (forall x :: Posts(k, t, x) <==> Posts(k, s, x)) && (forall x :: Reads(k, t, x) <==> Reads(k, s, x))
      && (forall x :: ReadsClean(p, k, t, x) <==> ReadsClean(p, k, s, x))
         && (forall x :: Accepts(t, k, x) <==> Accepts(s, k, x))
      && (forall x :: Potent(p, k, t, x) ==> Potent(p, k, s, x))
  {
  }

  lemma StepKeeps(p: Timing, k: Key, title: nat, s: State, e: Event, t: State)
    requires InTime(p) && Inv(p, k, title, s) && Next(p, s, e) == Some(t)
    requires e.ArrRecords? ==> !IsGrab(k, e.record)
    ensures Inv(p, k, title, t)
  {
    StepKeepsMarks(p, s, e, t);
    match e
    case Tick(ms) => TickKeeps(p, k, title, s, t, ms);
    case ReadHistory(mark, of, historyId) => ReadKeeps(p, k, title, s, t, mark, of, historyId);
    case Check(mark) => CheckKeeps(p, k, title, s, t, mark);
    case ArrWrites(mark) => WriteKeeps(p, k, title, s, t, mark);
    case AnswerComes(mark, a) => AnswerKeeps(p, k, title, s, t, mark, a);
    case ArrRecords(r) => RecordKeeps(p, k, title, s, t, r);
  }

  lemma {:induction false} RunKeeps(p: Timing, k: Key, title: nat, s: State, events: Trace)
    requires InTime(p) && Inv(p, k, title, s) && NoRegrab(events, k) && Run(p, s, events).Some?
    ensures Inv(p, k, title, Run(p, s, events).value)
  {
    if events.Then? {
      RunKeeps(p, k, title, s, events.before);
      StepKeeps(p, k, title, Run(p, s, events.before).value, events.last, Run(p, s, events).value);
    }
  }

  // Main result: whatever mix of acceptances, refusals and timeouts any number of
  // concurrent marks meet, the arr accepts at most one of them.
  lemma AtMostOneMarkIsAccepted(p: Timing, k: Key, title: nat, history: seq<Rec>, events: Trace)
    requires InTime(p) && DistinctIds(history) && OneTitleOpen(p, k, title, history)
    requires NoRegrab(events, k) && Run(p, Start(history), events).Some?
    ensures AtMostOneAccepted(Run(p, Start(history), events).value, k)
  {
    var s := Start(history);
    assert Inv(p, k, title, s);
    RunKeeps(p, k, title, s, events);
    var t := Run(p, s, events).value;
    forall a, b | Accepts(t, k, a) && Accepts(t, k, b)
      ensures a == b
    {
      assert Potent(p, k, t, a) && Potent(p, k, t, b);
    }
  }

  // At a mark's claim, no other of the download was accepted or still can be, and no claim
  // of it lives.
  lemma FreshClaimIsAlone(
    p: Timing, k: Key, title: nat, history: seq<Rec>, events: Trace, s: State, t: State, mark: nat)
    requires InTime(p) && DistinctIds(history) && OneTitleOpen(p, k, title, history)
    requires NoRegrab(events, k) && Run(p, Start(history), events) == Some(s)
    requires Next(p, s, Check(mark)) == Some(t) && Posts(k, t, mark)
    ensures forall m :: !Potent(p, k, s, m)
    ensures k !in Unexpired(s.claims, s.now)
  {
    assert Inv(p, k, title, Start(history));
    RunKeeps(p, k, title, Start(history), events);
    ClaimFindsNoOther(p, k, title, s, mark);
  }

  // ── exactly when it holds ──────────────────────────────────────────────────

  lemma Extend(p: Timing, s: State, events: Trace, t: State, e: Event, u: State)
    requires Run(p, s, events) == Some(t) && Next(p, t, e) == Some(u)
    ensures Run(p, s, Then(events, e)) == Some(u)
  {
  }

  // A grab that does not read as failed yet.
  ghost predicate OpenGrab(p: Timing, history: seq<Rec>, g: Rec) {
    && g in history && g.kind == Grabbed && DistinctIds(history)
    && !AlreadyFailed(p.service, g, ViewOf(history, g.title))
  }

  ghost predicate NeverTwice(p: Timing, history: seq<Rec>, g: Rec) {
    forall events :: NoRegrab(events, KeyOf(g)) && Run(p, Start(history), events).Some? ==>
      AtMostOneAccepted(Run(p, Start(history), events).value, KeyOf(g))
  }

  function AfterRead(s: State, m: nat, g: Rec): State {
    s.(marks := s.marks[m := Read(g, s.now, ViewOf(s.history, g.title))])
  }

  lemma ReadHappens(p: Timing, s: State, m: nat, g: Rec)
    requires m !in s.marks && g in s.history && g.kind == Grabbed
    requires forall x :: x in s.history && x.id == g.id ==> x == g
    ensures Next(p, s, ReadHistory(m, g.title, g.id)) == Some(AfterRead(s, m, g))
  {
    var view := ViewOf(s.history, g.title);
    ViewMeans(s.history, g.title);
    assert g in view;
    FindGrabMeans(view, g.id);
    assert FindGrab(view, g.id) == g;
  }

  lemma ClaimHappens(p: Timing, s: State, m: nat)
    requires m in s.marks && s.marks[m].Read? && s.now <= s.marks[m].readAt + p.lag
    requires !AlreadyFailed(p.service, s.marks[m].grab, s.marks[m].history)
    requires !Blocks(Unexpired(s.claims, s.now), s.marks[m].grab)
    ensures Next(p, s, Check(m)) == Some(ClaimBy(s.(claims := Unexpired(s.claims, s.now)), m))
  {
  }

  function AfterWrite(s: State, m: nat): State
    requires m in s.marks && s.marks[m].Posted?
  {
    s.(history := s.history + [FailureOf(s.marks[m].grab, MaxId(s.history) + 1)],
       marks := s.marks[m := s.marks[m].(wroteAt := Some(s.now))])
  }

  lemma WriteHappens(p: Timing, s: State, m: nat)
    requires m in s.marks && s.marks[m].Posted? && s.marks[m].wroteAt.None?
    requires (s.marks[m].fate.Waiting? || s.marks[m].fate.GaveUpAt?) && s.now <= LastWrite(p, s.marks[m])
    ensures Next(p, s, ArrWrites(m)) == Some(AfterWrite(s, m))
  {
  }

  // One mark reads and, at once, claims.
  lemma ReadAndClaim(p: Timing, s: State, m: nat, g: Rec)
    requires m !in s.marks && g in s.history && g.kind == Grabbed
    requires forall x :: x in s.history && x.id == g.id ==> x == g
    requires !AlreadyFailed(p.service, g, ViewOf(s.history, g.title))
    requires !Blocks(Unexpired(s.claims, s.now), g)
    ensures Run(p, s, MarkOnce(m, g)) == Some(ClaimBy(AfterRead(s, m, g).(claims := Unexpired(s.claims, s.now)), m))
    ensures NoRegrab(MarkOnce(m, g), KeyOf(g))
  {
    var t := AfterRead(s, m, g);
    ReadHappens(p, s, m, g);
    ClaimHappens(p, t, m);
    Extend(p, s, Begin, s, ReadHistory(m, g.title, g.id), t);
    Extend(p, s, Then(Begin, ReadHistory(m, g.title, g.id)), t, Check(m),
      ClaimBy(t.(claims := Unexpired(s.claims, s.now)), m));
  }

  function MarkOnce(m: nat, g: Rec): Trace {
    Then(Then(Begin, ReadHistory(m, g.title, g.id)), Check(m))
  }

  lemma BothAccepted(p: Timing, history: seq<Rec>, g: Rec, events: Trace, s: State, a: nat, b: nat)
    requires Run(p, Start(history), events) == Some(s) && NoRegrab(events, KeyOf(g))
    requires Accepts(s, KeyOf(g), a) && Accepts(s, KeyOf(g), b) && a != b
    ensures !NeverTwice(p, history, g)
  {
  }

  // A first mark has claimed; its claim is on the book and its POST is out.
  function FirstOut(history: seq<Rec>, g: Rec): State {
    State(0, history, Claimed(map[], g, ViewOf(history, g.title), 0, 0), map[0 := Posted(g, 0, 0, None, Waiting)])
  }

  lemma FirstGoesOut(p: Timing, history: seq<Rec>, g: Rec)
    requires OpenGrab(p, history, g)
    ensures NoRegrab(MarkOnce(0, g), KeyOf(g))
    ensures Run(p, Start(history), MarkOnce(0, g)) == Some(FirstOut(history, g))
  {
    var s := Start(history);
    assert Unexpired(s.claims, 0) == map[];
    ReadAndClaim(p, s, 0, g);
    assert AfterRead(s, 0, g).marks[0 := Posted(g, 0, 0, None, Waiting)] == map[0 := Posted(g, 0, 0, None, Waiting)];
  }

  // The first mark gives up after `wait`.
  function GivenUp(p: Timing, history: seq<Rec>, g: Rec, wait: nat): State {
    var c := FirstOut(history, g).claims;
    State(wait, history, Settled(c, KeyOf(g), 0, NoAnswer, wait), map[0 := Posted(g, 0, 0, None, GaveUpAt(wait))])
  }

  lemma NoAnswerComes(p: Timing, history: seq<Rec>, g: Rec, wait: nat)
    requires wait <= p.post
    ensures Next(p, FirstOut(history, g).(now := wait), AnswerComes(0, NoAnswer)) == Some(GivenUp(p, history, g, wait))
  {
    var s := FirstOut(history, g).(now := wait);
    assert s.marks[0 := s.marks[0].(fate := GaveUpAt(wait))] == map[0 := Posted(g, 0, 0, None, GaveUpAt(wait))];
  }

  lemma GiveUp(p: Timing, history: seq<Rec>, g: Rec, wait: nat) returns (events: Trace)
    requires OpenGrab(p, history, g) && wait <= p.post
    ensures NoRegrab(events, KeyOf(g)) && Run(p, Start(history), events) == Some(GivenUp(p, history, g, wait))
  {
    FirstGoesOut(p, history, g);
    var s0, s1 := Start(history), FirstOut(history, g);
    Extend(p, s0, MarkOnce(0, g), s1, Tick(wait), s1.(now := wait));
    NoAnswerComes(p, history, g, wait);
    Extend(p, s0, Then(MarkOnce(0, g), Tick(wait)), s1.(now := wait), AnswerComes(0, NoAnswer),
      GivenUp(p, history, g, wait));
    events := Then(Then(MarkOnce(0, g), Tick(wait)), AnswerComes(0, NoAnswer));
  }

  function Drifted(p: Timing, s: State): State { s.(now := s.now + p.drift) }

  // The arr takes that mark a drift later, just after a second mark's history read.
  function TakenLate(p: Timing, history: seq<Rec>, g: Rec, wait: nat): State {
    AfterWrite(AfterRead(Drifted(p, GivenUp(p, history, g, wait)), 1, g), 0)
  }

  // The first mark gave up, the arr may still write for it, and a second may be made.
  ghost predicate MayStillWrite(p: Timing, s: State, g: Rec) {
    && 1 !in s.marks && g in s.history && g.kind == Grabbed
    && (forall x :: x in s.history && x.id == g.id ==> x == g)
    && 0 in s.marks && s.marks[0].Posted? && s.marks[0].wroteAt.None?
    && s.marks[0].fate.GaveUpAt? && s.now <= LastWrite(p, s.marks[0])
  }

  // A mark's history read, just before the arr writes for another.
  lemma ReadBeforeWrite(p: Timing, s: State, g: Rec)
    requires MayStillWrite(p, s, g)
    ensures Next(p, s, ReadHistory(1, g.title, g.id)) == Some(AfterRead(s, 1, g))
    ensures Next(p, AfterRead(s, 1, g), ArrWrites(0)) == Some(AfterWrite(AfterRead(s, 1, g), 0))
  {
    ReadHappens(p, s, 1, g);
    WriteHappens(p, AfterRead(s, 1, g), 0);
  }

  lemma TakenLater(p: Timing, k: Key, s0: State, given: Trace, s1: State, g: Rec) returns (events: Trace)
    requires Run(p, s0, given) == Some(s1) && NoRegrab(given, k) && MayStillWrite(p, Drifted(p, s1), g)
    ensures NoRegrab(events, k)
    ensures Run(p, s0, events) == Some(AfterWrite(AfterRead(Drifted(p, s1), 1, g), 0))
  {
    var s2 := Drifted(p, s1);
    ReadBeforeWrite(p, s2, g);
    events := ThreeMore(p, k, s0, given, s1, s2, AfterRead(s2, 1, g), AfterWrite(AfterRead(s2, 1, g), 0),
                        Tick(p.drift), ReadHistory(1, g.title, g.id), ArrWrites(0));
  }

  lemma GivenUpMayWrite(p: Timing, history: seq<Rec>, g: Rec, wait: nat)
    requires OpenGrab(p, history, g)
    ensures MayStillWrite(p, Drifted(p, GivenUp(p, history, g, wait)), g)
  {
  }

  lemma TakeLate(p: Timing, history: seq<Rec>, g: Rec, wait: nat, given: Trace) returns (events: Trace)
    requires Run(p, Start(history), given) == Some(GivenUp(p, history, g, wait)) && NoRegrab(given, KeyOf(g))
    requires MayStillWrite(p, Drifted(p, GivenUp(p, history, g, wait)), g)
    ensures NoRegrab(events, KeyOf(g)) && Run(p, Start(history), events) == Some(TakenLate(p, history, g, wait))
  {
    events := TakenLater(p, KeyOf(g), Start(history), given, GivenUp(p, history, g, wait), g);
  }

  // A lag after that the first claim has run out, and the second mark may still check.
  lemma LateStands(p: Timing, history: seq<Rec>, g: Rec, wait: nat)
    requires OpenGrab(p, history, g) && wait <= p.post
    requires Min(MARK_CLAIM_TTL_MS, wait + MARK_UNKNOWN_HOLD_MS) <= wait + p.drift + p.lag
    ensures var s := TakenLate(p, history, g, wait);
      && Unexpired(s.claims, s.now + p.lag) == map[] && 1 in s.marks
      && s.marks[1] == Read(g, s.now, ViewOf(history, g.title)) && Accepts(s, KeyOf(g), 0)
  {
  }

  // The second checks its claim then.
  lemma SlowMarksMeetTwice(p: Timing, history: seq<Rec>, g: Rec, wait: nat)
    requires OpenGrab(p, history, g) && wait <= p.post
    requires Min(MARK_CLAIM_TTL_MS, wait + MARK_UNKNOWN_HOLD_MS) <= wait + p.drift + p.lag
    ensures !NeverTwice(p, history, g)
  {
    var given := GiveUp(p, history, g, wait);
    GivenUpMayWrite(p, history, g, wait);
    var events := TakeLate(p, history, g, wait, given);
    LateStands(p, history, g, wait);
    CheckedLate(p, history, g, events, TakenLate(p, history, g, wait));
  }

  lemma CheckedLate(p: Timing, history: seq<Rec>, g: Rec, events: Trace, s: State)
    requires NoRegrab(events, KeyOf(g)) && Run(p, Start(history), events) == Some(s)
    requires Unexpired(s.claims, s.now + p.lag) == map[] && 1 in s.marks && Accepts(s, KeyOf(g), 0)
    requires s.marks[1] == Read(g, s.now, ViewOf(history, g.title))
      && !AlreadyFailed(p.service, g, ViewOf(history, g.title))
    ensures !NeverTwice(p, history, g)
  {
    var late := s.(now := s.now + p.lag);
    Extend(p, Start(history), events, s, Tick(p.lag), late);
    ClaimAndWrite(p, history, Then(events, Tick(p.lag)), late, 1);
    SecondAccepted(p, history, g, Then(events, Tick(p.lag)), late, 0, 1);
  }

  // A read mark that passes its check is claimed, and the arr takes it.
  lemma ClaimAndWrite(p: Timing, history: seq<Rec>, events: Trace, s: State, m: nat)
    requires Run(p, Start(history), events) == Some(s) && Unexpired(s.claims, s.now) == map[]
    requires m in s.marks && s.marks[m].Read? && s.now <= s.marks[m].readAt + p.lag
    requires !AlreadyFailed(p.service, s.marks[m].grab, s.marks[m].history)
    ensures Run(p, Start(history), Then(Then(events, Check(m)), ArrWrites(m))) ==
            Some(AfterWrite(ClaimBy(s.(claims := map[]), m), m))
  {
    ClaimHappens(p, s, m);
    var t := ClaimBy(s.(claims := map[]), m);
    Extend(p, Start(history), events, s, Check(m), t);
    WriteHappens(p, t, m);
    Extend(p, Start(history), Then(events, Check(m)), t, ArrWrites(m), AfterWrite(t, m));
  }

  lemma SecondAccepted(p: Timing, history: seq<Rec>, g: Rec, events: Trace, s: State, first: nat, m: nat)
    requires m in s.marks && s.marks[m].Read? && s.marks[m].grab == g
    requires Accepts(s, KeyOf(g), first) && NoRegrab(events, KeyOf(g))
    requires Run(p, Start(history), Then(Then(events, Check(m)), ArrWrites(m))) ==
             Some(AfterWrite(ClaimBy(s.(claims := map[]), m), m))
    ensures !NeverTwice(p, history, g)
  {
    var t := AfterWrite(ClaimBy(s.(claims := map[]), m), m);
    assert Accepts(t, KeyOf(g), first) && Accepts(t, KeyOf(g), m) && first != m;
    BothAccepted(p, history, g, Then(Then(events, Check(m)), ArrWrites(m)), t, first, m);
  }

  // The state after a first mark was taken; and after its claim has run out.
  function Taken(history: seq<Rec>, g: Rec): State {
    AfterWrite(FirstOut(history, g), 0)
  }

  function TakenOnce(history: seq<Rec>, g: Rec): State {
    Taken(history, g).(now := MARK_CLAIM_TTL_MS)
  }

  function MarkTaken(g: Rec): Trace { Then(MarkOnce(0, g), ArrWrites(0)) }

  lemma TakenMeans(history: seq<Rec>, g: Rec)
    ensures var s := Taken(history, g);
      && Accepts(s, KeyOf(g), 0) && 1 !in s.marks && s.history == history + [FailureOf(g, MaxId(history) + 1)]
      && s.claims == FirstOut(history, g).claims && s.now == 0
  {
    var first := FirstOut(history, g);
    assert first.marks == map[0 := Posted(g, 0, 0, None, Waiting)] && first.history == history && first.now == 0;
    assert Taken(history, g).marks[0] == Posted(g, 0, 0, Some(0), Waiting);
  }

  lemma FirstIsTaken(p: Timing, history: seq<Rec>, g: Rec)
    requires OpenGrab(p, history, g)
    ensures NoRegrab(MarkTaken(g), KeyOf(g)) && Run(p, Start(history), MarkTaken(g)) == Some(Taken(history, g))
  {
    var s0, s1 := Start(history), FirstOut(history, g);
    FirstGoesOut(p, history, g);
    WriteHappens(p, s1, 0);
    Extend(p, s0, MarkOnce(0, g), s1, ArrWrites(0), AfterWrite(s1, 0));
  }

  lemma TakeOnce(p: Timing, history: seq<Rec>, g: Rec) returns (events: Trace)
    requires OpenGrab(p, history, g)
    ensures NoRegrab(events, KeyOf(g)) && Run(p, Start(history), events) == Some(TakenOnce(history, g))
    ensures Accepts(TakenOnce(history, g), KeyOf(g), 0) && 1 !in TakenOnce(history, g).marks
    ensures TakenOnce(history, g).history == history + [FailureOf(g, MaxId(history) + 1)]
  {
    FirstIsTaken(p, history, g);
    TakenMeans(history, g);
    Extend(p, Start(history), MarkTaken(g), Taken(history, g), Tick(MARK_CLAIM_TTL_MS), TakenOnce(history, g));
    events := Then(MarkTaken(g), Tick(MARK_CLAIM_TTL_MS));
  }

  // A failure that can't be told to be its grab's never shows, so once the claim has
  // run out the next mark is sent again.
  lemma UnidentifiableIsMarkedTwice(p: Timing, history: seq<Rec>, g: Rec)
    requires OpenGrab(p, history, g) && !Identifiable(p.service, g)
    ensures !NeverTwice(p, history, g)
  {
    var events := ReadAgain(p, history, g);
    var s := AfterRead(TakenOnce(history, g), 1, g);
    NeverShowsFailed(p, g, s.marks[1].history);
    FirstClaimRunsOut(history, g);
    ClaimAndWrite(p, history, events, s, 1);
    assert Accepts(s, KeyOf(g), 0);
    SecondAccepted(p, history, g, events, s, 0, 1);
  }

  lemma FirstClaimRunsOut(history: seq<Rec>, g: Rec)
    ensures Unexpired(FirstOut(history, g).claims, MARK_CLAIM_TTL_MS) == map[]
  {
  }

  lemma ReadAgain(p: Timing, history: seq<Rec>, g: Rec) returns (events: Trace)
    requires OpenGrab(p, history, g)
    ensures NoRegrab(events, KeyOf(g))
    ensures Run(p, Start(history), events) == Some(AfterRead(TakenOnce(history, g), 1, g))
  {
    var first := TakeOnce(p, history, g);
    var s := TakenOnce(history, g);
    MaxIdIsMost(history);
    ReadHappens(p, s, 1, g);
    Extend(p, Start(history), first, s, ReadHistory(1, g.title, g.id), AfterRead(s, 1, g));
    events := Then(first, ReadHistory(1, g.title, g.id));
  }

  // No record can be told to be the failure of an unidentifiable grab.
  lemma {:induction false} NeverShowsFailed(p: Timing, g: Rec, history: seq<Rec>)
    requires !Identifiable(p.service, g)
    ensures !AlreadyFailed(p.service, g, history)
  {
    if history != [] {
      NeverShowsFailed(p, g, history[1..]);
    }
  }

  // A mark of an open grab that no claim reaches is accepted beside the first.
  lemma AnotherIsAccepted(p: Timing, k: Key, s0: State, h: Rec, first: Trace, s: State) returns (events: Trace)
    requires Run(p, s0, first) == Some(s) && NoRegrab(first, k) && 1 !in s.marks && Accepts(s, k, 0)
    requires h in s.history && h.kind == Grabbed && KeyOf(h) == k
    requires forall x :: x in s.history && x.id == h.id ==> x == h
    requires !AlreadyFailed(p.service, h, ViewOf(s.history, h.title)) && !Blocks(Unexpired(s.claims, s.now), h)
    ensures NoRegrab(events, k) && Run(p, s0, events).Some?
    ensures Run(p, s0, events).value.now == s.now && !AtMostOneAccepted(Run(p, s0, events).value, k)
  {
    ReadClaimWrite(p, s, 1, h);
    AcceptedBeside(s, k, 0, 1, h);
    var u := ClaimBy(AfterRead(s, 1, h).(claims := Unexpired(s.claims, s.now)), 1);
    events := ThreeMore(p, k, s0, first, s, AfterRead(s, 1, h), u, AfterWrite(u, 1),
                        ReadHistory(1, h.title, h.id), Check(1), ArrWrites(1));
  }

  // The first title's failure is not listed under the second.
  lemma StillOpen(p: Timing, history: seq<Rec>, g: Rec, h: Rec)
    requires OpenGrab(p, history, h) && h.title != g.title
    ensures var after := history + [FailureOf(g, MaxId(history) + 1)];
      && h in after && !AlreadyFailed(p.service, h, ViewOf(after, h.title))
      && forall x :: x in after && x.id == h.id ==> x == h
  {
    MaxIdIsMost(history);
    SameView(history, FailureOf(g, MaxId(history) + 1), h.title);
  }

  lemma ThreeMore(p: Timing, k: Key, s0: State, events: Trace, s: State, t: State, u: State, v: State, d: Event,
      e: Event, f: Event)
    returns (more: Trace)
    requires Run(p, s0, events) == Some(s) && NoRegrab(events, k) && !d.ArrRecords? && !e.ArrRecords? && !f.ArrRecords?
    requires Next(p, s, d) == Some(t) && Next(p, t, e) == Some(u) && Next(p, u, f) == Some(v)
    ensures Run(p, s0, more) == Some(v) && NoRegrab(more, k)
  {
    Extend(p, s0, events, s, d, t);
    Extend(p, s0, Then(events, d), t, e, u);
    Extend(p, s0, Then(Then(events, d), e), u, f, v);
    more := Then(Then(Then(events, d), e), f);
  }

  // One mark reads, claims and is taken, all at once.
  lemma ReadClaimWrite(p: Timing, s: State, m: nat, g: Rec)
    requires m !in s.marks && g in s.history && g.kind == Grabbed
    requires forall x :: x in s.history && x.id == g.id ==> x == g
    requires !AlreadyFailed(p.service, g, ViewOf(s.history, g.title)) && !Blocks(Unexpired(s.claims, s.now), g)
    ensures var t := AfterRead(s, m, g);
      var u := ClaimBy(t.(claims := Unexpired(s.claims, s.now)), m);
      && Next(p, s, ReadHistory(m, g.title, g.id)) == Some(t) && Next(p, t, Check(m)) == Some(u)
      && Next(p, u, ArrWrites(m)) == Some(AfterWrite(u, m)) && AfterWrite(u, m).now == s.now
  {
    ReadHappens(p, s, m, g);
    ClaimHappens(p, AfterRead(s, m, g), m);
    WriteHappens(p, ClaimBy(AfterRead(s, m, g).(claims := Unexpired(s.claims, s.now)), m), m);
  }

  lemma AcceptedBeside(s: State, k: Key, first: nat, m: nat, g: Rec)
    requires Accepts(s, k, first) && m != first && KeyOf(g) == k
    ensures var t := AfterWrite(ClaimBy(AfterRead(s, m, g).(claims := Unexpired(s.claims, s.now)), m), m);
      Accepts(t, k, first) && Accepts(t, k, m)
  {
  }

  lemma {:induction false} SameView(history: seq<Rec>, e: Rec, title: nat)
    requires e.title != title
    ensures ViewOf(history + [e], title) == ViewOf(history, title)
  {
    if history == [] {
      assert [] + [e] == [e] && [e][1..] == [];
    } else {
      SameView(history[1..], e, title);
      assert (history + [e])[1..] == history[1..] + [e];
    }
  }

  // The claim is kept by download but asked for by title: one download open under two
  // titles is marked twice. When the first claim has run out, always.
  lemma TwoTitlesAreMarkedTwice(p: Timing, history: seq<Rec>, g: Rec, h: Rec)
    requires OpenGrab(p, history, g) && OpenGrab(p, history, h) && KeyOf(h) == KeyOf(g) && h.title != g.title
    ensures !NeverTwice(p, history, g)
  {
    var first := TakeOnce(p, history, g);
    FirstClaimRunsOut(history, g);
    StillOpen(p, history, g, h);
    var events := AnotherIsAccepted(p, KeyOf(g), Start(history), h, first, TakenOnce(history, g));
  }

  lemma ClaimStopsShort(view: seq<Rec>, g: Rec, h: Rec)
    requires g in view && KeyOf(h) == KeyOf(g) && MaxId(view) < h.id
    ensures !Blocks(Unexpired(Claimed(map[], g, view, 0, 0), 0), h)
  {
    MoreIsMore(view, [g] + view);
  }

  // And at once when the second title's grab is newer than every record of the first:
  // the first claim reaches only as far as its own title's records.
  lemma TwoTitlesAtOnce(p: Timing, history: seq<Rec>, g: Rec, h: Rec) returns (events: Trace)
    requires OpenGrab(p, history, g) && OpenGrab(p, history, h) && KeyOf(h) == KeyOf(g) && h.title != g.title
    requires MaxId(ViewOf(history, g.title)) < h.id
    ensures NoRegrab(events, KeyOf(g)) && Run(p, Start(history), events).Some?
    ensures Run(p, Start(history), events).value.now == 0
    ensures !AtMostOneAccepted(Run(p, Start(history), events).value, KeyOf(g))
  {
    FirstIsTaken(p, history, g);
    TakenMeans(history, g);
    ViewMeans(history, g.title);
    ClaimStopsShort(ViewOf(history, g.title), g, h);
    StillOpen(p, history, g, h);
    events := AnotherIsAccepted(p, KeyOf(g), Start(history), h, MarkTaken(g), Taken(history, g));
  }

  // The guarantee holds exactly when both waits are short enough, the grab's own failure
  // can be recognised, and no other title has a grab of the download still open.
  lemma NeverTwiceExactly(p: Timing, history: seq<Rec>, g: Rec)
    requires OpenGrab(p, history, g)
    ensures NeverTwice(p, history, g) <==>
      && InTime(p) && Identifiable(p.service, g)
      && forall h :: h in history && IsGrab(KeyOf(g), h) && !ReadsFailed(p, history, h) ==> h.title == g.title
  {
    if h :| h in history && IsGrab(KeyOf(g), h) && !ReadsFailed(p, history, h) && h.title != g.title {
      TwoTitlesAreMarkedTwice(p, history, g, h);
    } else if InTime(p) && Identifiable(p.service, g) {
      assert OneTitleOpen(p, KeyOf(g), g.title, history);
      forall events | NoRegrab(events, KeyOf(g)) && Run(p, Start(history), events).Some?
        ensures AtMostOneAccepted(Run(p, Start(history), events).value, KeyOf(g))
      {
        AtMostOneMarkIsAccepted(p, KeyOf(g), g.title, history, events);
      }
    } else if !Identifiable(p.service, g) {
      UnidentifiableIsMarkedTwice(p, history, g);
    } else {
      SlowMarksMeetTwice(p, history, g, if p.lag + p.drift >= MARK_UNKNOWN_HOLD_MS then 0 else p.post);
    }
  }

  // ── how long a claim stands ────────────────────────────────────────────────

  // The first mark's POST has been answered, after `wait`.
  function FirstAnswered(history: seq<Rec>, g: Rec, wait: nat, a: Answer): State {
    var fate := if a.Accepted? then AnsweredAt(wait) else if DefinitelyRefused(a) then Refused else GaveUpAt(wait);
    State(wait, history, Settled(FirstOut(history, g).claims, KeyOf(g), 0, a, wait),
      map[0 := Posted(g, 0, 0, None, fate)])
  }

  lemma AnswerIsGiven(p: Timing, history: seq<Rec>, g: Rec, wait: nat, a: Answer) returns (events: Trace)
    requires OpenGrab(p, history, g) && wait <= p.post && !TriesNext(0, a)
    ensures NoRegrab(events, KeyOf(g)) && Run(p, Start(history), events) == Some(FirstAnswered(history, g, wait, a))
  {
    FirstGoesOut(p, history, g);
    var s0, s1, s2 := Start(history), FirstOut(history, g), FirstAnswered(history, g, wait, a);
    Extend(p, s0, MarkOnce(0, g), s1, Tick(wait), s1.(now := wait));
    AnswerComesTo(p, history, g, wait, a);
    Extend(p, s0, Then(MarkOnce(0, g), Tick(wait)), s1.(now := wait), AnswerComes(0, a), s2);
    events := Then(Then(MarkOnce(0, g), Tick(wait)), AnswerComes(0, a));
  }

  lemma AnswerComesTo(p: Timing, history: seq<Rec>, g: Rec, wait: nat, a: Answer)
    requires wait <= p.post && !TriesNext(0, a)
    ensures Next(p, FirstOut(history, g).(now := wait), AnswerComes(0, a)) == Some(FirstAnswered(history, g, wait, a))
  {
    var s := FirstOut(history, g).(now := wait);
    var fate := FirstAnswered(history, g, wait, a).marks[0].fate;
    assert s.marks[0 := s.marks[0].(fate := fate)] == map[0 := Posted(g, 0, 0, None, fate)];
  }

  // A mark of an open grab goes out, unless a live claim reaches the grab.
  lemma MarkedAgain(p: Timing, s: State, n: nat, g: Rec)
    requires n !in s.marks && g in s.history && g.kind == Grabbed
    requires forall x :: x in s.history && x.id == g.id ==> x == g
    requires !AlreadyFailed(p.service, g, ViewOf(s.history, g.title))
    ensures var v := Run(p, s, MarkOnce(n, g));
      v.Some? && n in v.value.marks && v.value.marks[n] ==
        if Blocks(Unexpired(s.claims, s.now), g) then TurnedAway(g) else Posted(g, s.now, 0, None, Waiting)
  {
    if Blocks(Unexpired(s.claims, s.now), g) {
      var t := AfterRead(s, n, g);
      ReadHappens(p, s, n, g);
      Extend(p, s, Begin, s, ReadHistory(n, g.title, g.id), t);
      Extend(p, s, Then(Begin, ReadHistory(n, g.title, g.id)), t, Check(n),
             t.(claims := Unexpired(s.claims, s.now), marks := t.marks[n := TurnedAway(g)]));
    } else {
      ReadAndClaim(p, s, n, g);
    }
  }

  // Until when the first mark's claim stands in the way of another, by what answered it.
  function HeldUntil(wait: nat, a: Answer): nat {
    match a
    case Accepted => 600_000
    case Status(code) => if 400 <= code < 500 && code != 408 then 0 else Min(600_000, wait + 90_000)
    case NoAnswer => Min(600_000, wait + 90_000)
  }

  // From the start: a mark is answered after `wait`, and `later` the same grab is marked
  // again on a history read that shows no failure. The second mark is sent at once after
  // a definite refusal; after an acceptance, once ten minutes from the first have passed;
  // and after any other failure, ninety seconds after that failure at the latest.
  lemma HeldExactly(p: Timing, history: seq<Rec>, g: Rec, wait: nat, a: Answer, later: nat)
    returns (events: Trace, s: State)
    requires OpenGrab(p, history, g) && wait <= p.post && !TriesNext(0, a)
    ensures Run(p, Start(history), events) == Some(s) && s.now == wait + later && 1 !in s.marks
    ensures var v := Run(p, s, MarkOnce(1, g));
      v.Some? && 1 in v.value.marks && v.value.marks[1] ==
        if wait + later < HeldUntil(wait, a) then TurnedAway(g) else Posted(g, wait + later, 0, None, Waiting)
  {
    var answered := AnswerIsGiven(p, history, g, wait, a);
    var t := FirstAnswered(history, g, wait, a);
    s := t.(now := wait + later);
    events := Then(answered, Tick(later));
    Extend(p, Start(history), answered, t, Tick(later), s);
    HeldBlocks(history, g, wait, a, wait + later);
    MarkedAgain(p, s, 1, g);
  }

  lemma HeldBlocks(history: seq<Rec>, g: Rec, wait: nat, a: Answer, now: nat)
    requires wait <= now
    ensures Blocks(Unexpired(FirstAnswered(history, g, wait, a).claims, now), g) <==> now < HeldUntil(wait, a)
  {
    var view := ViewOf(history, g.title);
    MaxIdIsMost([g] + view);
    assert g in [g] + view;
    assert FirstOut(history, g).claims[KeyOf(g)] == Claim(MARK_CLAIM_TTL_MS, MaxId([g] + view), 0);
  }

  // At any point of any run: a mark that still holds its claim is refused outright, with no
  // older route or body left to try; from then on the claim stands in nobody's way.
  lemma RefusalHandsBack(p: Timing, history: seq<Rec>, events: Trace, s: State, m: nat, code: nat, t: State, n: nat,
      g: Rec)
    requires Run(p, Start(history), events) == Some(s) && Next(p, s, AnswerComes(m, Status(code))) == Some(t)
    requires KeyOf(g) in s.claims && s.claims[KeyOf(g)].owner == m && KeyOf(s.marks[m].grab) == KeyOf(g)
    requires 400 <= code < 500 && code != 408
    requires s.marks[m].attempt == 0 ==> code != 404 && code != 405
    requires s.marks[m].attempt == 1 ==> code != 400 && code != 415
    requires n !in t.marks && g in t.history && g.kind == Grabbed && DistinctIds(t.history)
    requires !AlreadyFailed(p.service, g, ViewOf(t.history, g.title))
    ensures t.marks[m].fate == Refused
    ensures var v := Run(p, t, MarkOnce(n, g));
      v.Some? && n in v.value.marks && v.value.marks[n] == Posted(g, t.now, 0, None, Waiting)
  {
    MarkedAgain(p, t, n, g);
  }

  // The older builds: a route that is not there, then a body that cannot be read, and the
  // mark goes on to the next attempt with its claim untouched; no other answer does so.
  lemma FallbacksExactly(p: Timing, s: State, m: nat, a: Answer, t: State)
    requires Next(p, s, AnswerComes(m, a)) == Some(t)
    ensures t.marks[m].attempt == s.marks[m].attempt + 1 || t.marks[m].attempt == s.marks[m].attempt
    ensures t.marks[m].attempt > s.marks[m].attempt <==>
      || (s.marks[m].attempt == 0 && a in {Status(404), Status(405)})
      || (s.marks[m].attempt == 1 && a in {Status(400), Status(415)})
    ensures t.marks[m].attempt > s.marks[m].attempt ==> t.marks[m].fate == Waiting && t.claims == s.claims
    ensures t.marks[m].attempt == s.marks[m].attempt ==> t.marks[m].fate != Waiting
  {
  }

  // Time passes, and the arr records what it likes under a number it has not used.
  lemma AtAnyTime(p: Timing, s: State, ms: nat, r: Rec)
    ensures Next(p, s, Tick(ms)) == Some(s.(now := s.now + ms))
    ensures (forall e :: e in s.history ==> e.id < r.id) && r.id > 0 ==>
      Next(p, s, ArrRecords(r)) == Some(s.(history := s.history + [r]))
  {
    if s.history != [] {
      MaxIdIsNewest(s.history);
      assert forall i :: 0 <= i < |s.history| ==> s.history[i] in s.history;
    }
  }

  // ── a later grab ───────────────────────────────────────────────────────────

  // No claim reaches past the newest record there is.
  ghost predicate ClaimsAreOfThePast(s: State) {
    forall k :: k in s.claims ==> s.claims[k].upTo <= MaxId(s.history)
  }

  ghost predicate ReadsAreOfThePast(s: State) {
    && (forall m :: m in s.marks ==> s.marks[m].grab in s.history)
    && (forall m, x :: m in s.marks && s.marks[m].Read? && x in s.marks[m].history ==> x in s.history)
  }

  lemma {:induction false} MoreIsMore(history: seq<Rec>, more: seq<Rec>)
    requires forall e :: e in more ==> e in history
    ensures MaxId(more) <= MaxId(history)
  {
    if more != [] {
      MaxIdIsMost(history);
      assert more[0] in history;
      MoreIsMore(history, more[1..]);
    }
  }

  lemma CheckKeepsClaimsPast(p: Timing, s: State, m: nat, t: State)
    requires ClaimsAreOfThePast(s) && CheckNext(p, s, m) == Some(t)
    requires s.marks[m].grab in s.history && forall x :: x in s.marks[m].history ==> x in s.history
    ensures ClaimsAreOfThePast(t)
  {
    var r := s.marks[m];
    MoreIsMore(s.history, [r.grab] + r.history);
    assert forall k :: k in t.claims && (k !in s.claims || t.claims[k] != s.claims[k]) ==>
      t.claims[k].upTo == MaxId([r.grab] + r.history);
  }

  lemma StepKeepsClaimsPast(p: Timing, s: State, e: Event, t: State)
    requires ClaimsAreOfThePast(s) && ReadsAreOfThePast(s) && Next(p, s, e) == Some(t)
    ensures ClaimsAreOfThePast(t)
  {
    match e
    case Tick(ms) =>
    case ReadHistory(mark, of, historyId) =>
    case Check(mark) => CheckKeepsClaimsPast(p, s, mark, t);
    case ArrWrites(mark) => MoreIsMore(t.history, s.history);
    case AnswerComes(mark, a) =>
    case ArrRecords(r) => MoreIsMore(t.history, s.history);
  }

  lemma StepKeepsReadsPast(p: Timing, s: State, e: Event, t: State)
    requires ReadsAreOfThePast(s) && Next(p, s, e) == Some(t)
    ensures ReadsAreOfThePast(t)
  {
    if e.ReadHistory? {
      ReadNextMeans(s, e.mark, e.title, e.historyId);
      ViewMeans(s.history, e.title);
    }
  }

  lemma {:induction false} RunKeepsClaimsPast(p: Timing, s: State, events: Trace)
    requires ClaimsAreOfThePast(s) && ReadsAreOfThePast(s) && Run(p, s, events).Some?
    ensures ClaimsAreOfThePast(Run(p, s, events).value) && ReadsAreOfThePast(Run(p, s, events).value)
  {
    if events.Then? {
      RunKeepsClaimsPast(p, s, events.before);
      var t := Run(p, s, events.before).value;
      StepKeepsClaimsPast(p, t, events.last, Run(p, s, events).value);
      StepKeepsReadsPast(p, t, events.last, Run(p, s, events).value);
    }
  }

  // Whatever marks and claims came before, a grab the arr records now can be marked:
  // no claim taken earlier stands in its way.
  lemma RegrabIsNotBlocked(p: Timing, history: seq<Rec>, events: Trace, g: Rec, mark: nat)
    requires Run(p, Start(history), events).Some?
    requires g.kind == Grabbed && MaxId(Run(p, Start(history), events).value.history) < g.id
    requires mark !in Run(p, Start(history), events).value.marks
    ensures var s := Run(p, Start(history), events).value;
      var after := Run(p, s.(history := s.history + [g]), MarkOnce(mark, g));
      after.Some? && mark in after.value.marks && after.value.marks[mark] == Posted(g, s.now, 0, None, Waiting)
  {
    var s := Run(p, Start(history), events).value;
    RunKeepsClaimsPast(p, Start(history), events);
    var t := s.(history := s.history + [g]);
    MaxIdIsMost(s.history);
    ViewMeans(t.history, g.title);
    AlreadyFailedMeans(p.service, g, ViewOf(t.history, g.title));
    ReadAndClaim(p, t, mark, g);
  }
}
