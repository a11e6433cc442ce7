// The command watcher (src/lib/arr-command-status.ts, lines 318-461) as a state machine
// over what its host does: its runs, its timers and its reads in flight, and what it
// reports of each watch. The class at the end is the watcher itself, its fields changed in
// place; each of its methods is one of the machine's steps.
module CommandWatcher {
  import opened Options
  import opened CommandPacing

  type Key = string
  type Token = nat

  // One watch. It outlives its place in `live`: a read in flight still holds it.
  datatype Watch = Watch(
    key: Key, ids: seq<int>, ended: map<int, CommandState>, handle: Option<nat>, counters: Counters)

  // A read in flight: whose it is, and the ids it asked about.
  datatype Reading = Reading(token: Token, live: seq<int>)

  datatype Report =
    | Asked(token: Token, ids: seq<int>)
    | Updated(token: Token, states: seq<CommandState>)
    | Stopped(token: Token, how: HowStopped, error: string)
    | Finished(token: Token, states: seq<CommandState>)

  datatype State = State(
    live: map<Key, Token>,
    watches: map<Token, Watch>,
    last: Token,
    disposed: bool,
    timers: map<nat, Token>,      // scheduled and not fired; a cancelled one may still fire
    cancelled: set<nat>,
    nextHandle: nat,
    readings: map<nat, Reading>,
    nextReading: nat,
    log: seq<Report>)

  function Init(): State {
    State(map[], map[], 0, false, map[], {}, 0, map[], 0, [])
  }

  function Retire(s: State, key: Key): State {
    if key !in s.live then s
    else
      var t := s.live[key];
      var cancelled := if t in s.watches && s.watches[t].handle.Some? then s.cancelled + {s.watches[t].handle.value}
        else s.cancelled;
      s.(live := s.live - {key}, cancelled := cancelled)
  }

  function RetireAll(s: State): State {
    s.(live := map[],
       cancelled := s.cancelled + set key | key in s.live && s.live[key] in s.watches
         && s.watches[s.live[key]].handle.Some?
                                   :: s.watches[s.live[key]].handle.value)
  }

  function Schedule(s: State, t: Token): State
    requires t in s.watches
  {
    s.(timers := s.timers[s.nextHandle := t], nextHandle := s.nextHandle + 1,
       watches := s.watches[t := s.watches[t].(handle := Some(s.nextHandle))])
  }

  // The ids once each, in the order they first appear.
  function Distinct(ids: seq<int>): (d: seq<int>)
    ensures forall x :: x in d <==> x in ids
    ensures forall i, j :: 0 <= i < j < |d| ==> d[i] != d[j]
    ensures forall i, j :: 0 <= i < j < |d| ==> FirstAt(ids, d[i]) < FirstAt(ids, d[j])
  {
    if ids == [] then []
    else
      var d := Distinct(ids[..|ids| - 1]);
      var x := ids[|ids| - 1];
      assert ids == ids[..|ids| - 1] + [x];
      FirstAtGrows(ids[..|ids| - 1], x);
      if x in d then d else d + [x]
  }

  // Where the id first stands; the length where it does not.
  function FirstAt(ids: seq<int>, id: int): (i: nat)
    ensures i <= |ids| && (i < |ids| <==> id in ids) && (i < |ids| ==> ids[i] == id)
    ensures forall j :: 0 <= j < i ==> ids[j] != id
  {
    if ids == [] || ids[0] == id then 0 else FirstAt(ids[1..], id) + 1
  }

  lemma FirstAtGrows(ids: seq<int>, x: int)
    ensures forall id :: id in ids ==> FirstAt(ids + [x], id) == FirstAt(ids, id)
    ensures x !in ids ==> FirstAt(ids + [x], x) == |ids|
  {
    var more := ids + [x];
    assert more[|ids|] == x && forall k :: 0 <= k < |ids| ==> more[k] == ids[k];
    forall id | id in ids
      ensures FirstAt(more, id) == FirstAt(ids, id)
    {
      var i, j := FirstAt(ids, id), FirstAt(more, id);
      assert more[i] == id && more[j] == id;
    }
  }

  function Start(s: State, key: Key, ids: seq<int>): State {
    var r := Retire(s, key);
    if s.disposed || ids == [] then r
    else
      Schedule(Born(r, key, ids), s.last + 1)
  }

  // A new watch in its place, before its first timer.
  function Born(s: State, key: Key, ids: seq<int>): State {
    var t := s.last + 1;
    var w := Watch(key, Distinct(ids), map[], None, Counters(0, 0, 0));
    s.(last := t, watches := s.watches[t := w], live := s.live[key := t])
  }

  predicate IsLive(s: State, t: Token) {
    t in s.watches && s.watches[t].key in s.live && s.live[s.watches[t].key] == t
  }

  // The ids that have not ended, in their order.
  function Unended(ids: seq<int>, ended: map<int, CommandState>): (u: seq<int>)
    ensures forall x :: x in u <==> x in ids && x !in ended
  {
    if ids == [] then []
    else
      assert ids == ids[..|ids| - 1] + [ids[|ids| - 1]];
      var u := Unended(ids[..|ids| - 1], ended);
      if ids[|ids| - 1] in ended then u else u + [ids[|ids| - 1]]
  }

  ghost predicate InOrderOf(ids: seq<int>, some: seq<int>) {
    forall i, j :: 0 <= i < j < |some| ==> FirstAt(ids, some[i]) < FirstAt(ids, some[j])
  }

  lemma OrderGrows(ids: seq<int>, x: int, some: seq<int>)
    requires InOrderOf(ids, some) && (forall i :: 0 <= i < |some| ==> some[i] in ids) && x !in ids
    ensures InOrderOf(ids + [x], some) && InOrderOf(ids + [x], some + [x])
  {
    FirstAtGrows(ids, x);
    assert forall i :: 0 <= i < |some| ==> FirstAt(ids + [x], some[i]) == FirstAt(ids, some[i]) < |ids|;
  }

  lemma {:induction false} UnendedInOrder(ids: seq<int>, ended: map<int, CommandState>)
    requires forall i, j :: 0 <= i < j < |ids| ==> ids[i] != ids[j]
    ensures InOrderOf(ids, Unended(ids, ended))
  {
    if ids != [] {
      var rest, x := ids[..|ids| - 1], ids[|ids| - 1];
      assert ids == rest + [x];
      UnendedInOrder(rest, ended);
      var u := Unended(rest, ended);
      assert forall i :: 0 <= i < |u| ==> u[i] in u;
      OrderGrows(rest, x, u);
    }
  }

  // The newest thing said of its id.
  ghost predicate LastSaid(states: seq<CommandState>, i: int) {
    0 <= i < |states| && forall j :: i < j < |states| ==> states[j].id != states[i].id
  }

  ghost predicate Names(states: seq<CommandState>, id: int) { exists i :: 0 <= i < |states| && states[i].id == id }

  // The read's states by id; of two for one id, the later.
  function ById(states: seq<CommandState>): (m: map<int, CommandState>)
    ensures forall id :: id in m ==> m[id].id == id && m[id] in states
    ensures forall id :: id in m <==> Names(states, id)
    ensures forall i :: LastSaid(states, i) ==> states[i].id in m && m[states[i].id] == states[i]
  {
    if states == [] then map[]
    else
      var s := states[|states| - 1];
      assert states == states[..|states| - 1] + [s];
      assert forall i :: LastSaid(states, i) && i < |states| - 1 ==> LastSaid(states[..|states| - 1], i);
      ById(states[..|states| - 1])[s.id := s]
  }

  function EndedAfter(ended: map<int, CommandState>, live: seq<int>,
      answered: map<int, CommandState>): map<int, CommandState> {
    ended + map id | id in live && id in answered && IsTerminal(answered[id].status) :: answered[id]
  }

  // A read's states folded into the whole watch.
  function MergeEnded(w: Watch, live: seq<int>, states: seq<CommandState>): (Watch, WatchRead) {
    var answered := ById(states);
    if exists id :: id in live && id !in answered then (w, ReadFailed(""))
    else
      var ended := EndedAfter(w.ended, live, answered);
      (w.(ended := ended), Ok(WholeWatch(w.ids, ended, answered)))
  }

  function WholeWatch(ids: seq<int>, ended: map<int, CommandState>,
      answered: map<int, CommandState>): (states: seq<CommandState>)
    ensures |states| == |ids|
    ensures forall i :: 0 <= i < |ids| ==>
      states[i] == if ids[i] in ended then ended[ids[i]] else if ids[i] in answered then answered[ids[i]]
        else CommandState(ids[i], Unknown, None)
  {
    seq(|ids|, i requires 0 <= i < |ids| =>
      if ids[i] in ended then ended[ids[i]] else if ids[i] in answered then answered[ids[i]]
      else CommandState(ids[i], Unknown, None))
  }

  // What a live watch does with a poll's outcome.
  function Conclude(s: State, t: Token, read: WatchRead): State
    requires t in s.watches
  {
    var w := s.watches[t];
    var (step, counters) := WatchStep(read, w.counters);
    var u := s.(watches := s.watches[t := w.(counters := counters)]);
    match step
    case Done(states) => u.(live := u.live - {w.key}, log := u.log + [Updated(t, states), Finished(t, states)])
    case Stop(how, error) => u.(live := u.live - {w.key}, log := u.log + [Stopped(t, how, error)])
    case Poll(_, newest) =>
      Schedule(if newest.Some? then u.(log := u.log + [Updated(t, newest.value)]) else u, t)
  }

  // The state between a timer's firing and what its watch makes of it.
  function Fired(s: State, h: nat): State
    requires h in s.timers && s.timers[h] in s.watches
  {
    var t := s.timers[h];
    s.(timers := s.timers - {h}, watches := s.watches[t := s.watches[t].(handle := None)])
  }

  // A read goes out for the ids that have not ended.
  function Ask(s: State, t: Token): State
    requires t in s.watches
  {
    var live := Unended(s.watches[t].ids, s.watches[t].ended);
    s.(readings := s.readings[s.nextReading := Reading(t, live)], nextReading := s.nextReading + 1,
       log := s.log + [Asked(t, live)])
  }

  // A timer fires: hidden, the poll is over at once; visible, a read goes out.
  function Fire(s: State, h: nat, hidden: bool): State
    requires h in s.timers && s.timers[h] in s.watches
  {
    var t, v := s.timers[h], Fired(s, h);
    if !IsLive(v, t) then v else if hidden then Conclude(v, t, Skipped) else Ask(v, t)
  }

  // The answer folded into its watch, before the watch is asked what to make of it.
  function Folded(s: State, r: nat, answer: WatchRead): (State, WatchRead)
    requires r in s.readings && s.readings[r].token in s.watches
  {
    var t := s.readings[r].token;
    var (w, read) := if answer.Ok? then MergeEnded(s.watches[t], s.readings[r].live, answer.states)
      else (s.watches[t], answer);
    (s.(readings := s.readings - {r}, watches := s.watches[t := w]), read)
  }

  function Resolve(s: State, r: nat, answer: WatchRead): State
    requires r in s.readings && s.readings[r].token in s.watches
  {
    var t := s.readings[r].token;
    var (v, read) := Folded(s, r, answer);
    if IsLive(v, t) then Conclude(v, t, read) else v
  }

  datatype Event =
    | StartWatch(key: Key, ids: seq<int>)
    | StopWatch(key: Key)
    | StopAll
    | Dispose
    | Resume
    | TimerFires(handle: nat, hidden: bool)
    | ReadAnswers(reading: nat, answer: WatchRead)

  function Next(s: State, e: Event): Option<State> {
    match e
    case StartWatch(key, ids) => Some(Start(s, key, ids))
    case StopWatch(key) => Some(Retire(s, key))
    case StopAll => Some(RetireAll(s))
    case Dispose => Some(RetireAll(s).(disposed := true))
    case Resume => Some(s.(disposed := false))
    case TimerFires(h, hidden) => if h in s.timers && s.timers[h] in s.watches then Some(Fire(s, h, hidden)) else None
    // A read that went out never answers "skipped".
    case ReadAnswers(r, answer) =>
      if r in s.readings && s.readings[r].token in s.watches && !answer.Skipped? then Some(Resolve(s, r, answer))
      else None
  }

  datatype Trace = Begin | Then(before: Trace, event: Event)

  function Run(trace: Trace): Option<State> {
    match trace
    case Begin => Some(Init())
    case Then(before, event) =>
      match Run(before)
      case None => None
      case Some(s) => Next(s, event)
  }

  // ── one continuation per watch ─────────────────────────────────────────────

  // What can still call a watch back: a timer, or a read in flight.
  datatype Pending = Timer(handle: nat) | InFlight(reading: nat)

  predicate Awaits(s: State, t: Token, p: Pending) {
    match p
    case Timer(h) => h in s.timers && s.timers[h] == t
    case InFlight(r) => r in s.readings && s.readings[r].token == t
  }

  // Every watch, live or not, waits on at most one of them.
  ghost predicate OneAtMost(s: State) {
    forall t, p, q :: Awaits(s, t, p) && Awaits(s, t, q) ==> p == q
  }

  // The watch waits on something; if that is a timer it is its own, and not cancelled.
  ghost predicate Waits(s: State, t: Token)
    requires t in s.watches
  {
    match s.watches[t].handle
    case Some(h) => Awaits(s, t, Timer(h)) && h !in s.cancelled
    case None => exists r :: Awaits(s, t, InFlight(r))
  }

  ghost predicate LiveAwaits(s: State) {
    forall t :: IsLive(s, t) ==> Waits(s, t)
  }

  ghost predicate HandlesFresh(s: State) {
    && (forall h :: h in s.timers ==> h < s.nextHandle && s.timers[h] in s.watches)
    && (forall h :: h in s.cancelled ==> h < s.nextHandle)
    && (forall r :: r in s.readings ==> r < s.nextReading && s.readings[r].token in s.watches)
    && (forall t :: t in s.watches ==> 0 < t <= s.last)
    && (forall key :: key in s.live ==> s.live[key] in s.watches && s.watches[s.live[key]].key == key)
    && (forall t :: t in s.watches && s.watches[t].handle.Some? ==> s.watches[t].handle.value < s.nextHandle)
    && (s.disposed ==> s.live == map[])
  }

  // No two watches share a handle.
  ghost predicate HandlesApart(s: State) {
    forall t, u :: t in s.watches && u in s.watches ==>
      s.watches[t].handle.Some? && s.watches[t].handle == s.watches[u].handle ==> t == u
  }

  ghost predicate Wired(s: State) {
    HandlesFresh(s) && HandlesApart(s) && OneAtMost(s) && LiveAwaits(s)
  }

  lemma StillWaits(s: State, v: State, t: Token)
    requires t in s.watches && t in v.watches && s.watches[t].handle == v.watches[t].handle && Waits(s, t)
    requires s.watches[t].handle.Some? && s.watches[t].handle.value in v.cancelled ==>
      s.watches[t].handle.value in s.cancelled
    requires forall p :: Awaits(s, t, p) ==> Awaits(v, t, p)
    ensures Waits(v, t)
  {
    match s.watches[t].handle
    case Some(h) => assert Awaits(s, t, Timer(h));
    case None => var r :| Awaits(s, t, InFlight(r)); assert Awaits(v, t, InFlight(r));
  }

  lemma RetireKeepsHandles(s: State, key: Key)
    requires HandlesFresh(s) && HandlesApart(s)
    ensures HandlesFresh(Retire(s, key)) && HandlesApart(Retire(s, key))
  {
  }

  lemma RetireKeepsWaiting(s: State, key: Key)
    requires HandlesFresh(s) && HandlesApart(s) && LiveAwaits(s)
    ensures LiveAwaits(Retire(s, key)) && forall x, p :: Awaits(Retire(s, key), x, p) <==> Awaits(s, x, p)
  {
    var v := Retire(s, key);
    assert forall x, p :: Awaits(v, x, p) <==> Awaits(s, x, p);
    forall x | IsLive(v, x)
      ensures Waits(v, x)
    {
      assert IsLive(s, x) && Waits(s, x);
      StillWaits(s, v, x);
    }
  }

  lemma RetireKeepsWired(s: State, key: Key)
    requires Wired(s)
    ensures Wired(Retire(s, key))
  {
    RetireKeepsHandles(s, key);
    RetireKeepsWaiting(s, key);
  }

  lemma RetireAllKeepsWired(s: State)
    requires Wired(s)
    ensures Wired(RetireAll(s))
  {
    var t := RetireAll(s);
    assert forall x, p :: Awaits(t, x, p) <==> Awaits(s, x, p);
  }

  // A watch whose continuation has just been taken.
  ghost predicate WiredBut(s: State, t: Token) {
    && HandlesFresh(s) && HandlesApart(s) && OneAtMost(s) && t in s.watches
    && (forall p :: !Awaits(s, t, p))
    && (forall x :: IsLive(s, x) && x != t ==> Waits(s, x))
  }

  lemma ScheduleKeepsHandles(s: State, t: Token)
    requires HandlesFresh(s) && HandlesApart(s) && t in s.watches
    ensures HandlesFresh(Schedule(s, t)) && HandlesApart(Schedule(s, t))
  {
  }

  lemma ScheduleAwaits(s: State, t: Token)
    requires HandlesFresh(s) && t in s.watches
    ensures forall x, p :: Awaits(Schedule(s, t), x, p) <==> Awaits(s, x, p) || (x == t && p == Timer(s.nextHandle))
  {
  }

  // Scheduling a watch that waits on nothing gives it its one continuation.
  lemma ScheduleKeepsWired(s: State, t: Token)
    requires WiredBut(s, t)
    ensures Wired(Schedule(s, t))
  {
    var u := Schedule(s, t);
    ScheduleKeepsHandles(s, t);
    ScheduleAwaits(s, t);
    forall x | IsLive(u, x)
      ensures Waits(u, x)
    {
      assert IsLive(s, x);
      if x == t {
        assert Awaits(u, t, Timer(s.nextHandle));
      } else {
        StillWaits(s, u, x);
      }
    }
  }

  lemma BornKeepsHandles(s: State, key: Key, ids: seq<int>)
    requires HandlesFresh(s) && HandlesApart(s) && !s.disposed
    ensures HandlesFresh(Born(s, key, ids)) && HandlesApart(Born(s, key, ids)) && s.last + 1 !in s.watches
  {
  }

  lemma BornIsWired(s: State, key: Key, ids: seq<int>)
    requires Wired(s) && !s.disposed && key !in s.live
    ensures WiredBut(Born(s, key, ids), s.last + 1)
  {
    var u, t := Born(s, key, ids), s.last + 1;
    BornKeepsHandles(s, key, ids);
    assert forall p :: !Awaits(s, t, p);
    assert forall x, p :: Awaits(u, x, p) <==> Awaits(s, x, p);
    forall x | IsLive(u, x) && x != t
      ensures Waits(u, x)
    {
      assert IsLive(s, x);
      StillWaits(s, u, x);
    }
  }

  lemma StartKeepsWired(s: State, key: Key, ids: seq<int>)
    requires Wired(s)
    ensures Wired(Start(s, key, ids))
  {
    RetireKeepsWired(s, key);
    var r := Retire(s, key);
    if !s.disposed && ids != [] {
      BornIsWired(r, key, ids);
      ScheduleKeepsWired(Born(r, key, ids), s.last + 1);
    }
  }

  // New counters and a longer log leave the wiring as it was.
  lemma CountingKeepsWired(s: State, t: Token, counters: Counters, log: seq<Report>)
    requires WiredBut(s, t)
    ensures WiredBut(s.(watches := s.watches[t := s.watches[t].(counters := counters)], log := log), t)
  {
    var v := s.(watches := s.watches[t := s.watches[t].(counters := counters)], log := log);
    assert forall x, p :: Awaits(v, x, p) <==> Awaits(s, x, p);
    forall x | IsLive(v, x) && x != t
      ensures Waits(v, x)
    {
      assert IsLive(s, x);
      StillWaits(s, v, x);
    }
  }

  lemma EndingKeepsWired(s: State, t: Token, log: seq<Report>)
    requires WiredBut(s, t) && IsLive(s, t)
    ensures Wired(s.(live := s.live - {s.watches[t].key}, log := log))
  {
    var v := s.(live := s.live - {s.watches[t].key}, log := log);
    assert forall x, p :: Awaits(v, x, p) <==> Awaits(s, x, p);
    forall x | IsLive(v, x)
      ensures Waits(v, x)
    {
      assert IsLive(s, x) && x != t;
      StillWaits(s, v, x);
    }
  }

  lemma ConcludeKeepsWired(s: State, t: Token, read: WatchRead)
    requires WiredBut(s, t) && IsLive(s, t)
    ensures Wired(Conclude(s, t, read))
  {
    var (step, counters) := WatchStep(read, s.watches[t].counters);
    var u := s.(watches := s.watches[t := s.watches[t].(counters := counters)]);
    CountingKeepsWired(s, t, counters, s.log);
    match step
    case Done(states) => EndingKeepsWired(u, t, u.log + [Updated(t, states), Finished(t, states)]);
    case Stop(how, error) => EndingKeepsWired(u, t, u.log + [Stopped(t, how, error)]);
    case Poll(_, newest) =>
      var more := if newest.Some? then s.log + [Updated(t, newest.value)] else s.log;
      CountingKeepsWired(s, t, counters, more);
      ScheduleKeepsWired(u.(log := more), t);
  }

  lemma FiredIsWired(s: State, h: nat)
    requires Wired(s) && h in s.timers
    ensures WiredBut(Fired(s, h), s.timers[h])
  {
    var t, v := s.timers[h], Fired(s, h);
    assert Awaits(s, t, Timer(h));
    assert forall x, p :: Awaits(v, x, p) <==> (Awaits(s, x, p) && p != Timer(h));
    forall x | IsLive(v, x) && x != t
      ensures Waits(v, x)
    {
      assert IsLive(s, x);
      StillWaits(s, v, x);
    }
  }

  lemma FireKeepsWired(s: State, h: nat, hidden: bool)
    requires Wired(s) && h in s.timers
    ensures Wired(Fire(s, h, hidden))
  {
    var t, v := s.timers[h], Fired(s, h);
    FiredIsWired(s, h);
    if IsLive(v, t) {
      if hidden {
        ConcludeKeepsWired(v, t, Skipped);
      } else {
        AskingKeepsWired(v, t);
      }
    }
  }

  lemma AskingKeepsWired(s: State, t: Token)
    requires WiredBut(s, t) && s.watches[t].handle.None?
    ensures Wired(Ask(s, t))
  {
    var u := Ask(s, t);
    assert forall x, p :: Awaits(u, x, p) ==> Awaits(s, x, p) || (x == t && p == InFlight(s.nextReading));
    assert forall x, p :: Awaits(s, x, p) ==> Awaits(u, x, p);
    forall x | IsLive(u, x)
      ensures Waits(u, x)
    {
      if x == t {
        assert Awaits(u, t, InFlight(s.nextReading));
      } else {
        assert IsLive(s, x);
        StillWaits(s, u, x);
      }
    }
  }

  lemma FoldedIsWired(s: State, r: nat, answer: WatchRead)
    requires Wired(s) && r in s.readings
    ensures WiredBut(Folded(s, r, answer).0, s.readings[r].token)
  {
    var t, v := s.readings[r].token, Folded(s, r, answer).0;
    assert v.watches[t].key == s.watches[t].key && v.watches[t].handle == s.watches[t].handle;
    assert Awaits(s, t, InFlight(r));
    assert forall x, p :: Awaits(v, x, p) <==> (Awaits(s, x, p) && p != InFlight(r));
    forall x | IsLive(v, x) && x != t
      ensures Waits(v, x)
    {
      assert IsLive(s, x);
      StillWaits(s, v, x);
    }
  }

  lemma ResolveKeepsWired(s: State, r: nat, answer: WatchRead)
    requires Wired(s) && r in s.readings
    ensures Wired(Resolve(s, r, answer))
  {
    var t := s.readings[r].token;
    var (v, read) := Folded(s, r, answer);
    FoldedIsWired(s, r, answer);
    if IsLive(v, t) {
      ConcludeKeepsWired(v, t, read);
    }
  }

  lemma StepKeepsWired(s: State, e: Event)
    requires Wired(s) && Next(s, e).Some?
    ensures Wired(Next(s, e).value)
  {
    match e
    case StartWatch(key, ids) => StartKeepsWired(s, key, ids);
    case StopWatch(key) => RetireKeepsWired(s, key);
    case StopAll => RetireAllKeepsWired(s);
    case Dispose =>
      RetireAllKeepsWired(s);
      var u, v := RetireAll(s), Next(s, e).value;
      assert forall x, p :: Awaits(v, x, p) <==> Awaits(u, x, p);
    case Resume =>
      var v := Next(s, e).value;
      assert forall x, p :: Awaits(v, x, p) <==> Awaits(s, x, p);
      assert forall x :: IsLive(v, x) ==> IsLive(s, x) && Waits(s, x) && Waits(v, x);
    case TimerFires(h, hidden) => FireKeepsWired(s, h, hidden);
    case ReadAnswers(r, answer) => ResolveKeepsWired(s, r, answer);
  }

  lemma {:induction false} AlwaysWired(trace: Trace)
    requires Run(trace).Some?
    ensures Wired(Run(trace).value)
  {
    if trace.Then? {
      AlwaysWired(trace.before);
      StepKeepsWired(Run(trace.before).value, trace.event);
    } else {
      assert forall x, p :: !Awaits(Init(), x, p);
    }
  }

  // In every reachable state a live watch has exactly one pending continuation, and its
  // token is its own; while the watcher is disposed nothing is live.
  lemma OneContinuationEach(trace: Trace, t: Token)
    requires Run(trace).Some? && IsLive(Run(trace).value, t)
    ensures exists p :: Awaits(Run(trace).value, t, p) && forall q :: Awaits(Run(trace).value, t, q) ==> q == p
    ensures forall key :: key in Run(trace).value.live && Run(trace).value.live[key] == t ==>
      key == Run(trace).value.watches[t].key
    ensures !Run(trace).value.disposed
  {
    AlwaysWired(trace);
    var s := Run(trace).value;
    assert Waits(s, t);
    match s.watches[t].handle
    case Some(h) => assert Awaits(s, t, Timer(h));
    case None => var r :| Awaits(s, t, InFlight(r)); assert Awaits(s, t, InFlight(r));
  }

  // ── what a watch reports ───────────────────────────────────────────────────

  // An id has ended with the state it ended with.
  ghost predicate WatchOk(s: State, t: Token)
    requires t in s.watches
  {
    var w := s.watches[t];
    && (forall i, j :: 0 <= i < j < |w.ids| ==> w.ids[i] != w.ids[j])
    && (forall id :: id in w.ended ==> id in w.ids && w.ended[id].id == id && IsTerminal(w.ended[id].status))
  }

  ghost predicate WatchesOk(s: State) {
    forall t :: t in s.watches ==> WatchOk(s, t)
  }

  // A read in flight asked for exactly the ids its watch still has open.
  ghost predicate ReadingsOk(s: State) {
    forall r :: r in s.readings && s.readings[r].token in s.watches ==>
      s.readings[r].live == Unended(s.watches[s.readings[r].token].ids, s.watches[s.readings[r].token].ended)
  }

  predicate HasStates(r: Report) { r.Updated? || r.Finished? }

  // A report covers every id of its watch, in start order; what it shows as over is over.
  ghost predicate ReportOk(s: State, r: Report) {
    && r.token in s.watches
    && (HasStates(r) ==>
        && |r.states| == |s.watches[r.token].ids|
        && (forall k :: 0 <= k < |r.states| ==> r.states[k].id == s.watches[r.token].ids[k])
        && (forall k :: 0 <= k < |r.states| && IsTerminal(r.states[k].status) ==>
              r.states[k].id in s.watches[r.token].ended && s.watches[r.token].ended[r.states[k].id] == r.states[k]))
    && (r.Finished? ==> AllTerminal(r.states) && !IsLive(s, r.token))
    && (r.Stopped? ==> !IsLive(s, r.token))
  }

  ghost predicate ReportsOk(s: State) {
    forall i :: 0 <= i < |s.log| ==> ReportOk(s, s.log[i])
  }

  // A later report of the same watch: nothing over is asked about or shown otherwise
  // again, and nothing is reported after the end.
  ghost predicate Follows(r: Report, later: Report) {
    r.token == later.token ==>
      && !r.Finished? && !r.Stopped?
      && (forall k :: HasStates(r) && 0 <= k < |r.states| && IsTerminal(r.states[k].status) ==>
          && (later.Asked? ==> r.states[k].id !in later.ids)
          && (HasStates(later) ==> k < |later.states| && later.states[k] == r.states[k]))
  }

  // Within one conclusion the last update and the end are reported together.
  ghost predicate LogOrdered(log: seq<Report>) {
    forall i, j :: 0 <= i < j < |log| ==> Follows(log[i], log[j])
  }

  ghost predicate Told(s: State) {
    WatchesOk(s) && ReadingsOk(s) && ReportsOk(s) && LogOrdered(s.log)
  }

  // The watch may report this next.
  ghost predicate MayReport(s: State, r: Report) {
    && r.token in s.watches
    && (HasStates(r) ==>
        && |r.states| == |s.watches[r.token].ids|
        && (forall k :: 0 <= k < |r.states| ==>
            var id := s.watches[r.token].ids[k];
            && r.states[k].id == id
            && (id in s.watches[r.token].ended ==> r.states[k] == s.watches[r.token].ended[id])
            && (IsTerminal(r.states[k].status) ==> id in s.watches[r.token].ended)))
    && (r.Asked? ==> forall id :: id in r.ids ==> id !in s.watches[r.token].ended)
  }

  lemma ReportFollows(s: State, r: Report)
    requires ReportsOk(s) && LogOrdered(s.log) && MayReport(s, r)
    requires forall i :: 0 <= i < |s.log| && s.log[i].token == r.token ==> !s.log[i].Finished? && !s.log[i].Stopped?
    ensures LogOrdered(s.log + [r])
  {
    forall i | 0 <= i < |s.log|
      ensures Follows(s.log[i], r)
    {
      assert ReportOk(s, s.log[i]);
    }
  }

  // Ids that are over stay over, whatever else changes.
  lemma ReportStays(s: State, v: State, r: Report)
    requires ReportOk(s, r) && r.token in v.watches
    requires v.watches[r.token].ids == s.watches[r.token].ids
    requires forall id :: id in s.watches[r.token].ended ==>
      id in v.watches[r.token].ended && v.watches[r.token].ended[id] == s.watches[r.token].ended[id]
    requires IsLive(v, r.token) ==> IsLive(s, r.token)
    ensures ReportOk(v, r)
  {
  }

  // The new state's watches are the old ones with perhaps more over, none come alive.
  ghost predicate Grows(s: State, v: State) {
    && (forall t :: t in s.watches ==>
        && t in v.watches && v.watches[t].ids == s.watches[t].ids
        && (forall id :: id in s.watches[t].ended ==>
           id in v.watches[t].ended && v.watches[t].ended[id] == s.watches[t].ended[id])
        && (IsLive(v, t) ==> IsLive(s, t)))
  }

  lemma ReportsStay(s: State, v: State)
    requires ReportsOk(s) && Grows(s, v) && v.log == s.log
    ensures ReportsOk(v)
  {
    forall i | 0 <= i < |v.log|
      ensures ReportOk(v, v.log[i])
    {
      ReportStays(s, v, s.log[i]);
    }
  }

  lemma RetireTold(s: State, v: State)
    requires Told(s) && HandlesFresh(s)
    requires v.watches == s.watches && v.readings == s.readings && v.log == s.log
    requires forall t :: IsLive(v, t) ==> IsLive(s, t)
    ensures Told(v)
  {
    ReportsStay(s, v);
    assert forall t :: t in v.watches ==> WatchOk(s, t) && WatchOk(v, t);
  }

  // A start adds one watch, if any, and brings no old one back.
  ghost predicate StartedFrom(s: State, v: State, key: Key, ids: seq<int>) {
    var t := s.last + 1;
    && v.log == s.log && v.readings == s.readings
    && (forall x :: x in s.watches ==> x in v.watches && v.watches[x] == s.watches[x])
    && (forall x :: x in v.watches && x !in s.watches ==> x == t)
    && (forall x :: IsLive(v, x) && x != t ==> IsLive(s, x))
    && (t in v.watches ==>
        && ids != [] && v.watches[t].handle.Some?
        && v.watches[t] == Watch(key, Distinct(ids), map[], v.watches[t].handle, Counters(0, 0, 0)))
  }

  lemma ArrivalChanges(s: State, key: Key, ids: seq<int>)
    requires s.last + 1 !in s.watches && ids != []
    ensures StartedFrom(s, Schedule(Born(s, key, ids), s.last + 1), key, ids)
  {
  }

  lemma RetireChanges(s: State, key: Key)
    ensures Retire(s, key).watches == s.watches && forall x :: IsLive(Retire(s, key), x) ==> IsLive(s, x)
  {
  }

  lemma FreshToken(s: State)
    requires HandlesFresh(s)
    ensures s.last + 1 !in s.watches
  {
  }

  lemma StartsFrom(s: State, key: Key, ids: seq<int>)
    requires s.last + 1 !in s.watches
    ensures StartedFrom(s, Start(s, key, ids), key, ids)
  {
    RetireChanges(s, key);
    if !s.disposed && ids != [] { ArrivalChanges(Retire(s, key), key, ids); }
  }

  lemma StartChanges(s: State, key: Key, ids: seq<int>)
    requires HandlesFresh(s)
    ensures s.last + 1 !in s.watches && StartedFrom(s, Start(s, key, ids), key, ids)
  {
    FreshToken(s);
    StartsFrom(s, key, ids);
  }

  lemma StartedTold(s: State, v: State, key: Key, ids: seq<int>)
    requires Told(s) && s.last + 1 !in s.watches && StartedFrom(s, v, key, ids)
    requires forall r :: r in s.readings ==> s.readings[r].token in s.watches
    ensures Told(v)
  {
    ReportsStay(s, v);
    forall x | x in v.watches
      ensures WatchOk(v, x)
    {
      if x in s.watches { assert WatchOk(s, x); }
    }
  }

  lemma StartTold(s: State, key: Key, ids: seq<int>)
    requires Told(s) && Wired(s)
    ensures Told(Start(s, key, ids))
  {
    StartChanges(s, key, ids);
    StartedTold(s, Start(s, key, ids), key, ids);
  }

  lemma ScheduleTold(s: State, t: Token)
    requires Told(s) && t in s.watches
    ensures Told(Schedule(s, t))
  {
    var v := Schedule(s, t);
    assert forall x :: IsLive(v, x) <==> IsLive(s, x);
    ReportsStay(s, v);
    assert forall x :: x in v.watches ==> WatchOk(s, x) && WatchOk(v, x);
  }

  // The timers, handles and counters are no part of what is told.
  lemma QuietlyTold(s: State, v: State)
    requires Told(s) && v.log == s.log && v.readings == s.readings && v.watches.Keys == s.watches.Keys
    requires forall t :: t in s.watches ==>
      v.watches[t].ids == s.watches[t].ids && v.watches[t].ended == s.watches[t].ended
    requires forall t :: IsLive(v, t) ==> IsLive(s, t)
    ensures Told(v)
  {
    ReportsStay(s, v);
    assert forall x :: x in v.watches ==> WatchOk(s, x) && WatchOk(v, x);
  }

  // One more report of a live watch.
  lemma ReportTold(s: State, r: Report)
    requires Told(s) && MayReport(s, r) && IsLive(s, r.token) && (r.Updated? || r.Asked?)
    ensures Told(s.(log := s.log + [r]))
  {
    var v := s.(log := s.log + [r]);
    forall i | 0 <= i < |s.log| && s.log[i].token == r.token
      ensures !s.log[i].Finished? && !s.log[i].Stopped?
    {
      assert ReportOk(s, s.log[i]);
    }
    ReportFollows(s, r);
    forall i | 0 <= i < |v.log|
      ensures ReportOk(v, v.log[i])
    {
      if i < |s.log| {
        assert ReportOk(s, s.log[i]);
      }
    }
    assert forall x :: x in v.watches ==> WatchOk(s, x) && WatchOk(v, x);
  }

  // The last report of a watch, as it stops being live.
  lemma EndTold(s: State, r: Report)
    requires Told(s) && HandlesFresh(s) && MayReport(s, r) && IsLive(s, r.token)
    requires r.Stopped? || (r.Finished? && AllTerminal(r.states))
    ensures Told(s.(log := s.log + [r], live := s.live - {s.watches[r.token].key}))
  {
    var v := s.(log := s.log + [r], live := s.live - {s.watches[r.token].key});
    forall i | 0 <= i < |s.log| && s.log[i].token == r.token
      ensures !s.log[i].Finished? && !s.log[i].Stopped?
    {
      assert ReportOk(s, s.log[i]);
    }
    ReportFollows(s, r);
    assert forall x :: IsLive(v, x) ==> IsLive(s, x);
    forall i | 0 <= i < |v.log|
      ensures ReportOk(v, v.log[i])
    {
      if i < |s.log| {
        ReportStays(s, v, s.log[i]);
      }
    }
    assert forall x :: x in v.watches ==> WatchOk(s, x) && WatchOk(v, x);
  }

  // The answer, when it is one, covers the watch and shows what has ended as it ended.
  ghost predicate ReadCovers(s: State, t: Token, read: WatchRead)
    requires t in s.watches
  {
    read.Ok? ==> MayReport(s, Updated(t, read.states))
  }

  lemma DoneTold(s: State, t: Token, states: seq<CommandState>)
    requires Told(s) && HandlesFresh(s) && IsLive(s, t) && MayReport(s, Updated(t, states)) && AllTerminal(states)
    ensures Told(s.(live := s.live - {s.watches[t].key}, log := s.log + [Updated(t, states), Finished(t, states)]))
  {
    ReportTold(s, Updated(t, states));
    var v := s.(log := s.log + [Updated(t, states)]);
    EndTold(v, Finished(t, states));
    assert v.log + [Finished(t, states)] == s.log + [Updated(t, states), Finished(t, states)];
  }

  lemma PollTold(s: State, t: Token, newest: Option<seq<CommandState>>)
    requires Told(s) && IsLive(s, t) && (newest.Some? ==> MayReport(s, Updated(t, newest.value)))
    ensures Told(Schedule(if newest.Some? then s.(log := s.log + [Updated(t, newest.value)]) else s, t))
  {
    if newest.Some? {
      ReportTold(s, Updated(t, newest.value));
      ScheduleTold(s.(log := s.log + [Updated(t, newest.value)]), t);
    } else {
      ScheduleTold(s, t);
    }
  }

  function Counted(s: State, t: Token, counters: Counters): State
    requires t in s.watches
  {
    s.(watches := s.watches[t := s.watches[t].(counters := counters)])
  }

  lemma CountedTold(s: State, t: Token, counters: Counters)
    requires Told(s) && HandlesFresh(s) && IsLive(s, t)
    ensures Told(Counted(s, t, counters)) && HandlesFresh(Counted(s, t, counters)) && IsLive(Counted(s, t, counters), t)
  {
    var u := Counted(s, t, counters);
    assert forall x :: IsLive(u, x) <==> IsLive(s, x);
    QuietlyTold(s, u);
  }

  lemma ConcludeTold(s: State, t: Token, read: WatchRead)
    requires Told(s) && HandlesFresh(s) && IsLive(s, t) && ReadCovers(s, t, read)
    ensures Told(Conclude(s, t, read))
  {
    var (step, counters) := WatchStep(read, s.watches[t].counters);
    var u := Counted(s, t, counters);
    CountedTold(s, t, counters);
    assert ReadCovers(u, t, read);
    match step
    case Done(states) => DoneTold(u, t, states);
    case Stop(how, error) => EndTold(u, Stopped(t, how, error));
    case Poll(_, newest) => PollTold(u, t, newest);
  }

  lemma FiredTold(s: State, h: nat)
    requires Told(s) && Wired(s) && h in s.timers
    ensures Told(Fired(s, h)) && HandlesFresh(Fired(s, h)) && s.timers[h] in Fired(s, h).watches
  {
    var v := Fired(s, h);
    assert forall x :: IsLive(v, x) <==> IsLive(s, x);
    QuietlyTold(s, v);
    FiredIsWired(s, h);
  }

  lemma VisibleTold(s: State, t: Token)
    requires Told(s) && HandlesFresh(s) && IsLive(s, t)
    ensures Told(Ask(s, t))
  {
    ReportTold(s, Asked(t, Unended(s.watches[t].ids, s.watches[t].ended)));
    AskTold(s, t);
  }

  lemma FireTold(s: State, h: nat, hidden: bool)
    requires Told(s) && Wired(s) && h in s.timers
    ensures Told(Fire(s, h, hidden))
  {
    var t, v := s.timers[h], Fired(s, h);
    FiredTold(s, h);
    if IsLive(v, t) {
      if hidden { ConcludeTold(v, t, Skipped); } else { VisibleTold(v, t); }
    }
  }

  lemma AskTold(s: State, t: Token)
    requires HandlesFresh(s) && t in s.watches
    requires Told(s.(log := s.log + [Asked(t, Unended(s.watches[t].ids, s.watches[t].ended))]))
    ensures Told(Ask(s, t))
  {
    var u, v := s.(log := s.log + [Asked(t, Unended(s.watches[t].ids, s.watches[t].ended))]), Ask(s, t);
    assert forall x :: IsLive(v, x) <==> IsLive(u, x);
    ReportsStay(u, v);
    assert forall x :: x in v.watches ==> WatchOk(u, x) && WatchOk(v, x);
  }

  // The answer seen for the whole watch: what had ended as it ended, and of every other id
  // the newest thing said of it.
  ghost predicate Covers(w: Watch, states: seq<CommandState>, whole: seq<CommandState>) {
    && |whole| == |w.ids|
    && forall k :: 0 <= k < |w.ids| ==>
      if w.ids[k] in w.ended then whole[k] == w.ended[w.ids[k]]
      else forall i :: LastSaid(states, i) && states[i].id == w.ids[k] ==> whole[k] == states[i]
  }

  // What folding a read in makes of its watch. It counts as an answer exactly when it
  // names every id asked about.
  lemma MergeMeans(w: Watch, live: seq<int>, states: seq<CommandState>)
    requires live == Unended(w.ids, w.ended)
    requires forall id :: id in w.ended ==> id in w.ids && w.ended[id].id == id && IsTerminal(w.ended[id].status)
    ensures var (u, read) := MergeEnded(w, live, states);
      && u == w.(ended := u.ended)
      && (forall id :: id in w.ended ==> id in u.ended && u.ended[id] == w.ended[id])
      && (forall id :: id in u.ended ==> id in w.ids && u.ended[id].id == id && IsTerminal(u.ended[id].status))
      && (read.Ok? <==> forall id :: id in live ==> Names(states, id))
      && (!read.Ok? ==> u == w && read == ReadFailed(""))
      && (read.Ok? ==> Covers(w, states, read.states))
      && (read.Ok? ==>
          && |read.states| == |w.ids|
          && forall k :: 0 <= k < |w.ids| ==>
            && read.states[k].id == w.ids[k]
            && (w.ids[k] in u.ended ==> read.states[k] == u.ended[w.ids[k]])
            && (IsTerminal(read.states[k].status) <==> w.ids[k] in u.ended))
  {
    var answered := ById(states);
    if !(exists id :: id in live && id !in answered) {
      var ended := EndedAfter(w.ended, live, answered);
      forall k | 0 <= k < |w.ids|
        ensures var st := WholeWatch(w.ids, ended, answered)[k];
          && st.id == w.ids[k] && (w.ids[k] in ended ==> st == ended[w.ids[k]])
             && (IsTerminal(st.status) <==> w.ids[k] in ended)
      {
        assert w.ids[k] in w.ids;
        if w.ids[k] !in w.ended { assert w.ids[k] in live; }
      }
    }
  }

  lemma FoldedCovers(s: State, r: nat, answer: WatchRead)
    requires WatchesOk(s) && ReadingsOk(s) && r in s.readings && s.readings[r].token in s.watches
    ensures Grows(s, Folded(s, r, answer).0) && WatchesOk(Folded(s, r, answer).0)
    ensures ReadCovers(Folded(s, r, answer).0, s.readings[r].token, Folded(s, r, answer).1)
  {
    var t, v := s.readings[r].token, Folded(s, r, answer).0;
    assert WatchOk(s, t);
    if answer.Ok? { MergeMeans(s.watches[t], s.readings[r].live, answer.states); }
    FoldedChanges(s, r, answer);
    forall x | x in v.watches
      ensures WatchOk(v, x)
    {
      assert WatchOk(s, x);
    }
  }

  lemma FoldedTold(s: State, r: nat, answer: WatchRead)
    requires Told(s) && Wired(s) && r in s.readings
    ensures Told(Folded(s, r, answer).0)
    ensures ReadCovers(Folded(s, r, answer).0, s.readings[r].token, Folded(s, r, answer).1)
  {
    FoldedCovers(s, r, answer);
    ReportsStay(s, Folded(s, r, answer).0);
    FoldedReadings(s, r, answer);
  }

  // The other reads in flight are other watches' reads.
  lemma FoldedReadings(s: State, r: nat, answer: WatchRead)
    requires ReadingsOk(s) && OneAtMost(s) && r in s.readings && s.readings[r].token in s.watches
    ensures ReadingsOk(Folded(s, r, answer).0)
  {
    var t, v := s.readings[r].token, Folded(s, r, answer).0;
    FoldedChanges(s, r, answer);
    assert Awaits(s, t, InFlight(r));
    forall q | q in v.readings && v.readings[q].token in v.watches
      ensures v.readings[q].token != t
    {
      assert Awaits(s, v.readings[q].token, InFlight(q));
    }
  }

  lemma StepTold(s: State, e: Event)
    requires Told(s) && Wired(s) && Next(s, e).Some?
    ensures Told(Next(s, e).value)
  {
    var v := Next(s, e).value;
    match e
    case StartWatch(key, ids) => StartTold(s, key, ids);
    case StopWatch(key) => RetireTold(s, v);
    case StopAll => RetireTold(s, v);
    case Dispose => RetireTold(s, v);
    case Resume => RetireTold(s, v);
    case TimerFires(h, hidden) => FireTold(s, h, hidden);
    case ReadAnswers(r, answer) =>
      FoldedTold(s, r, answer);
      FoldedIsWired(s, r, answer);
      if IsLive(Folded(s, r, answer).0, s.readings[r].token) {
        ConcludeTold(Folded(s, r, answer).0, s.readings[r].token, Folded(s, r, answer).1);
      }
  }

  lemma {:induction false} AlwaysTold(trace: Trace)
    requires Run(trace).Some?
    ensures Wired(Run(trace).value) && Told(Run(trace).value)
  {
    AlwaysWired(trace);
    if trace.Then? {
      AlwaysTold(trace.before);
      StepTold(Run(trace.before).value, trace.event);
    }
  }

  // Whatever the host, the timers and the answers do: every report of a watch covers
  // each of its ids once, in start order; it is finished at most once, and only with
  // every id over; nothing of it is reported after that; and an id seen over keeps the
  // state it was seen with and is never asked about again.
  lemma ReportsAreTrue(trace: Trace, s: State, i: nat, j: nat)
    requires Run(trace) == Some(s) && i < j < |s.log| && s.log[i].token == s.log[j].token
    ensures var a, b := s.log[i], s.log[j];
      a.token in s.watches &&
      var ids := s.watches[a.token].ids;
      && (forall m, n :: 0 <= m < n < |ids| ==> ids[m] != ids[n])
      && !a.Finished? && !a.Stopped?
      && (b.Finished? ==> AllTerminal(b.states))
      && (HasStates(b) ==> |b.states| == |ids| && forall k :: 0 <= k < |ids| ==> b.states[k].id == ids[k])
      && (HasStates(a) ==> |a.states| == |ids| && forall k :: 0 <= k < |ids| && IsTerminal(a.states[k].status) ==>
            && (HasStates(b) ==> b.states[k] == a.states[k])
            && (b.Asked? ==> ids[k] !in b.ids))
  {
    AlwaysTold(trace);
    assert ReportOk(s, s.log[i]) && ReportOk(s, s.log[j]) && Follows(s.log[i], s.log[j]);
    assert WatchOk(s, s.log[i].token);
  }

  // ── how long a watch goes on ───────────────────────────────────────────────

  ghost predicate Open(s: State, t: Token)
    requires t in s.watches
  {
    exists id :: id in s.watches[t].ids && id !in s.watches[t].ended
  }

  ghost predicate LiveOpen(s: State) {
    forall t :: IsLive(s, t) ==> Open(s, t)
  }

  lemma StaysOpen(s: State, v: State)
    requires LiveOpen(s)
    requires forall t :: IsLive(v, t) ==>
      IsLive(s, t) && v.watches[t].ids == s.watches[t].ids && v.watches[t].ended == s.watches[t].ended
    ensures LiveOpen(v)
  {
    forall t | IsLive(v, t)
      ensures Open(v, t)
    {
      assert Open(s, t);
    }
  }

  // What a conclusion leaves alone: ids, endings, other watches; and when it leaves the
  // watch live, the give-up rule said to poll.
  lemma ConcludeChanges(s: State, t: Token, read: WatchRead)
    requires IsLive(s, t)
    ensures var v := Conclude(s, t, read);
      && v.watches.Keys == s.watches.Keys
      && (forall x :: IsLive(v, x) ==> IsLive(s, x))
      && (forall x :: x in s.watches ==>
         v.watches[x].ids == s.watches[x].ids && v.watches[x].ended == s.watches[x].ended)
      && (forall x :: x in s.watches && x != t ==> v.watches[x] == s.watches[x])
      && (IsLive(v, t) ==>
          && WatchStep(read, s.watches[t].counters).0.Poll?
          && v.watches[t].counters == WatchStep(read, s.watches[t].counters).1 && v.watches[t].handle.Some?)
      && s.log <= v.log && (forall i :: |s.log| <= i < |v.log| ==> !v.log[i].Asked?)
  {
    ConcludeKeepsLog(s, t, read);
    ConcludeEnds(s, t, read);
    ConcludeMoves(s, t, read);
  }

  // Only the watch's own counters and handle move.
  lemma ConcludeMoves(s: State, t: Token, read: WatchRead)
    requires t in s.watches
    ensures var v := Conclude(s, t, read);
      && v.watches == s.watches[t := s.watches[t].(counters := WatchStep(read, s.watches[t].counters).1,
         handle := v.watches[t].handle)]
      && (WatchStep(read, s.watches[t].counters).0.Poll? ==> v.watches[t].handle.Some?)
  {
    var (step, counters) := WatchStep(read, s.watches[t].counters);
    var u, v := Counted(s, t, counters), Conclude(s, t, read);
    if step.Poll? {
      assert v.watches == u.watches[t := u.watches[t].(handle := Some(s.nextHandle))];
    } else {
      assert v.watches == u.watches;
    }
  }

  // What a watch reports of a step.
  function ReportsOf(t: Token, step: Step): seq<Report> {
    match step
    case Done(states) => [Updated(t, states), Finished(t, states)]
    case Stop(how, error) => [Stopped(t, how, error)]
    case Poll(_, newest) => if newest.Some? then [Updated(t, newest.value)] else []
  }

  lemma ConcludeLogs(s: State, t: Token, read: WatchRead)
    requires t in s.watches
    ensures Conclude(s, t, read).log == s.log + ReportsOf(t, WatchStep(read, s.watches[t].counters).0)
  {
    assert s.log + [] == s.log;
  }

  lemma ConcludeKeepsLog(s: State, t: Token, read: WatchRead)
    requires t in s.watches
    ensures s.log <= Conclude(s, t, read).log
    ensures forall i :: |s.log| <= i < |Conclude(s, t, read).log| ==>
      Conclude(s, t, read).log[i].token == t && !Conclude(s, t, read).log[i].Asked?
  {
    ConcludeLogs(s, t, read);
  }

  lemma ConcludeEnds(s: State, t: Token, read: WatchRead)
    requires IsLive(s, t)
    ensures Conclude(s, t, read).live == if WatchStep(read, s.watches[t].counters).0.Poll? then s.live
      else s.live - {s.watches[t].key}
  {
  }

  lemma ConcludeStaysOpen(s: State, t: Token, read: WatchRead)
    requires IsLive(s, t) && WatchOk(s, t) && ReadCovers(s, t, read) && (!read.Ok? ==> Open(s, t))
    requires forall x :: IsLive(s, x) && x != t ==> Open(s, x)
    ensures LiveOpen(Conclude(s, t, read))
  {
    ConcludeChanges(s, t, read);
    if read.Ok? && WatchStep(read, s.watches[t].counters).0.Poll? {
      var k :| 0 <= k < |read.states| && !IsTerminal(read.states[k].status);
      OpenAt(s, t, read.states, k);
    }
    OpenKept(s, Conclude(s, t, read), t);
  }

  lemma OpenKept(s: State, v: State, t: Token)
    requires v.watches.Keys == s.watches.Keys && forall x :: IsLive(v, x) ==> IsLive(s, x)
    requires forall x :: x in s.watches ==>
      v.watches[x].ids == s.watches[x].ids && v.watches[x].ended == s.watches[x].ended
    requires forall x :: IsLive(s, x) && x != t ==> Open(s, x)
    requires IsLive(v, t) ==> Open(s, t)
    ensures LiveOpen(v)
  {
    forall x | IsLive(v, x)
      ensures Open(v, x)
    {
      assert IsLive(s, x) && Open(s, x);
    }
  }

  // An id shown as still going has not ended.
  lemma OpenAt(s: State, t: Token, states: seq<CommandState>, k: nat)
    requires MayReport(s, Updated(t, states)) && WatchOk(s, t)
    requires k < |states| && !IsTerminal(states[k].status)
    ensures Open(s, t)
  {
    assert s.watches[t].ids[k] in s.watches[t].ids;
  }

  // A watch still followed has an id that has not ended: every poll asks about something.
  lemma {:induction false} AlwaysOpen(trace: Trace)
    requires Run(trace).Some?
    ensures LiveOpen(Run(trace).value)
  {
    if trace.Then? {
      AlwaysOpen(trace.before);
      AlwaysTold(trace.before);
      StepStaysOpen(Run(trace.before).value, trace.event);
    }
  }

  lemma StepStaysOpen(s: State, e: Event)
    requires LiveOpen(s) && Wired(s) && Told(s) && Next(s, e).Some?
    ensures LiveOpen(Next(s, e).value)
  {
    match e
    case StartWatch(key, ids) => StartStaysOpen(s, key, ids);
    case TimerFires(h, hidden) => FireStaysOpen(s, h, hidden);
    case ReadAnswers(r, answer) => ResolveStaysOpen(s, r, answer);
    case _ => StaysOpen(s, Next(s, e).value);
  }

  lemma BornOpen(v: State, t: Token, ids: seq<int>)
    requires t in v.watches && ids != [] && v.watches[t].ids == Distinct(ids) && v.watches[t].ended == map[]
    ensures Open(v, t)
  {
    var id := ids[0];
    assert id in ids;
    assert id in v.watches[t].ids && id !in v.watches[t].ended;
  }

  lemma SameOpen(s: State, v: State, t: Token)
    requires t in s.watches && t in v.watches && v.watches[t] == s.watches[t] && Open(s, t)
    ensures Open(v, t)
  {
    var id :| id in s.watches[t].ids && id !in s.watches[t].ended;
    assert id in v.watches[t].ids;
  }

  lemma StartStaysOpen(s: State, key: Key, ids: seq<int>)
    requires LiveOpen(s) && Wired(s)
    ensures LiveOpen(Start(s, key, ids))
  {
    var v := Start(s, key, ids);
    StartChanges(s, key, ids);
    forall t | IsLive(v, t)
      ensures Open(v, t)
    {
      if t in s.watches {
        assert IsLive(s, t);
        SameOpen(s, v, t);
      } else {
        BornOpen(v, t, ids);
      }
    }
  }

  lemma FireStaysOpen(s: State, h: nat, hidden: bool)
    requires LiveOpen(s) && Wired(s) && Told(s) && h in s.timers
    ensures LiveOpen(Fire(s, h, hidden))
  {
    var t, v := s.timers[h], Fired(s, h);
    assert forall x :: IsLive(v, x) <==> IsLive(s, x);
    StaysOpen(s, v);
    if IsLive(v, t) {
      if hidden {
        assert WatchOk(s, t) && Open(v, t);
        ConcludeStaysOpen(v, t, Skipped);
      } else {
        AskStaysOpen(v, t);
      }
    }
  }

  lemma AskStaysOpen(s: State, t: Token)
    requires LiveOpen(s) && t in s.watches
    ensures LiveOpen(Ask(s, t))
  {
    StaysOpen(s, Ask(s, t));
  }

  lemma ResolveStaysOpen(s: State, r: nat, answer: WatchRead)
    requires LiveOpen(s) && Wired(s) && Told(s) && r in s.readings
    ensures LiveOpen(Resolve(s, r, answer))
  {
    var t := s.readings[r].token;
    var (v, read) := Folded(s, r, answer);
    FoldedTold(s, r, answer);
    FoldedChanges(s, r, answer);
    forall x | IsLive(v, x) && x != t
      ensures Open(v, x)
    {
      assert IsLive(s, x) && Open(s, x);
    }
    if IsLive(v, t) {
      assert IsLive(s, t) && Open(s, t);
      assert WatchOk(v, t);
      ConcludeStaysOpen(v, t, read);
    }
  }

  // Folding an answer in moves only its own watch, and only what has ended; an answer
  // that is none moves nothing.
  lemma FoldedChanges(s: State, r: nat, answer: WatchRead)
    requires r in s.readings && s.readings[r].token in s.watches
    ensures var t := s.readings[r].token;
      var (v, read) := Folded(s, r, answer);
      && v.watches.Keys == s.watches.Keys && v.log == s.log
      && (forall x :: IsLive(v, x) <==> IsLive(s, x))
      && (forall x :: x in s.watches && x != t ==> v.watches[x] == s.watches[x])
      && v.watches[t] == s.watches[t].(ended := v.watches[t].ended)
      && (!read.Ok? ==> v.watches[t] == s.watches[t])
      && (read.Skipped? ==> answer.Skipped?)
  {
  }

  // How often a watch was asked about: its visible polls.
  function TimesAsked(log: seq<Report>, t: Token): nat {
    if log == [] then 0
    else
      var r := log[|log| - 1];
      TimesAsked(log[..|log| - 1], t) + (if r.Asked? && r.token == t then 1 else 0)
  }

  lemma OneMoreReport(log: seq<Report>, r: Report, t: Token)
    ensures TimesAsked(log + [r], t) == TimesAsked(log, t) + (if r.Asked? && r.token == t then 1 else 0)
  {
    assert (log + [r])[..|log|] == log;
  }

  // The visible polls a live watch has had the outcome of are paid for; the one in
  // flight is the next.
  predicate PaidFor(s: State, t: Token)
    requires t in s.watches
  {
    var asked := TimesAsked(s.log, t);
    if s.watches[t].handle.Some? then Paid(s.watches[t].counters, asked)
    else asked > 0 && Paid(s.watches[t].counters, asked - 1)
  }

  ghost predicate LivePaid(s: State) {
    && (forall t :: IsLive(s, t) ==> PaidFor(s, t))
    && (forall t :: TimesAsked(s.log, t) <= MOST_VISIBLE_POLLS)
    && (forall t :: t !in s.watches ==> TimesAsked(s.log, t) == 0)
  }

  lemma {:induction false} AskedOnlyThen(log: seq<Report>, more: seq<Report>, t: Token)
    requires forall i :: 0 <= i < |more| ==> !more[i].Asked?
    ensures TimesAsked(log + more, t) == TimesAsked(log, t)
    decreases |more|
  {
    if more == [] {
      assert log + more == log;
    } else {
      var r := more[|more| - 1];
      AskedOnlyThen(log, more[..|more| - 1], t);
      OneMoreReport(log + more[..|more| - 1], r, t);
      assert log + more == log + more[..|more| - 1] + [r];
    }
  }

  lemma ConcludeStaysPaid(s: State, t: Token, read: WatchRead, visible: nat)
    requires IsLive(s, t)
    requires forall x :: IsLive(s, x) && x != t ==> PaidFor(s, x)
    requires forall x :: TimesAsked(s.log, x) <= MOST_VISIBLE_POLLS
    requires forall x :: x !in s.watches ==> TimesAsked(s.log, x) == 0
    requires TimesAsked(s.log, t) == visible + (if read.Skipped? then 0 else 1)
    requires Paid(s.watches[t].counters, visible)
    ensures LivePaid(Conclude(s, t, read))
  {
    var v := Conclude(s, t, read);
    ConcludeChanges(s, t, read);
    if IsLive(v, t) {
      StepStaysPaid(read, s.watches[t].counters, visible);
    }
    PaidKept(s, v, t, TimesAsked(s.log, t));
  }

  lemma PaidKept(s: State, v: State, t: Token, visible: nat)
    requires v.watches.Keys == s.watches.Keys && s.log <= v.log
    requires forall i :: |s.log| <= i < |v.log| ==> !v.log[i].Asked?
    requires forall x :: IsLive(v, x) && x != t ==> IsLive(s, x) && v.watches[x] == s.watches[x] && PaidFor(s, x)
    requires forall x :: TimesAsked(s.log, x) <= MOST_VISIBLE_POLLS
    requires forall x :: x !in s.watches ==> TimesAsked(s.log, x) == 0
    requires TimesAsked(s.log, t) == visible
    requires IsLive(v, t) ==> v.watches[t].handle.Some? && Paid(v.watches[t].counters, visible)
    ensures LivePaid(v)
  {
    forall x
      ensures TimesAsked(v.log, x) == TimesAsked(s.log, x)
    {
      NoMoreAsked(s.log, v.log, x);
    }
    forall x | IsLive(v, x)
      ensures PaidFor(v, x)
    {
      if x != t { assert PaidFor(s, x); }
    }
  }

  lemma NoMoreAsked(log: seq<Report>, more: seq<Report>, t: Token)
    requires log <= more && forall i :: |log| <= i < |more| ==> !more[i].Asked?
    ensures TimesAsked(more, t) == TimesAsked(log, t)
  {
    AskedOnlyThen(log, more[|log|..], t);
    assert more == log + more[|log|..];
  }

  lemma FireStaysPaid(s: State, h: nat, hidden: bool)
    requires LivePaid(s) && Wired(s) && h in s.timers
    ensures LivePaid(Fire(s, h, hidden))
  {
    var t, v := s.timers[h], Fired(s, h);
    assert Awaits(s, t, Timer(h));
    assert forall x :: IsLive(v, x) <==> IsLive(s, x);
    assert forall x :: IsLive(v, x) && x != t ==> PaidFor(s, x) && PaidFor(v, x);
    if IsLive(v, t) {
      assert Waits(s, t) && PaidFor(s, t);
      if hidden {
        ConcludeStaysPaid(v, t, Skipped, TimesAsked(s.log, t));
      } else {
        AskStaysPaid(v, t);
      }
    }
  }

  lemma AskStaysPaid(s: State, t: Token)
    requires IsLive(s, t) && s.watches[t].handle.None? && Paid(s.watches[t].counters, TimesAsked(s.log, t))
    requires forall x :: IsLive(s, x) && x != t ==> PaidFor(s, x)
    requires forall x :: TimesAsked(s.log, x) <= MOST_VISIBLE_POLLS
    requires forall x :: x !in s.watches ==> TimesAsked(s.log, x) == 0
    ensures LivePaid(Ask(s, t))
  {
    var u := Ask(s, t);
    forall x
      ensures TimesAsked(u.log, x) == TimesAsked(s.log, x) + (if x == t then 1 else 0)
    {
      OneMoreReport(s.log, u.log[|s.log|], x);
    }
    forall x | IsLive(u, x)
      ensures PaidFor(u, x)
    {
      assert IsLive(s, x);
      if x != t { assert PaidFor(s, x); }
    }
  }

  lemma ResolveStaysPaid(s: State, r: nat, answer: WatchRead)
    requires LivePaid(s) && Wired(s) && r in s.readings && !answer.Skipped?
    ensures LivePaid(Resolve(s, r, answer))
  {
    var t := s.readings[r].token;
    var (v, read) := Folded(s, r, answer);
    assert v.watches[t].key == s.watches[t].key && v.watches[t].handle == s.watches[t].handle
      && v.watches[t].counters == s.watches[t].counters;
    assert Awaits(s, t, InFlight(r));
    assert forall x :: IsLive(v, x) <==> IsLive(s, x);
    assert forall x :: IsLive(v, x) && x != t ==> PaidFor(s, x) && PaidFor(v, x);
    if IsLive(v, t) {
      assert Waits(s, t) && PaidFor(s, t);
      ConcludeStaysPaid(v, t, read, TimesAsked(s.log, t) - 1);
    }
  }

  lemma StartedStaysPaid(s: State, v: State, key: Key, ids: seq<int>)
    requires LivePaid(s) && s.last + 1 !in s.watches && StartedFrom(s, v, key, ids)
    ensures LivePaid(v)
  {
    forall x | IsLive(v, x)
      ensures PaidFor(v, x)
    {
      if x in s.watches { assert IsLive(s, x) && PaidFor(s, x); }
    }
  }

  lemma StartStaysPaid(s: State, key: Key, ids: seq<int>)
    requires LivePaid(s) && Wired(s)
    ensures LivePaid(Start(s, key, ids))
  {
    StartChanges(s, key, ids);
    StartedStaysPaid(s, Start(s, key, ids), key, ids);
  }

  lemma {:induction false} AlwaysPaid(trace: Trace)
    requires Run(trace).Some?
    ensures LivePaid(Run(trace).value)
  {
    if trace.Then? {
      AlwaysPaid(trace.before);
      AlwaysWired(trace.before);
      var s, v := Run(trace.before).value, Run(trace).value;
      match trace.event
      case StartWatch(key, ids) => StartStaysPaid(s, key, ids);
      case TimerFires(h, hidden) => FireStaysPaid(s, h, hidden);
      case ReadAnswers(r, answer) => ResolveStaysPaid(s, r, answer);
      case StopWatch(key) => RetireStaysPaid(s, v);
      case StopAll => RetireStaysPaid(s, v);
      case Dispose => RetireStaysPaid(s, v);
      case Resume => RetireStaysPaid(s, v);
    }
  }

  lemma RetireStaysPaid(s: State, v: State)
    requires LivePaid(s) && v.log == s.log && v.watches == s.watches
    requires forall x :: IsLive(v, x) ==> IsLive(s, x)
    ensures LivePaid(v)
  {
    forall x | IsLive(v, x)
      ensures PaidFor(v, x)
    {
      assert PaidFor(s, x);
    }
  }

  // No watch is ever asked about more than 304 times, whatever the answers; and one that
  // is still followed has an id left to ask about.
  lemma EveryWatchIsBounded(trace: Trace, t: Token)
    requires Run(trace).Some?
    ensures TimesAsked(Run(trace).value.log, t) <= MOST_VISIBLE_POLLS
    ensures IsLive(Run(trace).value, t) ==> Open(Run(trace).value, t)
  {
    AlwaysPaid(trace);
    AlwaysOpen(trace);
  }

  // ── a watch no longer live is silent for good ──────────────────────────────

  ghost predicate Extends(later: Trace, earlier: Trace) {
    later == earlier || (later.Then? && Extends(later.before, earlier))
  }

  // The watch is not live, and what was reported since is of other watches.
  ghost predicate Silent(s: State, v: State, t: Token) {
    && t in v.watches && !IsLive(v, t) && s.log <= v.log
    && forall i :: |s.log| <= i < |v.log| ==> v.log[i].token != t
  }

  lemma FireStaysSilent(s: State, h: nat, hidden: bool, t: Token)
    requires Wired(s) && h in s.timers && t in s.watches && !IsLive(s, t)
    ensures Silent(s, Fire(s, h, hidden), t)
  {
    var v := Fired(s, h);
    assert forall x :: IsLive(v, x) <==> IsLive(s, x);
    if IsLive(v, s.timers[h]) {
      if hidden {
        ConcludeChanges(v, s.timers[h], Skipped);
        ConcludeKeepsLog(v, s.timers[h], Skipped);
      } else {
        assert forall x :: IsLive(Ask(v, s.timers[h]), x) <==> IsLive(v, x);
      }
    }
  }

  lemma ResolveStaysSilent(s: State, r: nat, answer: WatchRead, t: Token)
    requires Wired(s) && r in s.readings && t in s.watches && !IsLive(s, t)
    ensures Silent(s, Resolve(s, r, answer), t)
  {
    var (v, read) := Folded(s, r, answer);
    FoldedChanges(s, r, answer);
    if IsLive(v, s.readings[r].token) {
      ConcludeChanges(v, s.readings[r].token, read);
      ConcludeKeepsLog(v, s.readings[r].token, read);
    }
  }

  lemma StepStaysSilent(s: State, e: Event, t: Token)
    requires Wired(s) && Next(s, e).Some? && t in s.watches && !IsLive(s, t)
    ensures Silent(s, Next(s, e).value, t)
  {
    match e
    case StartWatch(key, ids) => StartChanges(s, key, ids);
    case TimerFires(h, hidden) => FireStaysSilent(s, h, hidden, t);
    case ReadAnswers(r, answer) => ResolveStaysSilent(s, r, answer, t);
    case StopWatch(key) => RetireChanges(s, key);
    case StopAll =>
    case Dispose =>
    case Resume =>
  }

  // A watch once not live stays so, whatever the host, the timers and the reads do: it
  // is never asked about, updated or ended again.
  lemma {:induction false} NotLiveIsSilent(later: Trace, earlier: Trace, t: Token)
    requires Extends(later, earlier) && Run(later).Some?
    ensures Run(earlier).Some?
    ensures t in Run(earlier).value.watches && !IsLive(Run(earlier).value, t) ==>
      Silent(Run(earlier).value, Run(later).value, t)
  {
    if later != earlier {
      NotLiveIsSilent(later.before, earlier, t);
      AlwaysWired(later.before);
      if t in Run(earlier).value.watches && !IsLive(Run(earlier).value, t) {
        StepStaysSilent(Run(later.before).value, later.event, t);
      }
    }
  }

  // What the host does to be told no more of a key's watch.
  predicate LetsGo(e: Event, key: Key) {
    e.StopAll? || e.Dispose? || ((e.StopWatch? || e.StartWatch?) && e.key == key)
  }

  lemma LettingGoEnds(s: State, e: Event, t: Token)
    requires Wired(s) && t in s.watches && LetsGo(e, s.watches[t].key)
    ensures Silent(s, Next(s, e).value, t)
  {
    match e
    case StartWatch(key, ids) =>
      StartChanges(s, key, ids);
      assert !IsLive(Retire(s, key), t);
      assert !IsLive(Start(s, key, ids), t);
    case StopWatch(key) =>
    case StopAll =>
    case Dispose =>
  }

  // From the moment its key is stopped or started again, or the watcher is stopped or
  // disposed, nothing more is asked or reported of a watch, and it never comes back.
  lemma LetGoIsSilent(later: Trace, earlier: Trace, e: Event, t: Token, s: State, v: State)
    requires Run(earlier) == Some(s) && Run(later) == Some(v) && Extends(later, Then(earlier, e))
    requires t in s.watches && LetsGo(e, s.watches[t].key)
    ensures Silent(s, v, t)
  {
    AlwaysWired(earlier);
    LettingGoEnds(s, e, t);
    NotLiveIsSilent(later, Then(earlier, e), t);
  }

  // So it is from the moment it has ended of itself.
  lemma EndedIsSilent(later: Trace, earlier: Trace, s: State, v: State, i: nat)
    requires Run(earlier) == Some(s) && Run(later) == Some(v) && Extends(later, earlier)
    requires i < |s.log| && (s.log[i].Finished? || s.log[i].Stopped?)
    ensures Silent(s, v, s.log[i].token)
  {
    AlwaysTold(earlier);
    assert ReportOk(s, s.log[i]);
    NotLiveIsSilent(later, earlier, s.log[i].token);
  }

  // ── a watch ends as the give-up rule says ──────────────────────────────────

  // What the polls of a watch came to while it was live, in order.
  function Outcomes(trace: Trace, t: Token): Answers
    requires Run(trace).Some?
  {
    if trace.Begin? then NoAnswers
    else
      var s, before := Run(trace.before).value, Outcomes(trace.before, t);
      match trace.event
      case TimerFires(h, hidden) =>
        if hidden && s.timers[h] == t && IsLive(s, t) then After(before, Skipped) else before
      case ReadAnswers(r, answer) =>
        if s.readings[r].token == t && IsLive(s, t) then After(before, Folded(s, r, answer).1) else before
      case _ => before
  }

  predicate EndedBy(step: Step, r: Report) {
    match r
    case Finished(_, states) => step == Done(states)
    case Stopped(_, how, error) => step == Stop(how, error)
    case _ => true
  }

  // The end reported is the one the rule gives for the last outcome, after the others.
  predicate EndedSo(outcomes: Answers, r: Report) {
    r.Finished? || r.Stopped? ==>
      && outcomes.After? && Follow(outcomes.before).Some?
      && EndedBy(WatchStep(outcomes.read, Follow(outcomes.before).value).0, r)
  }

  // The step leaves the watch's counters alone and reports no end of it.
  ghost predicate PassesBy(s: State, v: State, t: Token) {
    && v.watches.Keys == s.watches.Keys && s.log <= v.log
    && (IsLive(v, t) ==> IsLive(s, t) && v.watches[t].counters == s.watches[t].counters)
    && (forall i :: |s.log| <= i < |v.log| && v.log[i].token == t ==> v.log[i].Asked?)
  }

  // The step puts one outcome through the rule.
  ghost predicate Takes(s: State, v: State, t: Token, read: WatchRead)
    requires t in s.watches
  {
    var (step, counters) := WatchStep(read, s.watches[t].counters);
    && v.watches.Keys == s.watches.Keys && s.log <= v.log
    && (IsLive(v, t) ==> step.Poll? && v.watches[t].counters == counters)
    && (forall i :: |s.log| <= i < |v.log| ==> EndedBy(step, v.log[i]))
  }

  lemma ConcludeTakes(s: State, t: Token, read: WatchRead)
    requires IsLive(s, t)
    ensures Takes(s, Conclude(s, t, read), t, read)
  {
    ConcludeChanges(s, t, read);
    ConcludeLogs(s, t, read);
    var step := WatchStep(read, s.watches[t].counters).0;
    assert forall k :: 0 <= k < |ReportsOf(t, step)| ==> EndedBy(step, ReportsOf(t, step)[k]);
  }

  // A watch's own poll leaves the others alone.
  lemma OthersPassBy(s: State, u: Token, read: WatchRead, t: Token)
    requires IsLive(s, u) && t != u
    ensures PassesBy(s, Conclude(s, u, read), t)
  {
    ConcludeChanges(s, u, read);
    ConcludeKeepsLog(s, u, read);
  }

  lemma AskPassesBy(s: State, u: Token, t: Token)
    requires u in s.watches
    ensures PassesBy(s, Ask(s, u), t)
  {
    assert IsLive(Ask(s, u), t) <==> IsLive(s, t);
  }

  lemma FireFollowed(s: State, h: nat, hidden: bool, t: Token)
    requires Wired(s) && h in s.timers
    ensures if hidden && s.timers[h] == t && IsLive(s, t) then Takes(s, Fire(s, h, hidden), t, Skipped)
            else PassesBy(s, Fire(s, h, hidden), t)
  {
    var u, v := s.timers[h], Fired(s, h);
    assert forall x :: IsLive(v, x) <==> IsLive(s, x);
    if IsLive(v, u) {
      if !hidden {
        AskPassesBy(v, u, t);
      } else if t == u {
        ConcludeTakes(v, u, Skipped);
      } else {
        OthersPassBy(v, u, Skipped, t);
      }
    }
  }

  lemma ResolveFollowed(s: State, r: nat, answer: WatchRead, t: Token)
    requires Wired(s) && r in s.readings
    ensures if s.readings[r].token == t && IsLive(s, t) then Takes(s, Resolve(s, r, answer), t, Folded(s, r, answer).1)
            else PassesBy(s, Resolve(s, r, answer), t)
  {
    var u := s.readings[r].token;
    var (v, read) := Folded(s, r, answer);
    FoldedChanges(s, r, answer);
    if IsLive(v, u) {
      ConcludeChanges(v, u, read);
      ConcludeKeepsLog(v, u, read);
      ConcludeTakes(v, u, read);
    }
  }

  ghost predicate Followed(s: State, outcomes: Answers, t: Token) {
    && (t !in s.watches ==> outcomes == NoAnswers)
    && (IsLive(s, t) ==> Follow(outcomes) == Some(s.watches[t].counters))
    && (forall i :: 0 <= i < |s.log| && s.log[i].token == t ==> EndedSo(outcomes, s.log[i]))
  }

  lemma PassingByFollows(s: State, v: State, outcomes: Answers, t: Token)
    requires Followed(s, outcomes, t) && PassesBy(s, v, t)
    ensures Followed(v, outcomes, t)
  {
  }

  // Until then a live watch has reported no end.
  lemma TakingFollows(s: State, v: State, outcomes: Answers, t: Token, read: WatchRead)
    requires ReportsOk(s) && IsLive(s, t) && Followed(s, outcomes, t) && Takes(s, v, t, read)
    ensures Followed(v, After(outcomes, read), t)
  {
    forall i | 0 <= i < |v.log| && v.log[i].token == t
      ensures EndedSo(After(outcomes, read), v.log[i])
    {
      if i < |s.log| { assert ReportOk(s, s.log[i]); }
    }
  }

  lemma StartFollowed(s: State, key: Key, ids: seq<int>, outcomes: Answers, t: Token)
    requires Wired(s) && Followed(s, outcomes, t)
    ensures Followed(Start(s, key, ids), outcomes, t)
  {
    StartChanges(s, key, ids);
  }

  lemma TimerFollowed(s: State, h: nat, hidden: bool, outcomes: Answers, t: Token)
    requires Wired(s) && ReportsOk(s) && h in s.timers && Followed(s, outcomes, t)
    ensures var mine := hidden && s.timers[h] == t && IsLive(s, t);
      Followed(Fire(s, h, hidden), if mine then After(outcomes, Skipped) else outcomes, t)
  {
    var v := Fire(s, h, hidden);
    FireFollowed(s, h, hidden, t);
    if hidden && s.timers[h] == t && IsLive(s, t) {
      TakingFollows(s, v, outcomes, t, Skipped);
    } else {
      PassingByFollows(s, v, outcomes, t);
    }
  }

  lemma AnswerFollowed(s: State, r: nat, answer: WatchRead, outcomes: Answers, t: Token)
    requires Wired(s) && ReportsOk(s) && r in s.readings && Followed(s, outcomes, t)
    ensures var mine := s.readings[r].token == t && IsLive(s, t);
      Followed(Resolve(s, r, answer), if mine then After(outcomes, Folded(s, r, answer).1) else outcomes, t)
  {
    var v := Resolve(s, r, answer);
    ResolveFollowed(s, r, answer, t);
    if s.readings[r].token == t && IsLive(s, t) {
      TakingFollows(s, v, outcomes, t, Folded(s, r, answer).1);
    } else {
      PassingByFollows(s, v, outcomes, t);
    }
  }

  lemma HostFollowed(s: State, e: Event, outcomes: Answers, t: Token)
    requires Followed(s, outcomes, t) && (e.StopWatch? || e.StopAll? || e.Dispose? || e.Resume?)
    ensures Followed(Next(s, e).value, outcomes, t)
  {
    PassingByFollows(s, Next(s, e).value, outcomes, t);
  }

  lemma StepFollowed(trace: Trace, t: Token)
    requires Run(trace).Some? && trace.Then? && Followed(Run(trace.before).value, Outcomes(trace.before, t), t)
    ensures Followed(Run(trace).value, Outcomes(trace, t), t)
  {
    AlwaysTold(trace.before);
    var s, outcomes := Run(trace.before).value, Outcomes(trace.before, t);
    match trace.event
    case StartWatch(key, ids) => StartFollowed(s, key, ids, outcomes, t);
    case TimerFires(h, hidden) => TimerFollowed(s, h, hidden, outcomes, t);
    case ReadAnswers(r, answer) => AnswerFollowed(s, r, answer, outcomes, t);
    case _ => HostFollowed(s, trace.event, outcomes, t);
  }

  lemma {:induction false} AlwaysFollowed(trace: Trace, t: Token)
    requires Run(trace).Some?
    ensures Followed(Run(trace).value, Outcomes(trace, t), t)
  {
    if trace.Then? {
      AlwaysFollowed(trace.before, t);
      StepFollowed(trace, t);
    }
  }

  // While a watch is live its counters are the rule's, followed over its outcomes; the
  // end it reports is what the rule makes of the last of them. So a watch is finished
  // only on an answer with every command over; it times out only past the cap, and never
  // on a hidden poll; and it gives up only on a refusal or the fifth failure in a row.
  lemma EndsByTheRule(trace: Trace, s: State, i: nat)
    requires Run(trace) == Some(s) && i < |s.log|
    ensures var r, outcomes := s.log[i], Outcomes(trace, s.log[i].token);
      && (r.Finished? ==> outcomes.After? && outcomes.read == Ok(r.states) && AllTerminal(r.states))
      && (r.Stopped? && r.how == Timeout ==>
            && outcomes.After? && Weight(outcomes) >= WATCH_MAX_POLLS
            && (outcomes.read.Ok?
               || (Answerless(outcomes.read) && AnswerlessPastCap(outcomes) == WATCH_MAX_FAILED_READS)))
      && (r.Stopped? && r.how == GaveUp ==>
            && outcomes.After?
            && (outcomes.read.Refused?
               || (outcomes.read.ReadFailed? && FailuresSinceAnswer(outcomes) == WATCH_MAX_FAILED_READS)))
  {
    var r, outcomes := s.log[i], Outcomes(trace, s.log[i].token);
    AlwaysFollowed(trace, r.token);
    assert EndedSo(outcomes, r);
    if r.Finished? || r.Stopped? { HowAWatchEnds(outcomes.before, outcomes.read); }
  }

  // ── what is asked and what is told ─────────────────────────────────────────

  // What a conclusion reports, and whether the watch goes on.
  lemma ConcludeComesTo(s: State, t: Token, read: WatchRead)
    requires IsLive(s, t)
    ensures var step, v := WatchStep(read, s.watches[t].counters).0, Conclude(s, t, read);
      && v.log == s.log + ReportsOf(t, step) && (IsLive(v, t) <==> step.Poll?)
      && t in v.watches && (step.Poll? ==> v.watches[t].handle.Some?) && v.watches[t].ended == s.watches[t].ended
      && v.watches[t].counters == WatchStep(read, s.watches[t].counters).1
  {
    ConcludeLogs(s, t, read);
    ConcludeEnds(s, t, read);
    ConcludeMoves(s, t, read);
  }

  lemma AskComesTo(s: State, t: Token)
    requires t in s.watches && WatchOk(s, t)
    ensures var asked := Unended(s.watches[t].ids, s.watches[t].ended);
      && Ask(s, t).log == s.log + [Asked(t, asked)] && AsksTheOpen(s.watches[t], asked)
      && Ask(s, t).readings == s.readings[s.nextReading := Reading(t, asked)]
      && Ask(s, t).watches == s.watches && Ask(s, t).live == s.live
  {
    UnendedInOrder(s.watches[t].ids, s.watches[t].ended);
  }

  // What an answer with these states makes of a watch that counts so.
  lemma TheRuleOnAnAnswer(t: Token, states: seq<CommandState>, c: Counters)
    ensures var step := WatchStep(Ok(states), c).0;
      if AllTerminal(states) then ReportsOf(t, step) == [Updated(t, states), Finished(t, states)] && !step.Poll?
      else if c.polls + 1 >= 300 then ReportsOf(t, step) == [Stopped(t, Timeout, "")] && !step.Poll?
      else ReportsOf(t, step) == [Updated(t, states)] && step.Poll?
  {
  }

  lemma TheRuleOnNoAnswer(t: Token, read: WatchRead, c: Counters)
    requires !read.Ok?
    ensures var step := WatchStep(read, c).0;
      if step.Poll? then ReportsOf(t, step) == []
      else step.Stop? && ReportsOf(t, step) == [Stopped(t, step.stopped, step.error)]
  {
  }

  // The state in which the watch is asked what to make of the read.
  lemma AnswerComesTo(s: State, r: nat, answer: WatchRead)
    requires r in s.readings && s.readings[r].token in s.watches && IsLive(s, s.readings[r].token)
    ensures var (u, read) := Folded(s, r, answer);
      && IsLive(u, s.readings[r].token) && u.log == s.log
      && u.watches[s.readings[r].token].counters == s.watches[s.readings[r].token].counters
      && Resolve(s, r, answer) == Conclude(u, s.readings[r].token, read)
  {
    FoldedChanges(s, r, answer);
  }

  // A live watch's timer: hidden, it waits for the next with nothing asked or told;
  // visible, the ids still open are asked about, in their order, and no others.
  lemma ATimerAsks(trace: Trace, s: State, h: nat, hidden: bool, v: State)
    requires Run(trace) == Some(s) && Next(s, TimerFires(h, hidden)) == Some(v) && IsLive(s, s.timers[h])
    ensures IsLive(v, s.timers[h])
    ensures hidden ==> v.log == s.log && v.watches[s.timers[h]].handle.Some?
    ensures !hidden ==> exists asked ::
      && v.log == s.log + [Asked(s.timers[h], asked)]
         && v.readings == s.readings[s.nextReading := Reading(s.timers[h], asked)]
      && AsksTheOpen(s.watches[s.timers[h]], asked)
  {
    AlwaysTold(trace);
    assert WatchOk(s, s.timers[h]);
    if hidden {
      AHiddenPollGoesOn(trace, s, s.timers[h]);
      HiddenAt(s, h);
    } else {
      VisibleAt(s, h);
    }
  }

  lemma HiddenAt(s: State, h: nat)
    requires h in s.timers && IsLive(s, s.timers[h])
    requires WatchStep(Skipped, s.watches[s.timers[h]].counters).0.Poll?
    requires WatchStep(Skipped, s.watches[s.timers[h]].counters).0.newest.None?
    ensures var t, v := s.timers[h], Fire(s, h, true);
      IsLive(v, t) && v.log == s.log && v.watches[t].handle.Some?
  {
    var t, u := s.timers[h], Fired(s, h);
    assert IsLive(u, t) && s.log + [] == s.log;
    ConcludeComesTo(u, t, Skipped);
  }

  lemma VisibleAt(s: State, h: nat)
    requires h in s.timers && IsLive(s, s.timers[h]) && WatchOk(s, s.timers[h])
    ensures var t, v := s.timers[h], Fire(s, h, false);
      && IsLive(v, t)
      && exists asked ::
        && v.log == s.log + [Asked(t, asked)] && v.readings == s.readings[s.nextReading := Reading(t, asked)]
        && AsksTheOpen(s.watches[t], asked)
  {
    var t, u := s.timers[h], Fired(s, h);
    assert IsLive(u, t) && WatchOk(u, t);
    AskComesTo(u, t);
    assert AsksTheOpen(s.watches[t], Unended(s.watches[t].ids, s.watches[t].ended));
  }

  lemma AHiddenPollGoesOn(trace: Trace, s: State, t: Token)
    requires Run(trace) == Some(s) && IsLive(s, t)
    ensures WatchStep(Skipped, s.watches[t].counters).0.Poll?
    ensures WatchStep(Skipped, s.watches[t].counters).0.newest.None?
  {
    AlwaysFollowed(trace, t);
    HowAWatchEnds(Outcomes(trace, t), Skipped);
  }

  ghost predicate AsksTheOpen(w: Watch, asked: seq<int>) {
    && (forall id :: id in asked <==> id in w.ids && id !in w.ended)
    && InOrderOf(w.ids, asked)
  }

  // An answer to a live watch that names every id asked about is told at once, the whole
  // watch in its order: every id over, it is finished; otherwise it is an update and the
  // watch goes on, or past the cap it is the timeout.
  lemma AnAnswerIsTold(trace: Trace, s: State, r: nat, states: seq<CommandState>, v: State)
    returns (whole: seq<CommandState>)
    requires Run(trace) == Some(s) && Next(s, ReadAnswers(r, Ok(states))) == Some(v) && IsLive(s, s.readings[r].token)
    requires forall id :: id in s.readings[r].live ==> Names(states, id)
    ensures Covers(s.watches[s.readings[r].token], states, whole)
    ensures var t := s.readings[r].token;
      if AllTerminal(whole) then v.log == s.log + [Updated(t, whole), Finished(t, whole)] && !IsLive(v, t)
      else if s.watches[t].counters.polls + 1 >= 300 then v.log == s.log + [Stopped(t, Timeout, "")] && !IsLive(v, t)
      else v.log == s.log + [Updated(t, whole)] && IsLive(v, t) && v.watches[t].handle.Some?
  {
    AlwaysTold(trace);
    whole := AnAnswerCovers(s, r, states);
    AnswerIsToldAt(s, r, states, whole);
  }

  lemma AnAnswerCovers(s: State, r: nat, states: seq<CommandState>) returns (whole: seq<CommandState>)
    requires WatchesOk(s) && ReadingsOk(s) && r in s.readings && s.readings[r].token in s.watches
    requires forall id :: id in s.readings[r].live ==> Names(states, id)
    ensures Folded(s, r, Ok(states)).1 == Ok(whole) && Covers(s.watches[s.readings[r].token], states, whole)
  {
    assert WatchOk(s, s.readings[r].token);
    MergeMeans(s.watches[s.readings[r].token], s.readings[r].live, states);
    whole := Folded(s, r, Ok(states)).1.states;
  }

  lemma AnswerIsToldAt(s: State, r: nat, states: seq<CommandState>, whole: seq<CommandState>)
    requires r in s.readings && s.readings[r].token in s.watches && IsLive(s, s.readings[r].token)
    requires Folded(s, r, Ok(states)).1 == Ok(whole)
    ensures var t, v := s.readings[r].token, Resolve(s, r, Ok(states));
      if AllTerminal(whole) then v.log == s.log + [Updated(t, whole), Finished(t, whole)] && !IsLive(v, t)
      else if s.watches[t].counters.polls + 1 >= 300 then v.log == s.log + [Stopped(t, Timeout, "")] && !IsLive(v, t)
      else v.log == s.log + [Updated(t, whole)] && IsLive(v, t) && v.watches[t].handle.Some?
  {
    var t := s.readings[r].token;
    AnswerComesTo(s, r, Ok(states));
    ConcludeComesTo(Folded(s, r, Ok(states)).0, t, Ok(whole));
    TheRuleOnAnAnswer(t, whole, s.watches[t].counters);
  }

  // A read that leaves an id out counts as one that failed, with nothing to say why.
  function CountsAs(answer: WatchRead): WatchRead { if answer.Ok? then ReadFailed("") else answer }

  // A read that is no answer, or leaves an id out, shows nothing: it is counted for what it
  // is, and ends the watch where the rule says so, with the arr's own words.
  lemma NoAnswerIsNotTold(trace: Trace, s: State, r: nat, answer: WatchRead, v: State)
    requires Run(trace) == Some(s) && Next(s, ReadAnswers(r, answer)) == Some(v) && IsLive(s, s.readings[r].token)
    requires answer.Ok? ==> exists id :: id in s.readings[r].live && !Names(answer.states, id)
    ensures var t := s.readings[r].token; IsCounted(s, t, CountsAs(answer), v)
    ensures answer.Refused? ==> v.log == s.log + [Stopped(s.readings[r].token, GaveUp, answer.error)]
  {
    AlwaysTold(trace);
    NoAnswerFolds(s, r, answer);
    NoAnswerAt(s, r, answer);
  }

  // The rule took the read: the watch goes on with nothing said, or stops as it says.
  ghost predicate IsCounted(s: State, t: Token, read: WatchRead, v: State)
    requires t in s.watches
  {
    var (step, counters) := WatchStep(read, s.watches[t].counters);
    && t in v.watches && v.watches[t].ended == s.watches[t].ended && v.watches[t].counters == counters
    && (if step.Stop? then v.log == s.log + [Stopped(t, step.stopped, step.error)] && !IsLive(v, t)
        else v.log == s.log && IsLive(v, t) && v.watches[t].handle.Some?)
  }

  lemma NoAnswerFolds(s: State, r: nat, answer: WatchRead)
    requires WatchesOk(s) && ReadingsOk(s) && r in s.readings && s.readings[r].token in s.watches
    requires answer.Ok? ==> exists id :: id in s.readings[r].live && !Names(answer.states, id)
    ensures Folded(s, r, answer).1 == CountsAs(answer)
  {
    assert WatchOk(s, s.readings[r].token);
    if answer.Ok? { MergeMeans(s.watches[s.readings[r].token], s.readings[r].live, answer.states); }
  }

  lemma NoAnswerAt(s: State, r: nat, answer: WatchRead)
    requires r in s.readings && s.readings[r].token in s.watches && IsLive(s, s.readings[r].token)
    requires Folded(s, r, answer).1 == CountsAs(answer)
    ensures IsCounted(s, s.readings[r].token, CountsAs(answer), Resolve(s, r, answer))
  {
    var t := s.readings[r].token;
    AnswerComesTo(s, r, answer);
    FoldedChanges(s, r, answer);
    var (u, read) := Folded(s, r, answer);
    ConcludeComesTo(u, t, read);
    TheRuleOnNoAnswer(t, read, u.watches[t].counters);
    assert s.log + [] == s.log;
  }

  // A start that is not refused follows its ids, each once in the order first given, under
  // a token of its own with a first timer set.
  lemma AStartFollows(trace: Trace, s: State, key: Key, ids: seq<int>, v: State)
    requires Run(trace) == Some(s) && Next(s, StartWatch(key, ids)) == Some(v)
    ensures v.log == s.log
    ensures s.disposed || ids == [] ==> key !in v.live
    ensures !s.disposed && ids != [] ==>
      && key in v.live && v.live[key] !in s.watches && v.live[key] in v.watches
      && IsNewWatch(v, v.live[key], key, ids)
  {
    AlwaysWired(trace);
    FreshToken(s);
    RetireKeepsHandles(s, key);
    NewHandleIsLive(Retire(s, key));
    StartLogs(s, key, ids);
    if !s.disposed && ids != [] { StartAt(s, key, ids); }
  }

  // Disposed is disposed until the next resume.
  predicate Disposed(trace: Trace) {
    trace.Then? && (trace.event.Dispose? || (!trace.event.Resume? && Disposed(trace.before)))
  }

  lemma {:induction false} DisposedExactly(trace: Trace, s: State)
    requires Run(trace) == Some(s)
    ensures s.disposed <==> Disposed(trace)
  {
    if trace.Then? {
      var before := Run(trace.before).value;
      DisposedExactly(trace.before, before);
      DisposedStands(before, trace.event, s);
    }
  }

  lemma DisposedStands(s: State, e: Event, v: State)
    requires Next(s, e) == Some(v)
    ensures v.disposed <==> e.Dispose? || (s.disposed && !e.Resume?)
  {
  }

  // Nothing seen yet, each id once in the order first given, and a timer set.
  ghost predicate IsNewWatch(s: State, t: Token, key: Key, ids: seq<int>)
    requires t in s.watches
  {
    var w := s.watches[t];
    && w.key == key && w.ended == map[] && w.counters == Counters(0, 0, 0)
    && (forall id :: id in w.ids <==> id in ids) && InOrderOf(ids, w.ids)
    && w.handle.Some? && Awaits(s, t, Timer(w.handle.value)) && w.handle.value !in s.cancelled
  }

  lemma NewHandleIsLive(s: State)
    requires HandlesFresh(s)
    ensures s.nextHandle !in s.cancelled
  {
  }

  lemma StartLogs(s: State, key: Key, ids: seq<int>)
    ensures Start(s, key, ids).log == s.log
    ensures s.disposed || ids == [] ==> key !in Start(s, key, ids).live
  {
  }

  lemma StartAt(s: State, key: Key, ids: seq<int>)
    requires !s.disposed && ids != []
    ensures var t, v := s.last + 1, Start(s, key, ids);
      && key in v.live && v.live[key] == t && t in v.watches
      && v.watches[t] == Watch(key, Distinct(ids), map[], Some(s.nextHandle), Counters(0, 0, 0))
      && Awaits(v, t, Timer(s.nextHandle)) && v.cancelled == Retire(s, key).cancelled
  {
  }

  // What an event is about, where it is about one watch.
  ghost predicate IsAbout(s: State, e: Event, t: Token)
    requires t in s.watches && Next(s, e).Some?
  {
    match e
    case StartWatch(key, _) => key == s.watches[t].key
    case StopWatch(key) => key == s.watches[t].key
    case StopAll => true
    case Dispose => true
    case Resume => false
    case TimerFires(h, _) => s.timers[h] == t
    case ReadAnswers(r, _) => s.readings[r].token == t
  }

  // A live watch is left as it is by whatever is about others: it stays live, what it has
  // seen, its counters and its timer stand.
  lemma OthersAreLeft(trace: Trace, s: State, e: Event, v: State, t: Token)
    requires Run(trace) == Some(s) && Next(s, e) == Some(v) && IsLive(s, t) && !IsAbout(s, e, t)
    ensures IsLive(v, t) && v.watches[t] == s.watches[t]
  {
    AlwaysWired(trace);
    match e
    case StartWatch(key, ids) => StartLeavesOthers(s, key, ids, t);
    case TimerFires(h, hidden) => FireLeavesOthers(s, h, hidden, t);
    case ReadAnswers(r, answer) => AnswerLeavesOthers(s, r, answer, t);
    case _ =>
  }

  lemma StartLeavesOthers(s: State, key: Key, ids: seq<int>, t: Token)
    requires HandlesFresh(s) && IsLive(s, t) && s.watches[t].key != key
    ensures IsLive(Start(s, key, ids), t) && Start(s, key, ids).watches[t] == s.watches[t]
  {
    StartChanges(s, key, ids);
  }

  lemma ConcludeLeavesOthers(s: State, u: Token, read: WatchRead, t: Token)
    requires HandlesFresh(s) && IsLive(s, u) && IsLive(s, t) && t != u
    ensures IsLive(Conclude(s, u, read), t) && Conclude(s, u, read).watches[t] == s.watches[t]
  {
    ConcludeMoves(s, u, read);
    ConcludeEnds(s, u, read);
    assert s.watches[t].key != s.watches[u].key;
  }

  lemma FireLeavesOthers(s: State, h: nat, hidden: bool, t: Token)
    requires Wired(s) && h in s.timers && IsLive(s, t) && s.timers[h] != t
    ensures IsLive(Fire(s, h, hidden), t) && Fire(s, h, hidden).watches[t] == s.watches[t]
  {
    var u, v := s.timers[h], Fired(s, h);
    FiredIsWired(s, h);
    if IsLive(v, u) && hidden { ConcludeLeavesOthers(v, u, Skipped, t); }
  }

  lemma AnswerLeavesOthers(s: State, r: nat, answer: WatchRead, t: Token)
    requires Wired(s) && r in s.readings && IsLive(s, t) && s.readings[r].token != t
    ensures IsLive(Resolve(s, r, answer), t) && Resolve(s, r, answer).watches[t] == s.watches[t]
  {
    var (v, read) := Folded(s, r, answer);
    FoldedIsWired(s, r, answer);
    FoldedChanges(s, r, answer);
    if IsLive(v, s.readings[r].token) { ConcludeLeavesOthers(v, s.readings[r].token, read, t); }
  }

  // Letting a watch go calls off its timer.
  lemma LettingGoCallsOff(trace: Trace, s: State, e: Event, v: State, t: Token)
    requires Run(trace) == Some(s) && Next(s, e) == Some(v) && IsLive(s, t) && LetsGo(e, s.watches[t].key)
    ensures s.watches[t].handle.Some? ==> s.watches[t].handle.value in v.cancelled
    ensures s.cancelled <= v.cancelled && (e.Dispose? ==> v.disposed)
  {
  }

  // ── the watcher as it is written: fields changed in place ──────────────────

  method IndexById(states: seq<CommandState>) returns (answered: map<int, CommandState>)
    ensures answered == ById(states)
  {
    answered := map[];
    for i := 0 to |states|
      invariant answered == ById(states[..i])
    {
      assert states[..i + 1][..i] == states[..i];
      answered := answered[states[i].id := states[i]];
    }
    assert states[..|states|] == states;
  }

  lemma EndsOneMore(ended: map<int, CommandState>, asked: seq<int>, id: int, answered: map<int, CommandState>)
    requires id in answered
    ensures EndedAfter(ended, asked + [id], answered) ==
      if IsTerminal(answered[id].status) then EndedAfter(ended, asked, answered)[id := answered[id]]
      else EndedAfter(ended, asked, answered)
  {
  }

  method EndNow(before: map<int, CommandState>, asked: seq<int>, answered: map<int, CommandState>)
    returns (ended: map<int, CommandState>)
    requires forall id :: id in asked ==> id in answered
    ensures ended == EndedAfter(before, asked, answered)
  {
    ended := before;
    for i := 0 to |asked|
      invariant ended == EndedAfter(before, asked[..i], answered)
    {
      assert asked[..i + 1] == asked[..i] + [asked[i]];
      EndsOneMore(before, asked[..i], asked[i], answered);
      if IsTerminal(answered[asked[i]].status) {
        ended := ended[asked[i] := answered[asked[i]]];
      }
    }
    assert asked[..|asked|] == asked;
  }

  method StillOpen(ids: seq<int>, ended: map<int, CommandState>) returns (open: seq<int>)
    ensures open == Unended(ids, ended)
  {
    open := [];
    for i := 0 to |ids|
      invariant open == Unended(ids[..i], ended)
    {
      assert ids[..i + 1][..i] == ids[..i];
      if ids[i] !in ended {
        open := open + [ids[i]];
      }
    }
    assert ids[..|ids|] == ids;
  }

  predicate HandleIs(watches: map<Token, Watch>, t: Token, h: nat) {
    t in watches && watches[t].handle == Some(h)
  }

  method OnceEach(ids: seq<int>) returns (list: seq<int>)
    ensures list == Distinct(ids)
  {
    list := [];
    for i := 0 to |ids|
      invariant list == Distinct(ids[..i])
    {
      assert ids[..i + 1][..i] == ids[..i];
      if ids[i] !in list {
        list := list + [ids[i]];
      }
    }
    assert ids[..|ids|] == ids;
  }

  class Watcher {
    var live: map<Key, Token>
    var watches: map<Token, Watch>
    var last: Token
    var disposed: bool
    // The host's side: its timers, the reads in flight, and what it was told.
    var timers: map<nat, Token>
    var cancelled: set<nat>
    var nextHandle: nat
    var readings: map<nat, Reading>
    var nextReading: nat
    var log: seq<Report>

    ghost function Now(): State
      reads this
    {
      State(live, watches, last, disposed, timers, cancelled, nextHandle, readings, nextReading, log)
    }

    constructor ()
      ensures Now() == Init()
    {
      live, watches, last, disposed := map[], map[], 0, false;
      timers, cancelled, nextHandle := map[], {}, 0;
      readings, nextReading, log := map[], 0, [];
    }

    method RetireOne(key: Key)
      modifies this
      ensures Now() == Retire(old(Now()), key)
    {
      if key in live {
        var t := live[key];
        if t in watches && watches[t].handle.Some? {
          cancelled := cancelled + {watches[t].handle.value};
        }
        live := live - {key};
      }
    }

    method RetireEvery()
      modifies this
      ensures Now() == RetireAll(old(Now()))
    {
      ghost var handles := set key | key in live && live[key] in watches
        && watches[live[key]].handle.Some? :: watches[live[key]].handle.value;
      while live.Keys != {}
        invariant Now() == old(Now()).(live := live, cancelled := cancelled)
        invariant live.Keys <= old(live).Keys && forall key :: key in live ==> live[key] == old(live)[key]
        invariant forall h :: h in cancelled <==>
          h in old(cancelled)
            || (exists key :: key in old(live) && key !in live && HandleIs(watches, old(live)[key], h))
        decreases |live.Keys|
      {
        var key :| key in live;
        ghost var before := live.Keys;
        RetireOne(key);
        assert live.Keys == before - {key};
      }
      assert cancelled == old(cancelled) + handles;
      assert live == map[];
    }

    method ScheduleNext(t: Token)
      requires t in watches
      modifies this
      ensures Now() == Schedule(old(Now()), t)
    {
      timers := timers[nextHandle := t];
      watches := watches[t := watches[t].(handle := Some(nextHandle))];
      nextHandle := nextHandle + 1;
    }

    method StartOn(key: Key, ids: seq<int>) returns (following: bool)
      modifies this
      ensures Now() == Start(old(Now()), key, ids)
      ensures following <==> !old(disposed) && ids != []
    {
      RetireOne(key);
      if disposed {
        return false;
      }
      var list := OnceEach(ids);
      if ids == [] {
        return false;
      }
      last := last + 1;
      watches := watches[last := Watch(key, list, map[], None, Counters(0, 0, 0))];
      live := live[key := last];
      ScheduleNext(last);
      following := true;
    }

    method DisposeAll()
      modifies this
      ensures Now() == RetireAll(old(Now())).(disposed := true)
    {
      disposed := true;
      RetireEvery();
    }

    method Resume()
      modifies this
      ensures Now() == old(Now()).(disposed := false)
    {
      disposed := false;
    }

    // What a tick does once its read, or its skip, is in.
    method ConcludeWith(t: Token, read: WatchRead)
      requires t in watches
      modifies this
      ensures Now() == Conclude(old(Now()), t, read)
    {
      var (step, counters) := WatchStep(read, watches[t].counters);
      watches := watches[t := watches[t].(counters := counters)];
      match step {
        case Done(states) =>
          live := live - {watches[t].key};
          log := log + [Updated(t, states), Finished(t, states)];
        case Stop(how, error) =>
          live := live - {watches[t].key};
          log := log + [Stopped(t, how, error)];
        case Poll(_, newest) =>
          if newest.Some? {
            log := log + [Updated(t, newest.value)];
          }
          ScheduleNext(t);
      }
    }

    method TimerFired(h: nat, hidden: bool)
      requires h in timers && timers[h] in watches
      modifies this
      ensures Now() == Fire(old(Now()), h, hidden)
    {
      var t := timers[h];
      timers := timers - {h};
      watches := watches[t := watches[t].(handle := None)];
      if watches[t].key !in live || live[watches[t].key] != t {
        return;
      }
      if hidden {
        ConcludeWith(t, Skipped);
        return;
      }
      var open := StillOpen(watches[t].ids, watches[t].ended);
      readings := readings[nextReading := Reading(t, open)];
      nextReading := nextReading + 1;
      log := log + [Asked(t, open)];
    }

    method Merge(t: Token, asked: seq<int>, states: seq<CommandState>) returns (read: WatchRead)
      requires t in watches
      modifies this
      ensures read == MergeEnded(old(watches)[t], asked, states).1
      ensures Now() == old(Now()).(watches := old(watches)[t := MergeEnded(old(watches)[t], asked, states).0])
    {
      var w := watches[t];
      var answered := IndexById(states);
      if exists id :: id in asked && id !in answered {
        watches := watches[t := w];
        return ReadFailed("");
      }
      var ended := EndNow(w.ended, asked, answered);
      watches := watches[t := w.(ended := ended)];
      read := Ok(WholeWatch(w.ids, ended, answered));
    }

    method ReadAnswered(r: nat, answer: WatchRead)
      requires r in readings && readings[r].token in watches
      modifies this
      ensures Now() == Resolve(old(Now()), r, answer)
    {
      var t, asked := readings[r].token, readings[r].live;
      readings := readings - {r};
      var read := answer;
      if answer.Ok? {
        read := Merge(t, asked, answer.states);
      }
      assert Now() == Folded(old(Now()), r, answer).0;
      if watches[t].key in live && live[watches[t].key] == t {
        ConcludeWith(t, read);
      }
    }
  }
}
