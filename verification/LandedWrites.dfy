// The writes that land at the arr, in turn or late (src/lib/arr-system-data.ts, lines 303-325).
module LandedWrites {
  import opened Options
  import opened SaveQueue

  // A write that has landed at the arr, and whose it was.
  datatype Write = Write(task: nat, key: Key, change: Resource)

  // How much had landed when the task last read its resource, and whether a write of its
  // own landed after it was given up on.
  datatype Mark = Mark(readAt: nat, late: bool)

  datatype World = World(queue: State, marks: seq<Mark>, log: seq<Write>)

  // The queue moves; or the arr lands the write a task was waiting for when it failed.
  datatype Happening = OnTime(event: Event) | LandsLate(task: nat)

  // The resource the landed writes make, each over those before it.
  function Written(log: seq<Write>, key: Key, resource: Resource): Resource {
    if log == [] then resource
    else
      var w, before := log[|log| - 1], Written(log[..|log| - 1], key, resource);
      if w.key == key then before + w.change else before
  }

  // Given up on with a write sent.
  predicate MightHaveLanded(t: Task) {
    Over(t) && t.done < |t.ops| && !t.ops[t.done].ReadWhole?
  }

  predicate MayLandLate(w: World, i: nat) {
    i < |w.queue.tasks| && i < |w.marks| && !w.marks[i].late && MightHaveLanded(w.queue.tasks[i])
  }

  function Lands(w: World, i: nat): World
    requires MayLandLate(w, i)
  {
    var t := w.queue.tasks[i];
    var e := Do(t.ops[t.done], Effect(ResourceOf(w.queue.resources, t.key), t.held));
    World(w.queue.(resources := w.queue.resources[t.key := e.resource]),
          w.marks[i := w.marks[i].(late := true)],
          w.log + [Write(i, t.key, t.ops[t.done].change)])
  }

  // What the queue's own move adds to the log and the marks.
  function Noted(w: World, e: Event, v: State): World
    requires Next(w.queue, e) == Some(v)
  {
    match e
    case Arrive(_, _) => World(v, w.marks + [Mark(0, false)], w.log)
    case Step(i) =>
      var t := w.queue.tasks[i];
      if t.ops[t.done].ReadWhole? then
        World(v, if i < |w.marks| then w.marks[i := w.marks[i].(readAt := |w.log|)] else w.marks, w.log)
      else World(v, w.marks, w.log + [Write(i, t.key, t.ops[t.done].change)])
    case _ => World(v, w.marks, w.log)
  }

  function Happens(w: World, h: Happening): Option<World> {
    match h
    case OnTime(e) =>
      (match Next(w.queue, e)
       case None => None
       case Some(v) => Some(Noted(w, e, v)))
    case LandsLate(i) => if MayLandLate(w, i) then Some(Lands(w, i)) else None
  }

  datatype History = Outset | And(before: History, happening: Happening)

  function Play(history: History, initial: map<Key, Resource>): Option<World> {
    match history
    case Outset => Some(World(State([], map[], initial), [], []))
    case And(before, happening) =>
      match Play(before, initial)
      case None => None
      case Some(w) => Happens(w, happening)
  }

  // Every task reads what it puts back whole just before, as provider saves and title
  // edits do.
  ghost predicate AllCareful(history: History) {
    history.And? ==>
      && AllCareful(history.before)
      && (history.happening.OnTime? && history.happening.event.Arrive? ==> Careful(history.happening.event.ops))
  }

  ghost predicate NothingLate(history: History) {
    history.And? ==> NothingLate(history.before) && history.happening.OnTime?
  }

  // ── what a happening moves ─────────────────────────────────────────────────

  // Nothing reached the arr: tasks only change their stage, and new ones wait.
  ghost predicate Idle(w: World, v: World) {
    && v.log == w.log && v.queue.resources == w.queue.resources
    && |w.marks| == |w.queue.tasks| <= |v.marks| == |v.queue.tasks|
    && (forall i :: 0 <= i < |w.marks| ==> v.marks[i] == w.marks[i] && IdleTask(w.queue.tasks[i], v.queue.tasks[i]))
    && (forall i :: |w.marks| <= i < |v.marks| ==> v.marks[i] == Mark(0, false) && v.queue.tasks[i].done == 0)
  }

  predicate IdleTask(t: Task, u: Task) {
    && u.key == t.key && u.ops == t.ops && u.done == t.done && u.held == t.held
    && (u.stage.Running? ==> t.stage.Running? || t.stage.Waiting?) && (u.stage.Waiting? ==> t.stage.Waiting?)
  }

  // The task's next operation reached the arr; it alone moved.
  ghost predicate Steps(w: World, v: World, i: nat) {
    && CanLand(w.queue, i) && |v.queue.tasks| == |w.queue.tasks| == |w.marks| == |v.marks|
    && (forall j :: 0 <= j < |w.marks| && j != i ==> v.marks[j] == w.marks[j] && v.queue.tasks[j] == w.queue.tasks[j])
    && var t, e := w.queue.tasks[i], Reaches(w, i);
    && v.queue.resources == w.queue.resources[t.key := e.resource]
    && v.queue.tasks[i] == t.(done := t.done + 1, held := e.held)
    && if t.ops[t.done].ReadWhole? then v.log == w.log && v.marks[i] == w.marks[i].(readAt := |w.log|)
       else v.log == w.log + [Write(i, t.key, t.ops[t.done].change)] && v.marks[i] == w.marks[i]
  }

  function Reaches(w: World, i: nat): Effect
    requires i < |w.queue.tasks| && w.queue.tasks[i].done < |w.queue.tasks[i].ops|
  {
    var t := w.queue.tasks[i];
    Do(t.ops[t.done], Effect(ResourceOf(w.queue.resources, t.key), t.held))
  }

  // A write given up on reached the arr; no task moved.
  ghost predicate Late(w: World, v: World, i: nat) {
    && MayLandLate(w, i) && v.queue.tasks == w.queue.tasks && v.marks == w.marks[i := w.marks[i].(late := true)]
    && var t := w.queue.tasks[i];
    && v.queue.resources == w.queue.resources[t.key := Reaches(w, i).resource]
    && v.log == w.log + [Write(i, t.key, t.ops[t.done].change)]
  }

  ghost predicate Moved(w: World, v: World, h: Happening) {
    match h
    case OnTime(Step(i)) => Steps(w, v, i)
    case OnTime(_) => Idle(w, v)
    case LandsLate(i) => Late(w, v, i)
  }

  lemma StepMoves(w: World, i: nat)
    requires |w.marks| == |w.queue.tasks| && Happens(w, OnTime(Step(i))).Some?
    ensures Steps(w, Happens(w, OnTime(Step(i))).value, i)
  {
  }

  lemma OthersAreIdle(w: World, e: Event)
    requires |w.marks| == |w.queue.tasks| && Happens(w, OnTime(e)).Some? && !e.Step?
    ensures Idle(w, Happens(w, OnTime(e)).value)
  {
  }

  lemma WhatMoves(w: World, h: Happening)
    requires |w.marks| == |w.queue.tasks| && Happens(w, h).Some?
    ensures Moved(w, Happens(w, h).value, h)
  {
    match h
    case OnTime(Step(i)) => StepMoves(w, i);
    case OnTime(e) => OthersAreIdle(w, e);
    case LandsLate(i) =>
  }

  // ── the queue's order, with or without late landings ───────────────────────

  ghost predicate Marked(w: World) {
    Queued(w.queue) && TasksOk(w.queue) && InRange(w)
  }

  ghost predicate InRange(w: World) {
    && |w.marks| == |w.queue.tasks| && DoneInBounds(w.queue.tasks)
    && (forall i :: 0 <= i < |w.marks| ==> w.marks[i].readAt <= |w.log|)
    && (forall i :: 0 <= i < |w.marks| && w.marks[i].late ==> MightHaveLanded(w.queue.tasks[i]))
  }

  lemma HappeningKeepsQueue(w: World, h: Happening)
    requires Queued(w.queue) && TasksOk(w.queue) && Happens(w, h).Some?
    ensures Queued(Happens(w, h).value.queue) && TasksOk(Happens(w, h).value.queue)
  {
    var v := Happens(w, h).value.queue;
    match h
    case OnTime(e) =>
      StepKeepsQueued(w.queue, e, v);
      QueueKeepsTasksOk(w.queue, e, v);
    case LandsLate(_) => assert v.tasks == w.queue.tasks && v.tails == w.queue.tails;
  }

  lemma QueueKeepsTasksOk(s: State, e: Event, v: State)
    requires TasksOk(s) && Next(s, e) == Some(v)
    ensures TasksOk(v)
  {
  }

  lemma MovedStaysInRange(w: World, v: World, h: Happening)
    requires InRange(w) && Moved(w, v, h) && DoneInBounds(v.queue.tasks)
    ensures InRange(v)
  {
    forall i | 0 <= i < |v.marks| && v.marks[i].late
      ensures MightHaveLanded(v.queue.tasks[i])
    {
      assert w.marks[i].late ==> MightHaveLanded(w.queue.tasks[i]);
    }
  }

  lemma {:induction false} AlwaysMarked(history: History, initial: map<Key, Resource>)
    requires Play(history, initial).Some?
    ensures Marked(Play(history, initial).value)
  {
    if history.And? {
      AlwaysMarked(history.before, initial);
      var w, v := Play(history.before, initial).value, Play(history, initial).value;
      HappeningKeepsQueue(w, history.happening);
      WhatMoves(w, history.happening);
      MovedStaysInRange(w, v, history.happening);
    }
  }

  // ── exactly when nothing that landed is lost ───────────────────────────────

  // Each resource reads as the writes that landed, in the order they landed.
  ghost predicate Faithful(w: World, initial: map<Key, Resource>) {
    forall key :: FaithfulAt(w, key, initial)
  }

  ghost predicate FaithfulAt(w: World, key: Key, initial: map<Key, Resource>) {
    ResourceOf(w.queue.resources, key) == Written(w.log, key, ResourceOf(initial, key))
  }

  ghost predicate FaithfulThroughout(history: History, initial: map<Key, Resource>)
    requires Play(history, initial).Some?
  {
    Faithful(Play(history, initial).value, initial) && (history.And? ==> FaithfulThroughout(history.before, initial))
  }

  // What landed on the task's resource since the task last read it.
  function Since(w: World, i: nat): Resource
    requires i < |w.queue.tasks| && i < |w.marks| && w.marks[i].readAt <= |w.log|
  {
    Written(w.log[w.marks[i].readAt..], w.queue.tasks[i].key, map[])
  }

  // Putting this body back takes away nothing that landed since it was read: it carries
  // it already, or means to change it.
  predicate KeepsWhatLanded(held: Resource, since: Resource, change: Resource) {
    forall flag :: flag in since ==> flag in change || (flag in held && held[flag] == since[flag])
  }

  predicate PutsWhole(s: State, i: nat) {
    i < |s.tasks| && s.tasks[i].done < |s.tasks[i].ops| && s.tasks[i].ops[s.tasks[i].done].PutWhole?
  }

  predicate PutIsHarmless(w: World, i: nat)
    requires PutsWhole(w.queue, i) && i < |w.marks| && w.marks[i].readAt <= |w.log|
  {
    var t := w.queue.tasks[i];
    KeepsWhatLanded(t.held, Since(w, i), t.ops[t.done].change)
  }

  // A body put back whole, on time or late, is harmless.
  predicate Harmless(w: World, h: Happening)
    requires |w.marks| == |w.queue.tasks| && forall i :: 0 <= i < |w.marks| ==> w.marks[i].readAt <= |w.log|
  {
    match h
    case OnTime(Step(i)) => PutsWhole(w.queue, i) ==> PutIsHarmless(w, i)
    case LandsLate(i) => PutsWhole(w.queue, i) ==> PutIsHarmless(w, i)
    case _ => true
  }

  ghost predicate HarmlessThroughout(history: History, initial: map<Key, Resource>)
    requires Play(history, initial).Some?
  {
    history.And? ==>
      && HarmlessThroughout(history.before, initial)
      && (AlwaysMarked(history.before, initial); Harmless(Play(history.before, initial).value, history.happening))
  }

  predicate HasJustRead(t: Task) { 0 < t.done <= |t.ops| && t.ops[t.done - 1].ReadWhole? }

  // What a task that has just read holds is what had landed by then.
  ghost predicate HoldsWhatLanded(w: World, i: nat, initial: map<Key, Resource>)
    requires i < |w.queue.tasks| && i < |w.marks| && w.marks[i].readAt <= |w.log|
  {
    var t := w.queue.tasks[i];
    HasJustRead(t) ==> t.held == Written(w.log[..w.marks[i].readAt], t.key, ResourceOf(initial, t.key))
  }

  ghost predicate AllHold(w: World, initial: map<Key, Resource>)
    requires InRange(w)
  {
    forall i :: 0 <= i < |w.marks| ==> HoldsWhatLanded(w, i, initial) && Careful(w.queue.tasks[i].ops)
  }

  lemma WrittenOneMore(log: seq<Write>, w: Write, key: Key, resource: Resource)
    ensures Written(log + [w], key, resource) ==
      if w.key == key then Written(log, key, resource) + w.change else Written(log, key, resource)
  {
    assert (log + [w])[..|log|] == log;
  }

  lemma Regroup(a: Resource, b: Resource, c: Resource)
    ensures (a + b) + c == a + (b + c)
  {
  }

  lemma {:induction false} WrittenJoins(a: seq<Write>, b: seq<Write>, key: Key, resource: Resource)
    ensures Written(a + b, key, resource) == Written(a, key, resource) + Written(b, key, map[])
    decreases |b|
  {
    if b == [] {
      assert a + b == a;
    } else {
      var c, w := b[..|b| - 1], b[|b| - 1];
      assert a + b == (a + c) + [w] && b == c + [w];
      WrittenJoins(a, c, key, resource);
      WrittenOneMore(a + c, w, key, resource);
      WrittenOneMore(c, w, key, map[]);
      Regroup(Written(a, key, resource), Written(c, key, map[]), w.change);
    }
  }

  lemma PutExactly(held: Resource, since: Resource, change: Resource)
    ensures held + change == (held + since) + change <==> KeepsWhatLanded(held, since, change)
  {
    var a, b := held + change, (held + since) + change;
    if a == b {
      forall flag | flag in since
        ensures flag in change || (flag in held && held[flag] == since[flag])
      {
        assert flag in b && a[flag] == b[flag];
      }
    }
    if KeepsWhatLanded(held, since, change) {
      assert a.Keys == b.Keys;
      assert forall flag :: flag in a ==> a[flag] == b[flag];
    }
  }

  // Only the written resource can come apart from the log.
  lemma OneResourceMoves(w: World, v: World, i: nat, initial: map<Key, Resource>)
    requires Faithful(w, initial) && (Late(w, v, i) || (Steps(w, v, i) && v.log != w.log))
    ensures Faithful(v, initial) <==>
      Reaches(w, i).resource == ResourceOf(w.queue.resources, w.queue.tasks[i].key) + v.log[|w.log|].change
  {
    var key := w.queue.tasks[i].key;
    assert v.log == w.log + [v.log[|w.log|]];
    assert FaithfulAt(w, key, initial);
    WrittenOneMore(w.log, v.log[|w.log|], key, ResourceOf(initial, key));
    assert FaithfulAt(v, key, initial) <==>
      Reaches(w, i).resource == ResourceOf(w.queue.resources, key) + v.log[|w.log|].change;
    forall other | other != key
      ensures FaithfulAt(v, other, initial)
    {
      assert FaithfulAt(w, other, initial);
      WrittenOneMore(w.log, v.log[|w.log|], other, ResourceOf(initial, other));
    }
  }

  lemma WriteExactly(w: World, v: World, i: nat, initial: map<Key, Resource>)
    requires InRange(w) && Faithful(w, initial) && AllHold(w, initial)
    requires Late(w, v, i) || (Steps(w, v, i) && !w.queue.tasks[i].ops[w.queue.tasks[i].done].ReadWhole?)
    ensures Faithful(v, initial) <==> (PutsWhole(w.queue, i) ==> PutIsHarmless(w, i))
  {
    OneResourceMoves(w, v, i, initial);
    if PutsWhole(w.queue, i) {
      var t, at := w.queue.tasks[i], w.marks[i].readAt;
      assert HoldsWhatLanded(w, i, initial) && FaithfulAt(w, t.key, initial);
      assert w.log == w.log[..at] + w.log[at..];
      WrittenJoins(w.log[..at], w.log[at..], t.key, ResourceOf(initial, t.key));
      PutExactly(t.held, Since(w, i), t.ops[t.done].change);
    }
  }

  lemma SameResources(w: World, v: World, initial: map<Key, Resource>)
    requires Faithful(w, initial) && v.log == w.log
    requires forall key :: ResourceOf(v.queue.resources, key) == ResourceOf(w.queue.resources, key)
    ensures Faithful(v, initial)
  {
    forall key
      ensures FaithfulAt(v, key, initial)
    {
      assert FaithfulAt(w, key, initial);
    }
  }

  lemma HappeningExactly(w: World, v: World, h: Happening, initial: map<Key, Resource>)
    requires InRange(w) && Faithful(w, initial) && AllHold(w, initial) && Moved(w, v, h)
    ensures Faithful(v, initial) <==> Harmless(w, h)
  {
    match h
    case LandsLate(i) => WriteExactly(w, v, i, initial);
    case OnTime(Step(i)) =>
      if w.queue.tasks[i].ops[w.queue.tasks[i].done].ReadWhole? {
        SameResources(w, v, initial);
      } else {
        WriteExactly(w, v, i, initial);
      }
    case OnTime(_) => SameResources(w, v, initial);
  }

  // The task did not move, and read no more.
  ghost predicate Stood(w: World, v: World, i: nat) {
    && i < |w.queue.tasks| && i < |w.marks| && i < |v.queue.tasks| && i < |v.marks|
    && v.queue.tasks[i].key == w.queue.tasks[i].key && v.queue.tasks[i].ops == w.queue.tasks[i].ops
    && v.queue.tasks[i].done == w.queue.tasks[i].done && v.queue.tasks[i].held == w.queue.tasks[i].held
    && v.marks[i].readAt == w.marks[i].readAt <= |w.log| && w.log <= v.log
  }

  lemma OthersStood(w: World, v: World, h: Happening, i: nat)
    requires InRange(w) && Moved(w, v, h) && i < |w.marks| && !(h.OnTime? && h.event.Step? && h.event.task == i)
    ensures Stood(w, v, i)
  {
  }

  lemma HoldsOn(w: World, v: World, i: nat, initial: map<Key, Resource>)
    requires Stood(w, v, i) && HoldsWhatLanded(w, i, initial)
    ensures HoldsWhatLanded(v, i, initial)
  {
    assert v.log[..w.marks[i].readAt] == w.log[..w.marks[i].readAt];
  }

  lemma ReadsWhatLanded(w: World, v: World, i: nat, initial: map<Key, Resource>)
    requires Faithful(w, initial) && Steps(w, v, i) && w.marks[i].readAt <= |w.log|
    ensures HoldsWhatLanded(v, i, initial)
  {
    assert FaithfulAt(w, w.queue.tasks[i].key, initial);
    assert w.log[..|w.log|] == w.log;
  }

  // While the resources read as what landed, so does what each task has just read.
  lemma HappeningKeepsHolds(w: World, v: World, h: Happening, initial: map<Key, Resource>)
    requires InRange(w) && InRange(v) && Faithful(w, initial) && AllHold(w, initial) && Moved(w, v, h)
    requires forall i :: |w.marks| <= i < |v.marks| ==> Careful(v.queue.tasks[i].ops)
    ensures AllHold(v, initial)
  {
    forall i | 0 <= i < |v.marks|
      ensures HoldsWhatLanded(v, i, initial) && Careful(v.queue.tasks[i].ops)
    {
      if i < |w.marks| {
        assert HoldsWhatLanded(w, i, initial) && Careful(w.queue.tasks[i].ops);
        if h.OnTime? && h.event.Step? && h.event.task == i {
          ReadsWhatLanded(w, v, i, initial);
        } else {
          OthersStood(w, v, h, i);
          HoldsOn(w, v, i, initial);
        }
      }
    }
  }

  lemma NewOnesAreCareful(w: World, h: Happening)
    requires |w.marks| == |w.queue.tasks| && Happens(w, h).Some?
      && (h.OnTime? && h.event.Arrive? ==> Careful(h.event.ops))
    ensures forall i :: |w.marks| <= i < |Happens(w, h).value.queue.tasks| ==>
      Careful(Happens(w, h).value.queue.tasks[i].ops)
  {
  }

  lemma {:induction false} AlwaysHolds(history: History, initial: map<Key, Resource>)
    requires Play(history, initial).Some? && AllCareful(history)
    requires history.And? ==> FaithfulThroughout(history.before, initial)
    ensures Marked(Play(history, initial).value) && AllHold(Play(history, initial).value, initial)
  {
    if history.And? {
      AlwaysHolds(history.before, initial);
      AlwaysMarked(history, initial);
      var w, v := Play(history.before, initial).value, Play(history, initial).value;
      WhatMoves(w, history.happening);
      NewOnesAreCareful(w, history.happening);
      HappeningKeepsHolds(w, v, history.happening, initial);
    }
    AlwaysMarked(history, initial);
  }

  // At every moment every resource reads as the writes that have landed, in the order
  // they landed, if and only if no body put back whole, on time or late, differs from
  // what landed on its resource since it was read, but in what it means to change.
  lemma {:induction false} NothingIsLostExactly(history: History, initial: map<Key, Resource>)
    requires Play(history, initial).Some? && AllCareful(history)
    ensures FaithfulThroughout(history, initial) <==> HarmlessThroughout(history, initial)
  {
    if history.And? {
      NothingIsLostExactly(history.before, initial);
      AlwaysMarked(history.before, initial);
      if FaithfulThroughout(history.before, initial) {
        AlwaysHolds(history.before, initial);
        var w, v := Play(history.before, initial).value, Play(history, initial).value;
        WhatMoves(w, history.happening);
        HappeningExactly(w, v, history.happening, initial);
      }
    }
  }

  // ── what the log is, and what it says of a field ───────────────────────────

  // The changes that landed of one task, in order.
  function Own(log: seq<Write>, i: nat): seq<Resource> {
    if log == [] then []
    else
      var w, before := log[|log| - 1], Own(log[..|log| - 1], i);
      if w.task == i then before + [w.change] else before
  }

  lemma OwnOneMore(log: seq<Write>, w: Write, i: nat)
    ensures Own(log + [w], i) == if w.task == i then Own(log, i) + [w.change] else Own(log, i)
  {
    assert (log + [w])[..|log|] == log;
  }

  // How far the task's operations have reached the arr.
  function Reached(w: World, i: nat): nat
    requires i < |w.queue.tasks| && i < |w.marks|
  {
    w.queue.tasks[i].done + if w.marks[i].late then 1 else 0
  }

  ghost predicate LogIsOf(w: World, i: nat)
    requires InRange(w) && i < |w.marks|
  {
    LogSays(w.log, i, w.queue.tasks[i].key, w.queue.tasks[i].ops[..Reached(w, i)])
  }

  // Of the task the log holds just what these operations write, to its resource.
  ghost predicate LogSays(log: seq<Write>, i: nat, key: Key, ops: seq<Op>) {
    && Own(log, i) == Writes(ops)
    && forall n :: 0 <= n < |log| && log[n].task == i ==> log[n].key == key
  }

  ghost predicate LogIsTrue(w: World)
    requires InRange(w)
  {
    && (forall i :: 0 <= i < |w.marks| ==> LogIsOf(w, i))
    && (forall n :: 0 <= n < |w.log| ==> w.log[n].task < |w.marks|)
  }

  lemma NoneOfIts(log: seq<Write>, i: nat)
    requires forall n :: 0 <= n < |log| ==> log[n].task != i
    ensures Own(log, i) == []
  {
  }

  lemma OneFurther(ops: seq<Op>, done: nat)
    requires done < |ops|
    ensures Writes(ops[..done + 1]) ==
      if ops[done].ReadWhole? then Writes(ops[..done]) else Writes(ops[..done]) + [ops[done].change]
  {
    assert ops[..done + 1] == ops[..done] + [ops[done]];
    WritesOneMore(ops[..done], ops[done]);
  }

  lemma SaysOneMore(log: seq<Write>, i: nat, key: Key, ops: seq<Op>, done: nat)
    requires done < |ops| && LogSays(log, i, key, ops[..done])
    ensures var more := if ops[done].ReadWhole? then log else log + [Write(i, key, ops[done].change)];
      LogSays(more, i, key, ops[..done + 1])
  {
    OneFurther(ops, done);
    if !ops[done].ReadWhole? {
      var more := log + [Write(i, key, ops[done].change)];
      OwnOneMore(log, Write(i, key, ops[done].change), i);
      assert Own(more, i) == Writes(ops[..done + 1]);
      assert forall n :: 0 <= n < |more| && more[n].task == i ==> more[n].key == key;
    }
  }

  lemma SaysTheSame(log: seq<Write>, x: Write, i: nat, key: Key, ops: seq<Op>)
    requires LogSays(log, i, key, ops) && x.task != i
    ensures LogSays(log + [x], i, key, ops)
  {
    OwnOneMore(log, x, i);
  }

  lemma StepIsLogged(w: World, v: World, i: nat, j: nat)
    requires InRange(w) && InRange(v) && Steps(w, v, j) && i < |w.marks| && LogIsOf(w, i)
    ensures LogIsOf(v, i)
  {
    var t, u := w.queue.tasks[j], w.queue.tasks[i];
    if i == j {
      assert !w.marks[i].late;
      SaysOneMore(w.log, i, t.key, t.ops, t.done);
    } else if !t.ops[t.done].ReadWhole? {
      SaysTheSame(w.log, Write(j, t.key, t.ops[t.done].change), i, u.key, u.ops[..Reached(w, i)]);
    }
  }

  lemma LateIsLogged(w: World, v: World, i: nat, j: nat)
    requires InRange(w) && InRange(v) && Late(w, v, j) && i < |w.marks| && LogIsOf(w, i)
    ensures LogIsOf(v, i)
  {
    var t, u := w.queue.tasks[j], w.queue.tasks[i];
    if i == j {
      SaysOneMore(w.log, i, t.key, t.ops, t.done);
    } else {
      SaysTheSame(w.log, Write(j, t.key, t.ops[t.done].change), i, u.key, u.ops[..Reached(w, i)]);
    }
  }

  lemma HappeningKeepsLog(w: World, v: World, h: Happening, i: nat)
    requires InRange(w) && InRange(v) && LogIsTrue(w) && Moved(w, v, h) && i < |v.marks|
    ensures LogIsOf(v, i)
  {
    if i < |w.marks| {
      assert LogIsOf(w, i);
      match h
      case OnTime(Step(j)) => StepIsLogged(w, v, i, j);
      case OnTime(_) => assert IdleTask(w.queue.tasks[i], v.queue.tasks[i]);
      case LandsLate(j) => LateIsLogged(w, v, i, j);
    } else {
      NoneOfIts(w.log, i);
    }
  }

  // The log holds each task's own writes, as far as the task reached the arr, and no others.
  lemma {:induction false} TheLogIsTrue(history: History, initial: map<Key, Resource>)
    requires Play(history, initial).Some?
    ensures Marked(Play(history, initial).value) && LogIsTrue(Play(history, initial).value)
  {
    AlwaysMarked(history, initial);
    if history.And? {
      TheLogIsTrue(history.before, initial);
      var w, v := Play(history.before, initial).value, Play(history, initial).value;
      WhatMoves(w, history.happening);
      forall i | 0 <= i < |v.marks|
        ensures LogIsOf(v, i)
      {
        HappeningKeepsLog(w, v, history.happening, i);
      }
    }
  }

  predicate Names(w: Write, key: Key, flag: string) { w.key == key && flag in w.change }

  ghost predicate LastToName(log: seq<Write>, n: int, key: Key, flag: string) {
    0 <= n < |log| && Names(log[n], key, flag) && NoneNames(log, n + 1, key, flag)
  }

  ghost predicate NoneNames(log: seq<Write>, start: int, key: Key, flag: string) {
    forall n :: 0 <= start <= n < |log| ==> !Names(log[n], key, flag)
  }

  lemma {:induction false} LastWriteWins(log: seq<Write>, key: Key, resource: Resource, flag: string, n: int)
    requires LastToName(log, n, key, flag)
    ensures flag in Written(log, key, resource) && Written(log, key, resource)[flag] == log[n].change[flag]
    decreases |log|
  {
    if n < |log| - 1 {
      assert !Names(log[|log| - 1], key, flag);
      LastWriteWins(log[..|log| - 1], key, resource, flag, n);
    }
  }

  lemma {:induction false} UnnamedStands(log: seq<Write>, key: Key, resource: Resource, flag: string)
    requires NoneNames(log, 0, key, flag)
    ensures flag in Written(log, key, resource) <==> flag in resource
    ensures flag in resource ==> Written(log, key, resource)[flag] == resource[flag]
  {
    if log != [] {
      assert !Names(log[|log| - 1], key, flag);
      UnnamedStands(log[..|log| - 1], key, resource, flag);
    }
  }

  // No landed write is lost, whatever the interleaving and whatever failed, part-way or
  // not: a field reads as the last write that named it, and else as it was at the outset.
  lemma NoUpdateIsLost(history: History, initial: map<Key, Resource>, key: Key, flag: string)
    requires Play(history, initial).Some? && AllCareful(history) && HarmlessThroughout(history, initial)
    ensures var w := Play(history, initial).value;
      var r, r0 := ResourceOf(w.queue.resources, key), ResourceOf(initial, key);
      && (forall n :: LastToName(w.log, n, key, flag) ==> flag in r && r[flag] == w.log[n].change[flag])
      && (NoneNames(w.log, 0, key, flag) ==> (flag in r <==> flag in r0) && (flag in r ==> r[flag] == r0[flag]))
  {
    NothingIsLostExactly(history, initial);
    var w := Play(history, initial).value;
    assert FaithfulAt(w, key, initial);
    forall n | LastToName(w.log, n, key, flag)
      ensures var r := ResourceOf(w.queue.resources, key); flag in r && r[flag] == w.log[n].change[flag]
    {
      LastWriteWins(w.log, key, ResourceOf(initial, key), flag, n);
    }
    if NoneNames(w.log, 0, key, flag) { UnnamedStands(w.log, key, ResourceOf(initial, key), flag); }
  }

  // ── without late landings ──────────────────────────────────────────────────

  // Nothing of a running task's resource has landed since it read.
  ghost predicate ReadStands(w: World, i: nat)
    requires i < |w.queue.tasks| && i < |w.marks|
  {
    w.queue.tasks[i].stage.Running? && HasJustRead(w.queue.tasks[i]) ==>
      forall n :: w.marks[i].readAt <= n < |w.log| ==> w.log[n].key != w.queue.tasks[i].key
  }

  predicate OfABegunTask(w: World, x: Write) {
    && x.task < |w.queue.tasks| && w.queue.tasks[x.task].key == x.key && !w.queue.tasks[x.task].stage.Waiting?
  }

  ghost predicate LandedInOrder(w: World) {
    && (forall n :: 0 <= n < |w.log| ==> OfABegunTask(w, w.log[n]))
    && (forall m, n :: 0 <= m < n < |w.log| && w.log[m].key == w.log[n].key ==> w.log[m].task <= w.log[n].task)
  }

  ghost predicate Undisturbed(w: World)
    requires InRange(w)
  {
    && (forall i :: 0 <= i < |w.marks| ==> ReadStands(w, i) && !w.marks[i].late && Careful(w.queue.tasks[i].ops))
    && LandedInOrder(w)
  }

  lemma NobodyElseRuns(s: State, i: nat, j: nat)
    requires Queued(s) && i < |s.tasks| && j < |s.tasks| && i != j
    requires s.tasks[i].key == s.tasks[j].key && s.tasks[i].stage.Running?
    ensures !s.tasks[j].stage.Running? && (!s.tasks[j].stage.Waiting? ==> j < i)
  {
  }

  lemma StepKeepsReads(w: World, v: World, j: nat, i: nat)
    requires Queued(w.queue) && Steps(w, v, j) && i < |w.marks| && ReadStands(w, i)
    ensures ReadStands(v, i) && v.marks[i].late == w.marks[i].late
  {
    if j != i && w.queue.tasks[i].key == w.queue.tasks[j].key && w.queue.tasks[i].stage.Running? {
      NobodyElseRuns(w.queue, j, i);
    }
  }

  lemma IdlingKeepsReads(w: World, v: World, i: nat)
    requires TasksOk(w.queue) && Idle(w, v) && i < |v.marks| && (i < |w.marks| ==> ReadStands(w, i) && !w.marks[i].late)
    ensures ReadStands(v, i) && !v.marks[i].late
  {
    if i < |w.marks| { assert IdleTask(w.queue.tasks[i], v.queue.tasks[i]); }
  }

  lemma MoveKeepsReads(w: World, v: World, h: Happening, i: nat)
    requires Queued(w.queue) && TasksOk(w.queue) && InRange(w) && Undisturbed(w)
    requires Moved(w, v, h) && h.OnTime? && i < |v.marks|
    ensures i < |v.queue.tasks| && ReadStands(v, i) && !v.marks[i].late
  {
    assert i < |w.marks| ==> ReadStands(w, i) && !w.marks[i].late;
    if h.event.Step? { StepKeepsReads(w, v, h.event.task, i); } else { IdlingKeepsReads(w, v, i); }
  }

  lemma IdlingKeepsOrder(w: World, v: World)
    requires LandedInOrder(w) && Idle(w, v)
    ensures LandedInOrder(v)
  {
    forall n | 0 <= n < |v.log|
      ensures OfABegunTask(v, v.log[n])
    {
      assert OfABegunTask(w, w.log[n]) && IdleTask(w.queue.tasks[w.log[n].task], v.queue.tasks[w.log[n].task]);
    }
  }

  lemma NoneIsAhead(w: World, j: nat, n: nat)
    requires Queued(w.queue) && CanLand(w.queue, j) && n < |w.log| && OfABegunTask(w, w.log[n])
    ensures w.log[n].key == w.queue.tasks[j].key ==> w.log[n].task <= j
  {
    if w.log[n].key == w.queue.tasks[j].key && w.log[n].task != j { NobodyElseRuns(w.queue, j, w.log[n].task); }
  }

  lemma StepKeepsOrder(w: World, v: World, j: nat)
    requires Queued(w.queue) && LandedInOrder(w) && Steps(w, v, j)
    ensures LandedInOrder(v)
  {
    forall n | 0 <= n < |w.log|
      ensures w.log[n].key == w.queue.tasks[j].key ==> w.log[n].task <= j
    {
      NoneIsAhead(w, j, n);
    }
    forall n | 0 <= n < |v.log|
      ensures OfABegunTask(v, v.log[n])
    {
      assert n < |w.log| ==> OfABegunTask(w, w.log[n]);
    }
  }

  lemma MoveKeepsUndisturbed(w: World, v: World, h: Happening)
    requires Queued(w.queue) && TasksOk(w.queue) && InRange(w) && InRange(v)
    requires Undisturbed(w) && Moved(w, v, h) && h.OnTime?
    requires forall i :: |w.marks| <= i < |v.marks| ==> Careful(v.queue.tasks[i].ops)
    ensures Undisturbed(v)
  {
    if h.event.Step? { StepKeepsOrder(w, v, h.event.task); } else { IdlingKeepsOrder(w, v); }
    forall i | 0 <= i < |v.marks|
      ensures ReadStands(v, i) && !v.marks[i].late && Careful(v.queue.tasks[i].ops)
    {
      MoveKeepsReads(w, v, h, i);
      if i < |w.marks| { assert Careful(w.queue.tasks[i].ops); }
    }
  }

  lemma {:induction false} AlwaysUndisturbed(history: History, initial: map<Key, Resource>)
    requires Play(history, initial).Some? && AllCareful(history) && NothingLate(history)
    ensures Marked(Play(history, initial).value) && Undisturbed(Play(history, initial).value)
  {
    AlwaysMarked(history, initial);
    if history.And? {
      AlwaysUndisturbed(history.before, initial);
      var w, v := Play(history.before, initial).value, Play(history, initial).value;
      WhatMoves(w, history.happening);
      NewOnesAreCareful(w, history.happening);
      MoveKeepsUndisturbed(w, v, history.happening);
    }
  }

  lemma NothingOfIt(log: seq<Write>, key: Key, resource: Resource)
    requires forall n :: 0 <= n < |log| ==> log[n].key != key
    ensures Written(log, key, resource) == resource
  {
  }

  lemma OnTimeDoesNoHarm(w: World, h: Happening)
    requires InRange(w) && Undisturbed(w) && h.OnTime? && Happens(w, h).Some?
    ensures Harmless(w, h)
  {
    if h.event.Step? && PutsWhole(w.queue, h.event.task) {
      var i := h.event.task;
      assert ReadStands(w, i) && Careful(w.queue.tasks[i].ops);
      NothingOfIt(w.log[w.marks[i].readAt..], w.queue.tasks[i].key, map[]);
    }
  }

  // Where every write lands in its turn, no write of the queue is lost, and the writes of
  // one resource land in the order its tasks arrived.
  lemma {:induction false} OnTimeIsHarmless(history: History, initial: map<Key, Resource>)
    requires Play(history, initial).Some? && AllCareful(history) && NothingLate(history)
    ensures HarmlessThroughout(history, initial) && FaithfulThroughout(history, initial)
    ensures LandedInOrder(Play(history, initial).value)
  {
    AlwaysUndisturbed(history, initial);
    if history.And? {
      OnTimeIsHarmless(history.before, initial);
      AlwaysUndisturbed(history.before, initial);
      OnTimeDoesNoHarm(Play(history.before, initial).value, history.happening);
    }
    NothingIsLostExactly(history, initial);
  }

  // A task that was to write and is given up on may still have that write land, once: over
  // whatever is there by then, from what it read, and past anyone who waits for it.
  lemma MayStillLand(history: History, initial: map<Key, Resource>, w: World, i: nat) returns (after: World)
    requires Play(history, initial) == Some(w) && i < |w.queue.tasks| && w.queue.tasks[i].stage.Running?
    requires w.queue.tasks[i].done < |w.queue.tasks[i].ops| && !w.queue.tasks[i].ops[w.queue.tasks[i].done].ReadWhole?
    ensures Play(And(And(history, OnTime(Fail(i))), LandsLate(i)), initial) == Some(after)
    ensures Happens(after, LandsLate(i)).None? && |after.queue.tasks| == |w.queue.tasks|
    ensures after.queue.tasks[i] == w.queue.tasks[i].(stage := Settled(false))
    ensures forall j :: 0 <= j < |w.queue.tasks| && j != i ==> after.queue.tasks[j] == w.queue.tasks[j]
    ensures var t := w.queue.tasks[i];
      && after.log == w.log + [Write(i, t.key, t.ops[t.done].change)]
      && ResourceOf(after.queue.resources, t.key)
           == (if t.ops[t.done].PutWhole? then t.held else ResourceOf(w.queue.resources, t.key)) + t.ops[t.done].change
  {
    AlwaysMarked(history, initial);
    var given := Happens(w, OnTime(Fail(i))).value;
    assert Play(And(history, OnTime(Fail(i))), initial) == Some(given);
    after := Happens(given, LandsLate(i)).value;
  }

  // ── what the queue cannot promise ──────────────────────────────────────────

  // A save that was given up on after it had read, and the next one after it.
  function GivenUpOn(key: Key, late: Resource): History {
    var h := And(Outset, OnTime(Arrive(key, SaveOps(late))));
    And(And(And(h, OnTime(Begin(0))), OnTime(Step(0))), OnTime(Fail(0)))
  }

  function NextReads(before: History, key: Key, next: Resource): History {
    And(And(And(before, OnTime(Arrive(key, SaveOps(next)))), OnTime(Begin(1))), OnTime(Step(1)))
  }

  lemma GivenUpOnIsCareful(key: Key, late: Resource)
    ensures AllCareful(GivenUpOn(key, late))
  {
    SavesAreCareful(late);
    var h1 := And(Outset, OnTime(Arrive(key, SaveOps(late))));
    assert AllCareful(h1);
    var h2 := And(h1, OnTime(Begin(0)));
    assert AllCareful(h2);
    var h3 := And(h2, OnTime(Step(0)));
    assert AllCareful(h3);
  }

  lemma FirstGivesUp(key: Key, r: Resource, late: Resource)
    ensures var h := GivenUpOn(key, late);
      Play(h, map[key := r]) == Some(World(
           State([Task(key, None, SaveOps(late), 1, r, Settled(false))], map[key := 0], map[key := r]),
             [Mark(0, false)], []))
  {
    var initial, t := map[key := r], Task(key, None, SaveOps(late), 0, map[], Waiting);
    var h1 := And(Outset, OnTime(Arrive(key, SaveOps(late))));
    var h2 := And(h1, OnTime(Begin(0)));
    var h3 := And(h2, OnTime(Step(0)));
    assert [] + [t] == [t] && [] + [Mark(0, false)] == [Mark(0, false)];
    assert Play(Outset, initial) == Some(World(State([], map[], initial), [], []));
    assert Play(h1, initial) == Some(World(State([t], map[key := 0], initial), [Mark(0, false)], []));
    var u := t.(stage := Running);
    assert [t][0 := u] == [u];
    assert Play(h2, initial) == Some(World(State([u], map[key := 0], initial), [Mark(0, false)], []));
    var v := u.(done := 1, held := r);
    assert [u][0 := v] == [v];
    assert initial[key := r] == initial && [Mark(0, false)][0 := Mark(0, false)] == [Mark(0, false)];
    assert Play(h3, initial) == Some(World(State([v], map[key := 0], initial), [Mark(0, false)], []));
    assert [v][0 := v.(stage := Settled(false))] == [v.(stage := Settled(false))];
  }

  // There the first has left its write behind, and the next is about to send its own.
  function AtTheRead(key: Key, r: Resource, late: Resource, next: Resource): World {
    World(
      State([Task(key, None, SaveOps(late), 1, r, Settled(false)), Task(key, Some(0), SaveOps(next), 1, r, Running)],
            map[key := 1], map[key := r]),
      [Mark(0, false), Mark(0, false)], [])
  }

  lemma NextHasRead(key: Key, r: Resource, late: Resource, next: Resource)
    ensures var h := NextReads(GivenUpOn(key, late), key, next);
      AllCareful(h) && Play(h, map[key := r]) == Some(AtTheRead(key, r, late, next))
  {
    FirstGivesUp(key, r, late);
    GivenUpOnIsCareful(key, late);
    SavesAreCareful(next);
    var initial, first := map[key := r], Task(key, None, SaveOps(late), 1, r, Settled(false));
    var t := Task(key, Some(0), SaveOps(next), 0, map[], Waiting);
    var marks := [Mark(0, false), Mark(0, false)];
    var h1 := And(GivenUpOn(key, late), OnTime(Arrive(key, SaveOps(next))));
    var h2 := And(h1, OnTime(Begin(1)));
    assert [first] + [t] == [first, t] && [Mark(0, false)] + [Mark(0, false)] == marks;
    assert map[key := 0][key := 1] == map[key := 1];
    assert Play(h1, initial) == Some(World(State([first, t], map[key := 1], initial), marks, []));
    var u := t.(stage := Running);
    assert [first, t][1 := u] == [first, u];
    assert Play(h2, initial) == Some(World(State([first, u], map[key := 1], initial), marks, []));
    var v := u.(done := 1, held := r);
    assert [first, u][1 := v] == [first, v] && marks[1 := Mark(0, false)] == marks;
    assert initial[key := r] == initial;
  }

  // Either way the second write to land is the resource.
  lemma NextThenLate(key: Key, r: Resource, late: Resource, next: Resource)
    ensures var v := Happens(AtTheRead(key, r, late, next), OnTime(Step(1)));
      v.Some? &&
      var u := Happens(v.value, LandsLate(0));
      u.Some? && u.value.log == [Write(1, key, next), Write(0, key, late)]
        && u.value.queue.resources == map[key := r + late]
  {
  }

  lemma LateThenNext(key: Key, r: Resource, late: Resource, next: Resource)
    ensures var v := Happens(AtTheRead(key, r, late, next), LandsLate(0));
      v.Some? &&
      var u := Happens(v.value, OnTime(Step(1)));
      u.Some? && u.value.log == [Write(0, key, late), Write(1, key, next)]
        && u.value.queue.resources == map[key := r + next]
  {
    LateLands(key, r, late, next);
  }

  lemma LateLands(key: Key, r: Resource, late: Resource, next: Resource)
    ensures var w := AtTheRead(key, r, late, next);
      Happens(w, LandsLate(0)) == Some(World(
        w.queue.(resources := map[key := r + late]), [Mark(0, true), Mark(0, false)], [Write(0, key, late)]))
  {
    var w := AtTheRead(key, r, late, next);
    assert w.queue.resources[key := r + late] == map[key := r + late];
    assert w.marks[0 := Mark(0, true)] == [Mark(0, true), Mark(0, false)];
    assert MayLandLate(w, 0) && w.log + [Write(0, key, late)] == [Write(0, key, late)];
  }

  lemma TwoMore(before: History, h: Happening, after: Happening, initial: map<Key, Resource>, w: World)
    requires Play(before, initial) == Some(w) && Happens(w, h).Some?
    ensures Play(And(And(before, h), after), initial) == Happens(Happens(w, h).value, after)
    ensures AllCareful(before) && !(h.OnTime? && h.event.Arrive?) && !(after.OnTime? && after.event.Arrive?) ==>
      AllCareful(And(And(before, h), after))
  {
  }

  // The late body lands after the next save: what that save set survives exactly as far
  // as the late body, read before it, holds or sets it.
  lemma LateAfterTheNext(key: Key, r: Resource, late: Resource, next: Resource) returns (history: History)
    ensures AllCareful(history) && Play(history, map[key := r]).Some?
    ensures Play(history, map[key := r]).value.log == [Write(1, key, next), Write(0, key, late)]
    ensures Play(history, map[key := r]).value.queue.resources == map[key := r + late]
    ensures Faithful(Play(history, map[key := r]).value, map[key := r]) <==> KeepsWhatLanded(r, next, late)
  {
    NextHasRead(key, r, late, next);
    NextThenLate(key, r, late, next);
    TwoMore(NextReads(GivenUpOn(key, late), key, next), OnTime(Step(1)), LandsLate(0), map[key := r],
      AtTheRead(key, r, late, next));
    history := And(And(NextReads(GivenUpOn(key, late), key, next), OnTime(Step(1))), LandsLate(0));
    var u := Play(history, map[key := r]).value;
    TwoWrites(u, key, r, Write(1, key, next), Write(0, key, late));
    PutExactly(r, next, late);
  }

  // The late body lands between the next save's read and its write: it is overwritten.
  lemma LateBeforeTheNext(key: Key, r: Resource, late: Resource, next: Resource) returns (history: History)
    ensures AllCareful(history) && Play(history, map[key := r]).Some?
    ensures Play(history, map[key := r]).value.log == [Write(0, key, late), Write(1, key, next)]
    ensures Play(history, map[key := r]).value.queue.resources == map[key := r + next]
    ensures Faithful(Play(history, map[key := r]).value, map[key := r]) <==> KeepsWhatLanded(r, late, next)
  {
    NextHasRead(key, r, late, next);
    LateThenNext(key, r, late, next);
    TwoMore(NextReads(GivenUpOn(key, late), key, next), LandsLate(0), OnTime(Step(1)), map[key := r],
      AtTheRead(key, r, late, next));
    history := And(And(NextReads(GivenUpOn(key, late), key, next), LandsLate(0)), OnTime(Step(1)));
    var u := Play(history, map[key := r]).value;
    TwoWrites(u, key, r, Write(0, key, late), Write(1, key, next));
    PutExactly(r, late, next);
  }

  lemma TwoWrites(w: World, key: Key, r: Resource, first: Write, second: Write)
    requires w.log == [first, second] && first.key == key && second.key == key
    requires w.queue.resources.Keys == {key}
    ensures Faithful(w, map[key := r]) <==> w.queue.resources[key] == (r + first.change) + second.change
  {
    assert key in w.queue.resources;
    assert w.log == ([] + [first]) + [second];
    WrittenOneMore([], first, key, r);
    WrittenOneMore([] + [first], second, key, r);
    assert FaithfulAt(w, key, map[key := r]) <==> w.queue.resources[key] == (r + first.change) + second.change;
    forall other | other != key
      ensures FaithfulAt(w, other, map[key := r])
    {
      assert other !in w.queue.resources;
      NothingOfIt(w.log, other, map[]);
    }
  }

  // Both ways a save that landed can be lost.
  lemma ALandedSaveCanBeLost(key: Key) returns (initial: map<Key, Resource>, after: History, before: History)
    ensures AllCareful(after) && Play(after, initial).Some? && !Faithful(Play(after, initial).value, initial)
    ensures AllCareful(before) && Play(before, initial).Some? && !Faithful(Play(before, initial).value, initial)
  {
    var r, late, next := map["rss" := "on", "search" := "on"], map["search" := "off"], map["rss" := "off"];
    assert "rss" in next && "search" in late;
    initial := map[key := r];
    after := LateAfterTheNext(key, r, late, next);
    before := LateBeforeTheNext(key, r, late, next);
  }
}
