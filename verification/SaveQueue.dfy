// One edit at a time: the promise-chain locks around whole-resource saves
// (src/lib/arr-system-data.ts, lines 303-406; src/lib/arr-title-data.ts, lines 243-322).
module SaveQueue {
  import opened Options

  type Key = string
  type Resource = map<string, string>

  // ── the lock table ─────────────────────────────────────────────────────────

  // The tail of each key's chain: the task that entered last, until it leaves.
  type Tails = map<Key, nat>

  function Entered(tails: Tails, key: Key, me: nat): Tails { tails[key := me] }

  function Gone(tails: Tails, key: Key, me: nat): Tails {
    if key in tails && tails[key] == me then tails - {key} else tails
  }

  class LockTable {
    var tails: Tails

    constructor ()
      ensures tails == map[]
    {
      tails := map[];
    }

    // Take a place behind the key's tail: what this task waits for, if anything.
    method Enter(key: Key, me: nat) returns (prev: Option<nat>)
      modifies this
      ensures prev == if key in old(tails) then Some(old(tails)[key]) else None
      ensures tails == Entered(old(tails), key, me)
    {
      prev := if key in tails then Some(tails[key]) else None;
      tails := tails[key := me];
    }

    // The task has settled: forget the key, unless another has entered behind it.
    method Leave(key: Key, me: nat)
      modifies this
      ensures tails == Gone(old(tails), key, me)
    {
      if key in tails && tails[key] == me {
        tails := tails - {key};
      }
    }
  }

  // ── what a task does to its resource ───────────────────────────────────────

  // Read the whole resource; put it back with some fields changed; or have the arr
  // change some fields itself (its editor).
  datatype Op = ReadWhole | PutWhole(change: Resource) | PutFields(change: Resource)

  datatype Effect = Effect(resource: Resource, held: Resource)

  function Do(op: Op, e: Effect): Effect {
    match op
    case ReadWhole => e.(held := e.resource)
    case PutWhole(change) => e.(resource := e.held + change)
    case PutFields(change) => e.(resource := e.resource + change)
  }

  // The operations run one after another with nobody in between.
  function DoAll(ops: seq<Op>, resource: Resource): Effect {
    if ops == [] then Effect(resource, map[])
    else Do(ops[|ops| - 1], DoAll(ops[..|ops| - 1], resource))
  }

  // A provider save; a title edit; a title edit with season switches, which re-reads
  // the series when the editor wrote first.
  function SaveOps(change: Resource): seq<Op> { [ReadWhole, PutWhole(change)] }

  function EditOps(fields: Option<Resource>, seasons: Option<Resource>): seq<Op> {
    [ReadWhole]
    + (if fields.Some? then [PutFields(fields.value)] else [])
    + (if seasons.Some? then (if fields.Some? then [ReadWhole] else []) + [PutWhole(seasons.value)] else [])
  }

  // ── tasks, interleaved ─────────────────────────────────────────────────────

  datatype Stage = Waiting | Running | Settled(ok: bool) | Left

  datatype Task = Task(key: Key, prev: Option<nat>, ops: seq<Op>, done: nat, held: Resource, stage: Stage)

  datatype State = State(tasks: seq<Task>, tails: Tails, resources: map<Key, Resource>)

  function ResourceOf(resources: map<Key, Resource>, key: Key): Resource {
    if key in resources then resources[key] else map[]
  }

  predicate Over(t: Task) { t.stage.Settled? || t.stage.Left? }

  datatype Event =
    | Arrive(key: Key, ops: seq<Op>)
    | Begin(task: nat)
    | Step(task: nat)      // the task's next operation lands
    | Fail(task: nat)      // it throws, with no effect of its own
    | Finish(task: nat)
    | Leave(task: nat)

  function WithTask(s: State, i: nat, t: Task): State
    requires i < |s.tasks|
  {
    s.(tasks := s.tasks[i := t])
  }

  predicate CanBegin(s: State, i: nat)
    requires i < |s.tasks|
  {
    var t := s.tasks[i];
    t.stage.Waiting? && (t.prev.None? || (t.prev.value < |s.tasks| && Over(s.tasks[t.prev.value])))
  }

  function Next(s: State, e: Event): Option<State> {
    match e
    case Arrive(key, ops) =>
      var prev := if key in s.tails then Some(s.tails[key]) else None;
      Some(s.(tasks := s.tasks + [Task(key, prev, ops, 0, map[], Waiting)], tails := Entered(s.tails, key, |s.tasks|)))
    case Begin(i) =>
      if i < |s.tasks| && CanBegin(s, i) then Some(WithTask(s, i, s.tasks[i].(stage := Running))) else None
    case Step(i) =>
      if i < |s.tasks| && s.tasks[i].stage.Running? && s.tasks[i].done < |s.tasks[i].ops| then
        var t := s.tasks[i];
        var e := Do(t.ops[t.done], Effect(ResourceOf(s.resources, t.key), t.held));
        Some(WithTask(s, i, t.(done := t.done + 1, held := e.held)).(resources := s.resources[t.key := e.resource]))
      else None
    case Fail(i) =>
      if i < |s.tasks| && s.tasks[i].stage.Running? then Some(WithTask(s, i, s.tasks[i].(stage := Settled(false))))
      else None
    case Finish(i) =>
      if i < |s.tasks| && s.tasks[i].stage.Running? && s.tasks[i].done == |s.tasks[i].ops| then
        Some(WithTask(s, i, s.tasks[i].(stage := Settled(true))))
      else None
    case Leave(i) =>
      if i < |s.tasks| && s.tasks[i].stage.Settled? then
        Some(WithTask(s, i, s.tasks[i].(stage := Left)).(tails := Gone(s.tails, s.tasks[i].key, i)))
      else None
  }

  datatype Trace = Start | Then(before: Trace, event: Event)

  function Run(trace: Trace, resources: map<Key, Resource>): Option<State> {
    match trace
    case Start => Some(State([], map[], resources))
    case Then(before, event) =>
      match Run(before, resources)
      case None => None
      case Some(s) => Next(s, event)
  }

  // ── first come, first served, one at a time ────────────────────────────────

  // A task that has begun has every earlier task of its key behind it.
  ghost predicate InTurn(s: State) {
    forall i, j :: 0 <= i < j < |s.tasks| && s.tasks[i].key == s.tasks[j].key && !s.tasks[j].stage.Waiting? ==>
      Over(s.tasks[i])
  }

  ghost predicate LastOfKey(tasks: seq<Task>, i: nat, key: Key) {
    && i < |tasks| && tasks[i].key == key
    && forall j :: i < j < |tasks| ==> tasks[j].key != key
  }

  ghost predicate AllOver(tasks: seq<Task>, key: Key) {
    forall i :: 0 <= i < |tasks| && tasks[i].key == key ==> Over(tasks[i])
  }

  // An entry is its key's last task, which has not left; a key with no entry is idle.
  ghost predicate TailsOk(s: State) {
    && (forall key :: key in s.tails ==> LastOfKey(s.tasks, s.tails[key], key) && !s.tasks[s.tails[key]].stage.Left?)
    && (forall i :: 0 <= i < |s.tasks| && s.tasks[i].key !in s.tails ==> Over(s.tasks[i]))
  }

  // What a task waits for is the task of its key just before it.
  ghost predicate ChainOk(s: State) {
    forall j :: 0 <= j < |s.tasks| ==>
      match s.tasks[j].prev
      case Some(p) => p < j && LastOfKey(s.tasks[..j], p, s.tasks[j].key)
      case None => forall i :: 0 <= i < j && s.tasks[i].key == s.tasks[j].key ==> Over(s.tasks[i])
  }

  ghost predicate Queued(s: State) { InTurn(s) && TailsOk(s) && ChainOk(s) }

  // A step that moves one task along, and neither un-settles it nor changes its place.
  ghost predicate Moves(s: State, v: State, i: nat) {
    && i < |s.tasks| == |v.tasks|
    && (forall j :: 0 <= j < |s.tasks| && j != i ==> v.tasks[j] == s.tasks[j])
    && v.tasks[i].key == s.tasks[i].key && v.tasks[i].prev == s.tasks[i].prev
    && (Over(s.tasks[i]) ==> Over(v.tasks[i]))
  }

  lemma MoveKeepsChain(s: State, v: State, i: nat)
    requires ChainOk(s) && Moves(s, v, i)
    ensures ChainOk(v)
  {
    forall j | 0 <= j < |v.tasks|
      ensures match v.tasks[j].prev
        case Some(p) => p < j && LastOfKey(v.tasks[..j], p, v.tasks[j].key)
        case None => forall k :: 0 <= k < j && v.tasks[k].key == v.tasks[j].key ==> Over(v.tasks[k])
    {
      assert v.tasks[j].prev == s.tasks[j].prev && v.tasks[j].key == s.tasks[j].key;
      if s.tasks[j].prev.Some? {
        assert LastOfKey(s.tasks[..j], s.tasks[j].prev.value, s.tasks[j].key);
      }
    }
  }

  lemma BeginKeepsTurn(s: State, i: nat)
    requires Queued(s) && i < |s.tasks| && CanBegin(s, i)
    ensures forall j :: 0 <= j < i && s.tasks[j].key == s.tasks[i].key ==> Over(s.tasks[j])
  {
    var t := s.tasks[i];
    if t.prev.Some? {
      var p := t.prev.value;
      assert LastOfKey(s.tasks[..i], p, t.key);
      assert s.tasks[p].key == t.key;
      forall j | 0 <= j < i && s.tasks[j].key == t.key
        ensures Over(s.tasks[j])
      {
        assert s.tasks[..i][j].key == t.key;
      }
    }
  }

  lemma MoveKeepsQueued(s: State, v: State, i: nat)
    requires Queued(s) && Moves(s, v, i) && v.tails == s.tails && !v.tasks[i].stage.Left?
    requires !v.tasks[i].stage.Waiting? && (s.tasks[i].stage.Waiting? ==> CanBegin(s, i))
    ensures Queued(v)
  {
    MoveKeepsChain(s, v, i);
    MoveKeepsTails(s, v, i);
    if s.tasks[i].stage.Waiting? { BeginKeepsTurn(s, i); }
  }

  lemma StepKeepsQueued(s: State, e: Event, v: State)
    requires Queued(s) && Next(s, e) == Some(v)
    ensures Queued(v)
  {
    match e
    case Arrive(key, ops) => ArriveKeepsQueued(s, key, ops, v);
    case Begin(i) => MoveKeepsQueued(s, v, i);
    case Step(i) => MoveKeepsQueued(s, v, i);
    case Fail(i) => MoveKeepsQueued(s, v, i);
    case Finish(i) => MoveKeepsQueued(s, v, i);
    case Leave(i) => MoveKeepsChain(s, v, i); LeaveKeepsTails(s, i, v);
  }

  lemma MoveKeepsTails(s: State, v: State, i: nat)
    requires TailsOk(s) && Moves(s, v, i) && v.tails == s.tails && !v.tasks[i].stage.Left?
    ensures TailsOk(v)
  {
  }

  lemma LeaveKeepsTails(s: State, i: nat, v: State)
    requires Queued(s) && Next(s, Leave(i)) == Some(v)
    ensures TailsOk(v)
  {
    forall key | key in v.tails
      ensures LastOfKey(v.tasks, v.tails[key], key) && !v.tasks[v.tails[key]].stage.Left?
    {
      assert key in s.tails && v.tails[key] == s.tails[key];
      assert LastOfKey(s.tasks, s.tails[key], key) && s.tails[key] != i;
    }
    forall j | 0 <= j < |v.tasks| && v.tasks[j].key !in v.tails
      ensures Over(v.tasks[j])
    {
      if s.tasks[j].key in s.tails {
        assert LastOfKey(s.tasks, i, s.tasks[j].key);
      }
    }
  }

  lemma ArriveKeepsChain(s: State, key: Key, ops: seq<Op>, v: State)
    requires TailsOk(s) && ChainOk(s) && Next(s, Arrive(key, ops)) == Some(v)
    ensures ChainOk(v)
  {
    var n := |s.tasks|;
    assert forall j :: 0 <= j < n ==> v.tasks[j] == s.tasks[j] && v.tasks[..j] == s.tasks[..j];
    assert v.tasks[..n] == s.tasks;
    forall j | 0 <= j < |v.tasks|
      ensures match v.tasks[j].prev
        case Some(p) => p < j && LastOfKey(v.tasks[..j], p, v.tasks[j].key)
        case None => forall k :: 0 <= k < j && v.tasks[k].key == v.tasks[j].key ==> Over(v.tasks[k])
    {
      if j == n && key in s.tails {
        assert LastOfKey(s.tasks, s.tails[key], key);
      }
    }
  }

  lemma ArriveKeepsQueued(s: State, key: Key, ops: seq<Op>, v: State)
    requires Queued(s) && Next(s, Arrive(key, ops)) == Some(v)
    ensures Queued(v)
  {
    ArriveKeepsChain(s, key, ops, v);
    assert forall j :: 0 <= j < |s.tasks| ==> v.tasks[j] == s.tasks[j];
  }

  lemma {:induction false} AlwaysQueued(trace: Trace, resources: map<Key, Resource>)
    requires Run(trace, resources).Some?
    ensures Queued(Run(trace, resources).value)
  {
    if trace.Then? {
      AlwaysQueued(trace.before, resources);
      StepKeepsQueued(Run(trace.before, resources).value, trace.event, Run(trace, resources).value);
    }
  }

  // At most one task of a key runs at any time, and no task overtakes an earlier one.
  lemma OneAtATimeInOrder(trace: Trace, resources: map<Key, Resource>, i: nat, j: nat)
    requires Run(trace, resources).Some? && i < j < |Run(trace, resources).value.tasks|
    requires Run(trace, resources).value.tasks[i].key == Run(trace, resources).value.tasks[j].key
    ensures var s := Run(trace, resources).value;
      && !(s.tasks[i].stage.Running? && s.tasks[j].stage.Running?)
      && (!s.tasks[j].stage.Waiting? ==> Over(s.tasks[i]))
  {
    AlwaysQueued(trace, resources);
  }

  // Once every earlier task of the key has settled, however it did, the next may begin.
  lemma NothingBlocksTheNext(trace: Trace, resources: map<Key, Resource>, j: nat)
    requires Run(trace, resources).Some? && j < |Run(trace, resources).value.tasks|
    requires var s := Run(trace, resources).value;
      s.tasks[j].stage.Waiting? && forall i :: 0 <= i < j && s.tasks[i].key == s.tasks[j].key ==> Over(s.tasks[i])
    ensures Next(Run(trace, resources).value, Begin(j)).Some?
  {
    AlwaysQueued(trace, resources);
    var s := Run(trace, resources).value;
    if s.tasks[j].prev.Some? {
      assert LastOfKey(s.tasks[..j], s.tasks[j].prev.value, s.tasks[j].key);
      assert s.tasks[..j][s.tasks[j].prev.value].key == s.tasks[j].key;
    }
  }

  // No entry outlives its last user: a key has one exactly while a task of it is still in.
  lemma EntriesAreUsed(trace: Trace, resources: map<Key, Resource>, key: Key)
    requires Run(trace, resources).Some?
    ensures var s := Run(trace, resources).value;
      && (key in s.tails ==> exists i :: 0 <= i < |s.tasks| && s.tasks[i].key == key && !s.tasks[i].stage.Left?)
      && (key !in s.tails ==> AllOver(s.tasks, key))
  {
    AlwaysQueued(trace, resources);
  }

  // ── no interleaving loses an update ────────────────────────────────────────

  // The resource as if the tasks of its key had run one after another, each as far as
  // it has come.
  function Serial(tasks: seq<Task>, key: Key, resource: Resource): Resource
    requires forall i :: 0 <= i < |tasks| ==> tasks[i].done <= |tasks[i].ops|
  {
    if tasks == [] then resource
    else
      var before := Serial(tasks[..|tasks| - 1], key, resource);
      var t := tasks[|tasks| - 1];
      if t.key == key then DoAll(t.ops[..t.done], before).resource else before
  }

  ghost predicate TasksOk(s: State) {
    forall i :: 0 <= i < |s.tasks| ==>
      && s.tasks[i].done <= |s.tasks[i].ops|
      && (s.tasks[i].stage.Waiting? ==> s.tasks[i].done == 0 && s.tasks[i].held == map[])
  }

  ghost predicate DoneInBounds(tasks: seq<Task>) {
    forall i :: 0 <= i < |tasks| ==> tasks[i].done <= |tasks[i].ops|
  }

  // What a task holds is what it would hold in the serial run.
  ghost predicate HoldsSerial(tasks: seq<Task>, i: nat, initial: map<Key, Resource>)
    requires DoneInBounds(tasks) && i < |tasks|
  {
    tasks[i].held == DoAll(tasks[i].ops[..tasks[i].done],
      Serial(tasks[..i], tasks[i].key, ResourceOf(initial, tasks[i].key))).held
  }

  // The serial run says this of a key's resource.
  ghost predicate ResourceIsSerial(s: State, key: Key, initial: map<Key, Resource>)
    requires TasksOk(s)
  {
    ResourceOf(s.resources, key) == Serial(s.tasks, key, ResourceOf(initial, key))
  }

  // Every resource is the serial one, and a running task holds what it would hold there.
  ghost predicate Serialized(s: State, initial: map<Key, Resource>)
    requires TasksOk(s)
  {
    && (forall key :: ResourceIsSerial(s, key, initial))
    && (forall i :: 0 <= i < |s.tasks| && s.tasks[i].stage.Running? ==> HoldsSerial(s.tasks, i, initial))
  }

  lemma {:induction false} IdleTasksChangeNothing(tasks: seq<Task>, i: nat, key: Key, resource: Resource)
    requires forall j :: 0 <= j < |tasks| ==> tasks[j].done <= |tasks[j].ops|
    requires i <= |tasks| && forall j :: i <= j < |tasks| && tasks[j].key == key ==> tasks[j].done == 0
    ensures Serial(tasks, key, resource) == Serial(tasks[..i], key, resource)
    decreases |tasks|
  {
    if i < |tasks| {
      var n := |tasks| - 1;
      IdleTasksChangeNothing(tasks[..n], i, key, resource);
      assert tasks[..n][..i] == tasks[..i];
    } else {
      assert tasks[..i] == tasks;
    }
  }

  lemma {:induction false} SerialDependsOn(a: seq<Task>, b: seq<Task>, key: Key, resource: Resource)
    requires |a| == |b| && forall j :: 0 <= j < |a| ==> a[j].done <= |a[j].ops| && b[j].done <= |b[j].ops|
    requires forall j :: 0 <= j < |a| ==>
      a[j].key == b[j].key && (a[j].key == key ==> a[j].ops == b[j].ops && a[j].done == b[j].done)
    ensures Serial(a, key, resource) == Serial(b, key, resource)
    decreases |a|
  {
    if a != [] {
      SerialDependsOn(a[..|a| - 1], b[..|b| - 1], key, resource);
    }
  }

  // A step that lands nothing.
  ghost predicate SameWork(s: State, v: State) {
    && |s.tasks| == |v.tasks| && v.resources == s.resources
    && forall j :: 0 <= j < |s.tasks| ==>
       v.tasks[j].key == s.tasks[j].key && v.tasks[j].ops == s.tasks[j].ops && v.tasks[j].done == s.tasks[j].done
  }

  // Nor does it change what anyone holds, and only a waiting task begins.
  ghost predicate Quiet(s: State, v: State) {
    && SameWork(s, v)
    && (forall j :: 0 <= j < |s.tasks| ==> v.tasks[j].held == s.tasks[j].held)
    && (forall j :: 0 <= j < |s.tasks| && v.tasks[j].stage.Running? ==>
       s.tasks[j].stage.Running? || s.tasks[j].stage.Waiting?)
    && (forall j :: 0 <= j < |s.tasks| && v.tasks[j].stage.Waiting? ==> s.tasks[j].stage.Waiting?)
  }

  lemma QuietHolds(s: State, v: State, j: nat, initial: map<Key, Resource>)
    requires TasksOk(s) && TasksOk(v) && SameWork(s, v) && j < |s.tasks|
    requires HoldsSerial(s.tasks, j, initial) && v.tasks[j].held == s.tasks[j].held
    ensures HoldsSerial(v.tasks, j, initial)
  {
    SerialDependsOn(v.tasks[..j], s.tasks[..j], v.tasks[j].key, ResourceOf(initial, v.tasks[j].key));
  }

  // A task that has done nothing holds nothing.
  lemma FreshHolds(tasks: seq<Task>, j: nat, initial: map<Key, Resource>)
    requires DoneInBounds(tasks) && j < |tasks| && tasks[j].done == 0 && tasks[j].held == map[]
    ensures HoldsSerial(tasks, j, initial)
  {
    assert tasks[j].ops[..0] == [];
  }

  lemma QuietStep(s: State, v: State, initial: map<Key, Resource>)
    requires TasksOk(s) && Serialized(s, initial) && Quiet(s, v)
    ensures TasksOk(v) && Serialized(v, initial)
  {
    forall key
      ensures ResourceIsSerial(v, key, initial)
    {
      assert ResourceIsSerial(s, key, initial);
      SerialDependsOn(v.tasks, s.tasks, key, ResourceOf(initial, key));
    }
    forall j | 0 <= j < |v.tasks| && v.tasks[j].stage.Running?
      ensures HoldsSerial(v.tasks, j, initial)
    {
      if s.tasks[j].stage.Waiting? { FreshHolds(v.tasks, j, initial); } else { QuietHolds(s, v, j, initial); }
    }
  }

  // When no later task of the key has done anything, the serial resource is this task's.
  lemma SerialAt(tasks: seq<Task>, i: nat, key: Key, resource: Resource)
    requires i < |tasks| && tasks[i].key == key && forall j :: 0 <= j < |tasks| ==> tasks[j].done <= |tasks[j].ops|
    requires forall j :: i < j < |tasks| && tasks[j].key == key ==> tasks[j].done == 0
    ensures Serial(tasks, key, resource) == DoAll(tasks[i].ops[..tasks[i].done],
      Serial(tasks[..i], key, resource)).resource
  {
    IdleTasksChangeNothing(tasks, i + 1, key, resource);
    assert tasks[..i + 1][..i] == tasks[..i];
  }

  // Where a task of a key runs, the later ones of the key have not begun.
  lemma LaterOnesWait(s: State, i: nat)
    requires Queued(s) && TasksOk(s) && i < |s.tasks| && s.tasks[i].stage.Running?
    ensures forall j :: i < j < |s.tasks| && s.tasks[j].key == s.tasks[i].key ==>
      s.tasks[j].stage.Waiting? && s.tasks[j].done == 0
  {
  }

  // What the landing task's own resource, and what it holds, become.
  predicate CanLand(s: State, i: nat) {
    i < |s.tasks| && s.tasks[i].stage.Running? && s.tasks[i].done < |s.tasks[i].ops|
  }

  // The state after the task's next operation has landed.
  function Landed(s: State, i: nat): (v: State)
    requires CanLand(s, i)
    ensures Next(s, Step(i)) == Some(v)
  {
    var t := s.tasks[i];
    var e := Do(t.ops[t.done], Effect(ResourceOf(s.resources, t.key), t.held));
    WithTask(s, i, t.(done := t.done + 1, held := e.held)).(resources := s.resources[t.key := e.resource])
  }

  lemma LandHere(s: State, i: nat, v: State, initial: map<Key, Resource>)
    requires Queued(s) && TasksOk(s) && CanLand(s, i) && v == Landed(s, i) && TasksOk(v)
    requires ResourceIsSerial(s, s.tasks[i].key, initial) && HoldsSerial(s.tasks, i, initial)
    ensures ResourceIsSerial(v, s.tasks[i].key, initial) && HoldsSerial(v.tasks, i, initial)
  {
    var t, k := s.tasks[i], s.tasks[i].key;
    var r0 := ResourceOf(initial, k);
    var before := Serial(s.tasks[..i], k, r0);
    LaterOnesWait(s, i);
    SerialAt(s.tasks, i, k, r0);
    assert Effect(ResourceOf(s.resources, k), t.held) == DoAll(t.ops[..t.done], before);
    DoOneMore(t.ops[..t.done], t.ops[t.done], before);
    assert t.ops[..t.done + 1] == t.ops[..t.done] + [t.ops[t.done]];
    assert v.tasks[..i] == s.tasks[..i];
    SerialAt(v.tasks, i, k, r0);
  }

  lemma LandElsewhere(s: State, i: nat, v: State, initial: map<Key, Resource>, j: nat)
    requires TasksOk(s) && CanLand(s, i) && v == Landed(s, i) && TasksOk(v)
    requires j < |s.tasks| && j != i && (i < j ==> s.tasks[j].key != s.tasks[i].key) && HoldsSerial(s.tasks, j, initial)
    ensures HoldsSerial(v.tasks, j, initial)
  {
    var k := s.tasks[j].key;
    SerialDependsOn(v.tasks[..j], s.tasks[..j], k, ResourceOf(initial, k));
  }

  lemma LandKeepsSerial(s: State, i: nat, v: State, initial: map<Key, Resource>)
    requires Queued(s) && TasksOk(s) && Serialized(s, initial) && CanLand(s, i) && v == Landed(s, i)
    ensures TasksOk(v) && Serialized(v, initial)
  {
    LandingIsInBounds(s, i, v);
    LaterOnesWait(s, i);
    assert ResourceIsSerial(s, s.tasks[i].key, initial);
    LandHere(s, i, v, initial);
    forall key | key != s.tasks[i].key
      ensures ResourceIsSerial(v, key, initial)
    {
      assert ResourceIsSerial(s, key, initial);
      SerialDependsOn(v.tasks, s.tasks, key, ResourceOf(initial, key));
    }
    forall j | 0 <= j < |v.tasks| && v.tasks[j].stage.Running?
      ensures HoldsSerial(v.tasks, j, initial)
    {
      if j != i { LandElsewhere(s, i, v, initial, j); }
    }
    assert forall key :: ResourceIsSerial(v, key, initial);
  }

  lemma ArriveKeepsSerial(s: State, key: Key, ops: seq<Op>, v: State, initial: map<Key, Resource>)
    requires TasksOk(s) && Serialized(s, initial) && Next(s, Arrive(key, ops)) == Some(v)
    ensures TasksOk(v) && Serialized(v, initial)
  {
    var n := |s.tasks|;
    assert v.tasks[..n] == s.tasks;
    forall k
      ensures ResourceIsSerial(v, k, initial)
    {
      assert ResourceIsSerial(s, k, initial);
      IdleTasksChangeNothing(v.tasks, n, k, ResourceOf(initial, k));
    }
    assert forall i :: 0 <= i < n ==> v.tasks[..i] == s.tasks[..i];
  }

  lemma OthersAreQuiet(s: State, e: Event, v: State)
    requires Next(s, e) == Some(v) && !e.Arrive? && !e.Step?
    ensures Quiet(s, v)
  {
  }

  lemma LandingIsInBounds(s: State, i: nat, v: State)
    requires TasksOk(s) && Next(s, Step(i)) == Some(v)
    ensures TasksOk(v)
  {
  }

  lemma StepKeepsSerial(s: State, e: Event, v: State, initial: map<Key, Resource>)
    requires Queued(s) && TasksOk(s) && Serialized(s, initial) && Next(s, e) == Some(v)
    ensures TasksOk(v) && Serialized(v, initial)
  {
    if e.Arrive? {
      ArriveKeepsSerial(s, e.key, e.ops, v, initial);
    } else if e.Step? {
      LandKeepsSerial(s, e.task, v, initial);
    } else {
      OthersAreQuiet(s, e, v);
      QuietStep(s, v, initial);
    }
  }

  // Whatever the interleaving and whatever fails, each resource is what running its
  // tasks one after another, in arrival order, would have made of it.
  lemma {:induction false} AlwaysSerial(trace: Trace, initial: map<Key, Resource>)
    requires Run(trace, initial).Some?
    ensures Queued(Run(trace, initial).value) && TasksOk(Run(trace, initial).value)
    ensures Serialized(Run(trace, initial).value, initial)
  {
    AlwaysQueued(trace, initial);
    if trace.Then? {
      AlwaysSerial(trace.before, initial);
      StepKeepsSerial(Run(trace.before, initial).value, trace.event, Run(trace, initial).value, initial);
    }
  }

  // A provider save is all or nothing: its flags over whatever was there.
  lemma SaveMeans(change: Resource, done: nat, resource: Resource)
    requires done <= 2
    ensures DoAll(SaveOps(change)[..done], resource).resource == if done == 2 then resource + change else resource
  {
    var ops := SaveOps(change);
    assert ops[..2] == ops && ops[..1][..0] == [] && ops[..2][..1] == ops[..1];
    if done == 1 { assert DoAll(ops[..1], resource) == Do(ops[0], DoAll([], resource)); }
    if done == 2 { assert DoAll(ops[..2], resource) == Do(ops[1], Do(ops[0], DoAll([], resource))); }
  }

  lemma DoOneMore(ops: seq<Op>, op: Op, resource: Resource)
    ensures DoAll(ops + [op], resource) == Do(op, DoAll(ops, resource))
  {
    assert (ops + [op])[..|ops|] == ops;
  }

  // ── what an edit means, however far it came ────────────────────────────────

  // The changes the operations write, in order.
  function Writes(ops: seq<Op>): seq<Resource> {
    if ops == [] then []
    else
      var op := ops[|ops| - 1];
      var before := Writes(ops[..|ops| - 1]);
      if op.ReadWhole? then before else before + [op.change]
  }

  function Apply(resource: Resource, changes: seq<Resource>): Resource {
    if changes == [] then resource else Apply(resource, changes[..|changes| - 1]) + changes[|changes| - 1]
  }

  lemma ApplyOneMore(resource: Resource, changes: seq<Resource>, change: Resource)
    ensures Apply(resource, changes + [change]) == Apply(resource, changes) + change
  {
    assert (changes + [change])[..|changes|] == changes;
  }

  // What is put back whole was read just before.
  predicate Careful(ops: seq<Op>) {
    forall k :: 0 <= k < |ops| && ops[k].PutWhole? ==> k > 0 && ops[k - 1].ReadWhole?
  }

  lemma EditsAreCareful(fields: Option<Resource>, seasons: Option<Resource>)
    ensures Careful(EditOps(fields, seasons))
    ensures seasons.Some? ==> EditOps(None, seasons) == SaveOps(seasons.value)
    ensures Writes(EditOps(fields, seasons)) ==
      (if fields.Some? then [fields.value] else []) + (if seasons.Some? then [seasons.value] else [])
  {
    var r := [ReadWhole];
    WritesOneMore([], ReadWhole);
    assert [] + r == r;
    match (fields, seasons)
    case (None, None) =>
      assert EditOps(fields, seasons) == r;
    case (Some(f), None) =>
      WritesOneMore(r, PutFields(f));
      assert EditOps(fields, seasons) == r + [PutFields(f)];
    case (None, Some(s)) =>
      WritesOneMore(r, PutWhole(s));
      assert EditOps(fields, seasons) == r + [PutWhole(s)];
    case (Some(f), Some(s)) =>
      BothAreWritten(f, s);
  }

  lemma BothAreWritten(f: Resource, s: Resource)
    ensures Careful(EditOps(Some(f), Some(s))) && Writes(EditOps(Some(f), Some(s))) == [f, s]
  {
    var a, b := [ReadWhole, PutFields(f)], [ReadWhole, PutFields(f), ReadWhole];
    WritesOneMore([], ReadWhole);
    assert [] + [ReadWhole] == [ReadWhole];
    WritesOneMore([ReadWhole], PutFields(f));
    assert [ReadWhole] + [PutFields(f)] == a;
    assert Writes(a) == [f];
    WritesOneMore(a, ReadWhole);
    assert a + [ReadWhole] == b;
    WritesOneMore(b, PutWhole(s));
    assert Writes(b + [PutWhole(s)]) == [f, s];
    assert EditOps(Some(f), Some(s)) == b + [PutWhole(s)];
  }

  lemma SavesAreCareful(change: Resource)
    ensures Careful(SaveOps(change)) && Writes(SaveOps(change)) == [change]
  {
    EditsAreCareful(None, Some(change));
  }

  lemma WritesOneMore(ops: seq<Op>, op: Op)
    ensures Writes(ops + [op]) == if op.ReadWhole? then Writes(ops) else Writes(ops) + [op.change]
  {
    assert (ops + [op])[..|ops|] == ops;
  }

  lemma HoldsWhatItRead(ops: seq<Op>, resource: Resource)
    requires ops != [] && ops[|ops| - 1].ReadWhole?
    ensures DoAll(ops, resource).held == DoAll(ops, resource).resource
  {
  }

  // An edit with nobody in between, stopped at any point: just the changes it has written
  // are in, each over those before it. Its season switches never put back what its
  // editor's write had changed.
  lemma {:induction false} EditMeans(ops: seq<Op>, done: nat, resource: Resource)
    requires Careful(ops) && done <= |ops|
    ensures DoAll(ops[..done], resource).resource == Apply(resource, Writes(ops[..done]))
  {
    if done > 0 {
      EditMeans(ops, done - 1, resource);
      var before, op := ops[..done - 1], ops[done - 1];
      assert ops[..done] == before + [op];
      DoOneMore(before, op, resource);
      WritesOneMore(before, op);
      match op
      case ReadWhole =>
      case PutFields(change) => ApplyOneMore(resource, Writes(before), change);
      case PutWhole(change) =>
        ApplyOneMore(resource, Writes(before), change);
        assert ops[done - 1].PutWhole?;
        HoldsWhatItRead(before, resource);
    }
  }

  // ── nothing is ever stuck ──────────────────────────────────────────────────

  // A run that goes on from another, with nobody new.
  predicate GoesOn(from: Trace, to: Trace) {
    to == from || (to.Then? && !to.event.Arrive? && GoesOn(from, to.before))
  }

  lemma {:induction false} GoesOnFurther(from: Trace, over: Trace, to: Trace)
    requires GoesOn(from, over) && GoesOn(over, to)
    ensures GoesOn(from, to)
  {
    if to != over { GoesOnFurther(from, over, to.before); }
  }

  // What the task is, and every other as it stands, stay.
  ghost predicate OnlyMoves(s: State, v: State, i: nat) {
    && i < |s.tasks| == |v.tasks|
    && v.tasks[i].key == s.tasks[i].key && v.tasks[i].ops == s.tasks[i].ops
    && forall j :: 0 <= j < |s.tasks| && j != i ==> v.tasks[j] == s.tasks[j]
  }

  predicate IsAt(t: Task, done: nat, stage: Stage) { t.done == done && t.stage == stage }

  lemma {:induction false} RunsOn(trace: Trace, resources: map<Key, Resource>, s: State, i: nat, k: nat)
    returns (to: Trace)
    requires Run(trace, resources) == Some(s) && i < |s.tasks| && s.tasks[i].stage.Running?
    requires s.tasks[i].done <= k <= |s.tasks[i].ops|
    ensures GoesOn(trace, to) && Run(to, resources).Some?
    ensures OnlyMoves(s, Run(to, resources).value, i) && IsAt(Run(to, resources).value.tasks[i], k, Running)
    decreases k
  {
    to := trace;
    if s.tasks[i].done < k {
      var before := RunsOn(trace, resources, s, i, k - 1);
      to := Then(before, Step(i));
    }
  }

  // A task still in runs as far as its operations go, or throws at any point before, when
  // the earlier ones of its key have settled; and no other is disturbed.
  lemma ATaskMaySettle(trace: Trace, resources: map<Key, Resource>, s: State, i: nat, k: nat, ok: bool)
    returns (to: Trace)
    requires Run(trace, resources) == Some(s) && i < |s.tasks| && !Over(s.tasks[i])
    requires forall j :: 0 <= j < i && s.tasks[j].key == s.tasks[i].key ==> Over(s.tasks[j])
    requires s.tasks[i].done <= k <= |s.tasks[i].ops| && (ok ==> k == |s.tasks[i].ops|)
    ensures GoesOn(trace, to) && Run(to, resources).Some?
    ensures OnlyMoves(s, Run(to, resources).value, i) && IsAt(Run(to, resources).value.tasks[i], k, Settled(ok))
  {
    var from, t := trace, s;
    if s.tasks[i].stage.Waiting? {
      NothingBlocksTheNext(trace, resources, i);
      from := Then(trace, Begin(i));
      t := Next(s, Begin(i)).value;
    }
    var over := RunsOn(from, resources, t, i, k);
    GoesOnFurther(trace, from, over);
    to := Then(over, if ok then Finish(i) else Fail(i));
  }

  // A task is answered well only when all its operations have landed.
  lemma {:induction false} WellOnlyWhenDone(trace: Trace, resources: map<Key, Resource>)
    requires Run(trace, resources).Some?
    ensures var s := Run(trace, resources).value;
      forall i :: 0 <= i < |s.tasks| && s.tasks[i].stage == Settled(true) ==> s.tasks[i].done == |s.tasks[i].ops|
  {
    if trace.Then? { WellOnlyWhenDone(trace.before, resources); }
  }

  // What the task was when the others stood like this: a task over stays as far as it came,
  // any other has run to its end.
  predicate CameThrough(was: Task, now: Task) {
    && now.stage.Left? && now.key == was.key && now.ops == was.ops
    && now.done == if Over(was) then was.done else |was.ops|
  }

  // The first tasks can all run to their end and leave, in the order they came.
  lemma {:induction false} DrainsUpTo(trace: Trace, resources: map<Key, Resource>, s: State, n: nat) returns (to: Trace)
    requires Run(trace, resources) == Some(s) && n <= |s.tasks|
    ensures GoesOn(trace, to) && Run(to, resources).Some? && |Run(to, resources).value.tasks| == |s.tasks|
    ensures var v := Run(to, resources).value;
      && (forall i :: 0 <= i < n ==> CameThrough(s.tasks[i], v.tasks[i]))
      && (forall i :: n <= i < |s.tasks| ==> v.tasks[i] == s.tasks[i])
  {
    to := trace;
    if n > 0 {
      var before := DrainsUpTo(trace, resources, s, n - 1);
      var v := Run(before, resources).value;
      to := OneLeaves(before, resources, v, n - 1);
      GoesOnFurther(trace, before, to);
    }
  }

  lemma OneLeaves(trace: Trace, resources: map<Key, Resource>, s: State, i: nat) returns (to: Trace)
    requires Run(trace, resources) == Some(s) && i < |s.tasks| && forall j :: 0 <= j < i ==> s.tasks[j].stage.Left?
    ensures GoesOn(trace, to) && Run(to, resources).Some?
    ensures OnlyMoves(s, Run(to, resources).value, i) && CameThrough(s.tasks[i], Run(to, resources).value.tasks[i])
  {
    AlwaysSerial(trace, resources);
    to := trace;
    if !s.tasks[i].stage.Left? {
      if !Over(s.tasks[i]) { to := ATaskMaySettle(trace, resources, s, i, |s.tasks[i].ops|, true); }
      to := Then(to, Leave(i));
    }
  }

  // From wherever a run has come, it can go on, with nobody new, until every task has left,
  // each one that was not over having run to its end, and no key has an entry.
  lemma EverythingDrains(trace: Trace, resources: map<Key, Resource>, s: State) returns (to: Trace, v: State)
    requires Run(trace, resources) == Some(s)
    ensures GoesOn(trace, to) && Run(to, resources) == Some(v) && |v.tasks| == |s.tasks|
    ensures forall i :: 0 <= i < |s.tasks| ==> CameThrough(s.tasks[i], v.tasks[i])
    ensures v.tails == map[]
  {
    to := DrainsUpTo(trace, resources, s, |s.tasks|);
    v := Run(to, resources).value;
    forall key
      ensures key !in v.tails
    {
      EntriesAreUsed(to, resources, key);
    }
  }
}
