// Forwarding health events to the notification channels (src/lib/arr-health-notify.ts).
module HealthNotify {
  import opened Options

  const DEDUPE_WINDOW_MS := 10 * 60_000
  const MAX_TRACKED := 500

  // A check: service, instance, type and message, cleaned and joined.
  type Check = string

  datatype EventType = Health | HealthRestored

  datatype Slot = Slot(check: Check, eventType: EventType, at: int)

  // Per check, the last state forwarded and when; least recently forwarded first.
  type Slots = seq<Slot>

  function IndexOf(slots: Slots, check: Check): (i: nat)
    ensures i <= |slots| && (i < |slots| ==> slots[i].check == check)
    ensures forall j :: 0 <= j < i ==> slots[j].check != check
  {
    if slots == [] || slots[0].check == check then 0 else IndexOf(slots[1..], check) + 1
  }

  predicate Tracks(slots: Slots, check: Check) { IndexOf(slots, check) < |slots| }

  predicate Live(slot: Slot, now: int) { now - slot.at < DEDUPE_WINDOW_MS }

  function Pruned(slots: Slots, now: int): Slots {
    if slots == [] then []
    else if Live(slots[0], now) then [slots[0]] + Pruned(slots[1..], now)
    else Pruned(slots[1..], now)
  }

  function DropOldest(slots: Slots): Slots {
    if |slots| >= MAX_TRACKED then DropOldest(slots[1..]) else slots
  }

  // Room for one more check: what has aged out goes, then the oldest.
  function MadeRoom(slots: Slots, check: Check, now: int): Slots {
    if !Tracks(slots, check) && |slots| >= MAX_TRACKED then DropOldest(Pruned(slots, now)) else slots
  }

  function Without(slots: Slots, check: Check): Slots {
    var i := IndexOf(slots, check);
    if i < |slots| then slots[..i] + slots[i + 1..] else slots
  }

  // A repeat of the state last forwarded for the check, inside the window.
  predicate Repeats(slots: Slots, check: Check, eventType: EventType, now: int) {
    var i := IndexOf(slots, check);
    i < |slots| && slots[i].eventType == eventType && Live(slots[i], now)
  }

  function After(slots: Slots, check: Check, eventType: EventType, now: int): Slots {
    if Repeats(slots, check, eventType, now) then slots
    else Without(MadeRoom(slots, check, now), check) + [Slot(check, eventType, now)]
  }

  ghost predicate Distinct(slots: Slots) { forall i, j :: 0 <= i < j < |slots| ==> slots[i].check != slots[j].check }

  class Memory {
    var recent: Slots

    constructor ()
      ensures recent == []
    {
      recent := [];
    }

    // `hasText`: the delivery names a message. Answers whether it was forwarded.
    method ForwardArrHealthEvent(check: Check, eventType: EventType, hasText: bool, now: int) returns (forwarded: bool)
      modifies this
      ensures forwarded <==> hasText && !Repeats(old(recent), check, eventType, now)
      ensures recent == if hasText then After(old(recent), check, eventType, now) else old(recent)
    {
      if !hasText { return false; }
      var i := IndexOf(recent, check);
      if i < |recent| && recent[i].eventType == eventType && now - recent[i].at < DEDUPE_WINDOW_MS { return false; }
      if i == |recent| && |recent| >= MAX_TRACKED {
        recent := Prune(recent, now);
        while |recent| >= MAX_TRACKED
          invariant DropOldest(recent) == DropOldest(Pruned(old(recent), now))
        {
          recent := recent[1..];
        }
      }
      recent := Without(recent, check) + [Slot(check, eventType, now)];
      forwarded := true;
    }
  }

  method Prune(slots: Slots, now: int) returns (kept: Slots)
    ensures kept == Pruned(slots, now)
  {
    kept := [];
    for k := 0 to |slots|
      invariant kept + Pruned(slots[k..], now) == Pruned(slots, now)
    {
      if now - slots[k].at < DEDUPE_WINDOW_MS { kept := kept + [slots[k]]; }
      assert slots[k..][1..] == slots[k + 1..];
    }
    assert kept + [] == kept;
  }

  // ── over whole runs ────────────────────────────────────────────────────────

  datatype Delivery = Delivery(check: Check, eventType: EventType, now: int)

  datatype Trace = Boot | Then(before: Trace, delivery: Delivery)

  function Run(trace: Trace): Slots {
    match trace
    case Boot => []
    case Then(before, d) => After(Run(before), d.check, d.eventType, d.now)
  }

  predicate Forwarded(trace: Trace)
    requires trace.Then?
  {
    !Repeats(Run(trace.before), trace.delivery.check, trace.delivery.eventType, trace.delivery.now)
  }

  function LastDelivered(trace: Trace, check: Check): Option<EventType> {
    match trace
    case Boot => None
    case Then(before, d) => if d.check == check then Some(d.eventType) else LastDelivered(before, check)
  }

  function LastForwarded(trace: Trace, check: Check): Option<Slot> {
    match trace
    case Boot => None
    case Then(before, d) =>
      if d.check == check && Forwarded(trace) then Some(Slot(check, d.eventType, d.now))
      else LastForwarded(before, check)
  }

  lemma {:induction false} PrunedMeans(slots: Slots, now: int)
    ensures |Pruned(slots, now)| <= |slots|
    ensures forall slot :: slot in Pruned(slots, now) <==> slot in slots && Live(slot, now)
    ensures Distinct(slots) ==> Distinct(Pruned(slots, now))
  {
    if slots != [] {
      PrunedMeans(slots[1..], now);
      assert slots == [slots[0]] + slots[1..];
      if Distinct(slots) {
        forall slot | slot in slots[1..]
          ensures slot.check != slots[0].check
        {
          var j :| 0 <= j < |slots[1..]| && slots[1..][j] == slot;
          assert slots[j + 1] == slot;
        }
      }
    }
  }

  lemma {:induction false} DropOldestMeans(slots: Slots) returns (k: nat)
    ensures k <= |slots| && DropOldest(slots) == slots[k..] && |DropOldest(slots)| < MAX_TRACKED
    ensures |slots| < MAX_TRACKED ==> k == 0
    ensures |slots| >= MAX_TRACKED ==> |DropOldest(slots)| == MAX_TRACKED - 1
  {
    k := 0;
    if |slots| >= MAX_TRACKED {
      var rest := DropOldestMeans(slots[1..]);
      k := rest + 1;
      assert slots[1..][rest..] == slots[k..];
    }
  }

  lemma MadeRoomMeans(slots: Slots, check: Check, now: int)
    requires Distinct(slots) && |slots| <= MAX_TRACKED
    ensures var room := MadeRoom(slots, check, now);
      && Distinct(room) && (Tracks(slots, check) || |room| < MAX_TRACKED) && |room| <= MAX_TRACKED
      && (forall slot :: slot in room ==> slot in slots)
      && (Tracks(slots, check) ==> room == slots)
  {
    if !Tracks(slots, check) && |slots| >= MAX_TRACKED {
      PrunedMeans(slots, now);
      var k := DropOldestMeans(Pruned(slots, now));
      assert forall slot :: slot in Pruned(slots, now)[k..] ==> slot in Pruned(slots, now);
    }
  }

  lemma WithoutMeans(slots: Slots, check: Check)
    requires Distinct(slots)
    ensures Distinct(Without(slots, check))
    ensures forall slot :: slot in Without(slots, check) <==> slot in slots && slot.check != check
    ensures |Without(slots, check)| == if Tracks(slots, check) then |slots| - 1 else |slots|
  {
    var i, w := IndexOf(slots, check), Without(slots, check);
    forall slot | slot in slots && slot.check != check
      ensures slot in w
    {
      var j :| 0 <= j < |slots| && slots[j] == slot;
      assert if j < i then w[j] == slot else w[j - 1] == slot;
    }
    forall k | 0 <= k < |w|
      ensures w[k] in slots && w[k].check != check
    {
      assert w[k] == if k < i then slots[k] else slots[k + 1];
    }
  }

  lemma AddedMeans(slots: Slots, slot: Slot)
    requires Distinct(slots) && forall other :: other in slots ==> other.check != slot.check
    ensures Distinct(slots + [slot]) && forall other :: other in slots + [slot] <==> other in slots || other == slot
  {
    assert forall i :: 0 <= i < |slots| ==> slots[i] in slots;
  }

  lemma AfterMeans(slots: Slots, check: Check, eventType: EventType, now: int)
    requires Distinct(slots) && |slots| <= MAX_TRACKED
    ensures var after := After(slots, check, eventType, now);
      && Distinct(after) && |after| <= MAX_TRACKED
      && (!Repeats(slots, check, eventType, now) ==> Slot(check, eventType, now) in after)
      && (forall slot :: slot in after ==> slot in slots || slot == Slot(check, eventType, now))
      && (!Repeats(slots, check, eventType, now) ==> forall slot :: slot in after && slot.check == check ==>
         slot == Slot(check, eventType, now))
  {
    if !Repeats(slots, check, eventType, now) {
      var room := MadeRoom(slots, check, now);
      MadeRoomMeans(slots, check, now);
      WithoutMeans(room, check);
      AddedMeans(Without(room, check), Slot(check, eventType, now));
    }
  }

  // At most 500 checks are tracked, each once.
  lemma {:induction false} AtMost500AreTracked(trace: Trace)
    ensures Distinct(Run(trace)) && |Run(trace)| <= 500
  {
    if trace.Then? {
      AtMost500AreTracked(trace.before);
      AfterMeans(Run(trace.before), trace.delivery.check, trace.delivery.eventType, trace.delivery.now);
    }
  }

  lemma {:induction false} TrackedIsForwarded(trace: Trace, slot: Slot)
    requires slot in Run(trace)
    ensures LastForwarded(trace, slot.check) == Some(slot)
  {
    if trace.Then? {
      var d := trace.delivery;
      AtMost500AreTracked(trace.before);
      AfterMeans(Run(trace.before), d.check, d.eventType, d.now);
      if slot in Run(trace.before) && !(d.check == slot.check && Forwarded(trace)) {
        TrackedIsForwarded(trace.before, slot);
      }
    }
  }

  // The last state an admin was told of a check is the last one delivered for it.
  lemma {:induction false} LastWordIsRight(trace: Trace, check: Check)
    ensures LastForwarded(trace, check).Some? <==> LastDelivered(trace, check).Some?
    ensures LastForwarded(trace, check).Some? ==>
      LastForwarded(trace, check).value.eventType == LastDelivered(trace, check).value
  {
    if trace.Then? {
      LastWordIsRight(trace.before, check);
      var d, slots := trace.delivery, Run(trace.before);
      if d.check == check && !Forwarded(trace) {
        var i := IndexOf(slots, check);
        assert slots[i] in slots;
        TrackedIsForwarded(trace.before, slots[i]);
      }
    }
  }

  // ── repeats ────────────────────────────────────────────────────────────────

  predicate ClockRuns(trace: Trace) {
    trace.Then? ==> ClockRuns(trace.before) && (trace.before.Then? ==> trace.before.delivery.now <= trace.delivery.now)
  }

  // A live entry is pushed out: 500 live checks are tracked and another comes.
  predicate PushedOut(slots: Slots, check: Check, d: Delivery) {
    && Tracks(slots, check) && !Tracks(After(slots, d.check, d.eventType, d.now), check)
    && Live(slots[IndexOf(slots, check)], d.now) && |Pruned(slots, d.now)| >= MAX_TRACKED && !Tracks(slots, d.check)
  }

  // Since the check was last forwarded, its entry has been pushed out.
  predicate PushedOutSince(trace: Trace, check: Check) {
    trace.Then? && !(trace.delivery.check == check && Forwarded(trace)) &&
    (PushedOut(Run(trace.before), check, trace.delivery) || PushedOutSince(trace.before, check))
  }

  lemma LostOnlyByAgeOrPush(slots: Slots, slot: Slot, d: Delivery)
    requires Distinct(slots) && |slots| <= MAX_TRACKED && slot in slots && slot.check != d.check
    requires slot !in After(slots, d.check, d.eventType, d.now)
    ensures !Live(slot, d.now) || PushedOut(slots, slot.check, d)
  {
    var room := MadeRoom(slots, d.check, d.now);
    MadeRoomMeans(slots, d.check, d.now);
    WithoutMeans(room, d.check);
    PrunedMeans(slots, d.now);
    AfterMeans(slots, d.check, d.eventType, d.now);
    var k := DropOldestMeans(Pruned(slots, d.now));
    assert k == 0 ==> Pruned(slots, d.now)[k..] == Pruned(slots, d.now);
    var i := IndexOf(slots, slot.check);
    var j :| 0 <= j < |slots| && slots[j] == slot;
    assert i == j;
    if Tracks(After(slots, d.check, d.eventType, d.now), slot.check) {
      var after := After(slots, d.check, d.eventType, d.now);
      assert after[IndexOf(after, slot.check)] in after;
    }
  }

  lemma {:induction false} ForgottenWhy(trace: Trace, check: Check)
    requires ClockRuns(trace) && LastForwarded(trace, check).Some? && LastForwarded(trace, check).value !in Run(trace)
    ensures PushedOutSince(trace, check) || !Live(LastForwarded(trace, check).value, trace.delivery.now)
  {
    var d, slots := trace.delivery, Run(trace.before);
    var slot := LastForwarded(trace, check).value;
    AtMost500AreTracked(trace.before);
    AfterMeans(slots, d.check, d.eventType, d.now);
    if !(d.check == check && Forwarded(trace)) {
      CheckOfForwarded(trace.before, check);
      if slot in slots {
        LostOnlyByAgeOrPush(slots, slot, d);
      } else {
        ForgottenWhy(trace.before, check);
      }
    }
  }

  lemma {:induction false} CheckOfForwarded(trace: Trace, check: Check)
    requires LastForwarded(trace, check).Some?
    ensures LastForwarded(trace, check).value.check == check
  {
    if !(trace.delivery.check == check && Forwarded(trace)) { CheckOfForwarded(trace.before, check); }
  }

  // With a clock that never runs back, one state of a check is forwarded twice inside ten
  // minutes only if its live entry was pushed out in between.
  lemma RepeatsOnlyAfterAPush(trace: Trace)
    requires ClockRuns(trace) && trace.Then? && Forwarded(trace)
    requires LastForwarded(trace.before, trace.delivery.check).Some?
    requires var last := LastForwarded(trace.before, trace.delivery.check).value;
      last.eventType == trace.delivery.eventType && trace.delivery.now - last.at < DEDUPE_WINDOW_MS
    ensures PushedOutSince(trace.before, trace.delivery.check)
  {
    var d, slots := trace.delivery, Run(trace.before);
    var last := LastForwarded(trace.before, d.check).value;
    CheckOfForwarded(trace.before, d.check);
    AtMost500AreTracked(trace.before);
    assert forall j :: 0 <= j < |slots| ==> IndexOf(slots, slots[j].check) == j;
    assert last !in slots;
    ForgottenWhy(trace.before, d.check);
  }

  lemma {:induction false} PushedOutIsForgotten(trace: Trace, check: Check)
    requires PushedOutSince(trace, check)
    ensures !Tracks(Run(trace), check)
  {
    var d, slots := trace.delivery, Run(trace.before);
    AtMost500AreTracked(trace.before);
    AfterMeans(slots, d.check, d.eventType, d.now);
    if !PushedOut(slots, check, d) {
      PushedOutIsForgotten(trace.before, check);
      if Tracks(Run(trace), check) {
        var slot := Run(trace)[IndexOf(Run(trace), check)];
        assert slot in Run(trace) && (slot in slots || d.check == check);
        if slot in slots { TrackedAt(slots, slot); }
      }
    }
  }

  lemma TrackedAt(slots: Slots, slot: Slot)
    requires slot in slots
    ensures Tracks(slots, slot.check) && (Distinct(slots) ==> slots[IndexOf(slots, slot.check)] == slot)
  {
    var j :| 0 <= j < |slots| && slots[j] == slot;
  }

  // Exactly which deliveries are forwarded: the first of a check, a change of its state, a
  // state last forwarded ten minutes ago or more, and one whose live entry was pushed out.
  lemma ForwardedExactly(trace: Trace)
    requires ClockRuns(trace) && trace.Then?
    ensures var d, last := trace.delivery, LastForwarded(trace.before, trace.delivery.check);
      Forwarded(trace) <==>
        || last.None? || last.value.eventType != d.eventType || d.now - last.value.at >= 600_000
        || PushedOutSince(trace.before, d.check)
  {
    var d, slots := trace.delivery, Run(trace.before);
    var last := LastForwarded(trace.before, d.check);
    var i := IndexOf(slots, d.check);
    if Forwarded(trace) && last.Some? && last.value.eventType == d.eventType && d.now - last.value.at < 600_000 {
      RepeatsOnlyAfterAPush(trace);
    }
    if !Forwarded(trace) {
      assert slots[i] in slots;
      TrackedIsForwarded(trace.before, slots[i]);
      if PushedOutSince(trace.before, d.check) { PushedOutIsForgotten(trace.before, d.check); }
    }
  }

  // ── the oldest goes first ──────────────────────────────────────────────────

  function Length(trace: Trace): nat { if trace.Boot? then 0 else Length(trace.before) + 1 }

  // When the check was last forwarded, counting deliveries.
  function LastTime(trace: Trace, check: Check): (n: nat)
    ensures n <= Length(trace)
  {
    if trace.Boot? then 0
    else if trace.delivery.check == check && Forwarded(trace) then Length(trace)
    else LastTime(trace.before, check)
  }

  ghost predicate InOrder(slots: Slots, trace: Trace) {
    forall i, j :: 0 <= i < j < |slots| ==> LastTime(trace, slots[i].check) < LastTime(trace, slots[j].check)
  }

  lemma {:induction false} PrunedInOrder(slots: Slots, now: int, trace: Trace)
    requires InOrder(slots, trace)
    ensures InOrder(Pruned(slots, now), trace)
  {
    if slots != [] {
      var rest := Pruned(slots[1..], now);
      PrunedInOrder(slots[1..], now, trace);
      PrunedMeans(slots[1..], now);
      forall i | 0 <= i < |rest|
        ensures LastTime(trace, slots[0].check) < LastTime(trace, rest[i].check)
      {
        assert rest[i] in slots[1..];
      }
    }
  }

  lemma MadeRoomInOrder(slots: Slots, check: Check, now: int, trace: Trace)
    requires InOrder(slots, trace)
    ensures InOrder(MadeRoom(slots, check, now), trace)
  {
    if !Tracks(slots, check) && |slots| >= MAX_TRACKED {
      PrunedInOrder(slots, now, trace);
      var k := DropOldestMeans(Pruned(slots, now));
    }
  }

  lemma ForwardedGoesLast(trace: Trace, slots: Slots)
    requires trace.Then? && Forwarded(trace) && InOrder(slots, trace.before)
    requires forall i :: 0 <= i < |slots| ==> slots[i].check != trace.delivery.check
    ensures InOrder(slots + [Slot(trace.delivery.check, trace.delivery.eventType, trace.delivery.now)], trace)
  {
    var d := trace.delivery;
    var all := slots + [Slot(d.check, d.eventType, d.now)];
    assert forall i :: 0 <= i < |slots| ==> LastTime(trace, all[i].check) == LastTime(trace.before, slots[i].check);
  }

  // After any deliveries the checks stand in the order in which they were last forwarded.
  lemma {:induction false} AlwaysInOrder(trace: Trace)
    ensures InOrder(Run(trace), trace)
  {
    if trace.Then? {
      AlwaysInOrder(trace.before);
      AtMost500AreTracked(trace.before);
      if Forwarded(trace) { ForwardingKeepsOrder(trace); } else { RepeatKeepsOrder(trace); }
    }
  }

  lemma ForwardingKeepsOrder(trace: Trace)
    requires trace.Then? && Forwarded(trace) && InOrder(Run(trace.before), trace.before)
    requires Distinct(Run(trace.before)) && |Run(trace.before)| <= MAX_TRACKED
    ensures InOrder(Run(trace), trace)
  {
    var d, slots := trace.delivery, Run(trace.before);
    MadeRoomInOrder(slots, d.check, d.now, trace.before);
    MadeRoomMeans(slots, d.check, d.now);
    WithoutInOrder(MadeRoom(slots, d.check, d.now), d.check, trace.before);
    ForwardedGoesLast(trace, Without(MadeRoom(slots, d.check, d.now), d.check));
  }

  lemma WithoutInOrder(slots: Slots, check: Check, trace: Trace)
    requires Distinct(slots) && InOrder(slots, trace)
    ensures InOrder(Without(slots, check), trace)
    ensures forall i :: 0 <= i < |Without(slots, check)| ==> Without(slots, check)[i].check != check
  {
    var i, w := IndexOf(slots, check), Without(slots, check);
    forall k, l | 0 <= k < l < |w|
      ensures LastTime(trace, w[k].check) < LastTime(trace, w[l].check)
    {
      var m, n := if k < i then k else k + 1, if l < i then l else l + 1;
      assert w[k] == slots[m] && w[l] == slots[n];
    }
    forall k | 0 <= k < |w|
      ensures w[k].check != check
    {
      assert w[k] == if k < i then slots[k] else slots[k + 1];
    }
  }

  lemma RepeatKeepsOrder(trace: Trace)
    requires trace.Then? && !Forwarded(trace) && InOrder(Run(trace.before), trace.before)
    ensures InOrder(Run(trace), trace)
  {
    var slots := Run(trace.before);
    assert forall i :: 0 <= i < |slots| ==> LastTime(trace, slots[i].check) == LastTime(trace.before, slots[i].check);
  }

  // A live entry that is pushed out was forwarded before every one that stays.
  lemma PushesTheOldest(trace: Trace, a: Slot, b: Slot)
    requires trace.Then? && a in Run(trace.before) && Live(a, trace.delivery.now) && a !in Run(trace)
    requires b in Run(trace) && a.check != trace.delivery.check
    ensures LastTime(trace, a.check) < LastTime(trace, b.check)
  {
    var d, slots := trace.delivery, Run(trace.before);
    AlwaysInOrder(trace.before);
    AtMost500AreTracked(trace.before);
    AfterMeans(slots, d.check, d.eventType, d.now);
    if b.check != d.check {
      PrunedInOrder(slots, d.now, trace.before);
      var k := CutWhere(slots, d, a, b);
      DroppedBefore(trace.before, Pruned(slots, d.now), k, a, b);
    }
  }

  // Both were live; the one pushed out stood in the part that was dropped.
  lemma CutWhere(slots: Slots, d: Delivery, a: Slot, b: Slot) returns (k: nat)
    requires Distinct(slots) && |slots| <= MAX_TRACKED && a in slots && Live(a, d.now) && a.check != d.check
      && b.check != d.check
    requires a !in After(slots, d.check, d.eventType, d.now) && b in After(slots, d.check, d.eventType, d.now)
    ensures var live := Pruned(slots, d.now);
      k <= |live| && a in live && a !in live[k..] && b in live[k..]
  {
    var room := MadeRoom(slots, d.check, d.now);
    MadeRoomMeans(slots, d.check, d.now);
    WithoutMeans(room, d.check);
    PrunedMeans(slots, d.now);
    assert a !in room && b in room && a in slots;
    k := DropOldestMeans(Pruned(slots, d.now));
  }

  // Nothing goes before 500 checks are tracked and a new one comes; then what has aged out
  // does, and of what has not at most one.
  lemma NoMoreThanNeeded(trace: Trace)
    requires trace.Then?
    ensures var was, now, check := Run(trace.before), Run(trace), trace.delivery.check;
      if |was| < 500 || Tracks(was, check) || !Forwarded(trace) then
        forall slot: Slot :: slot.check != check ==> (slot in now <==> slot in was)
      else
        && (forall slot :: slot in now && slot.check != check ==> slot in was && Live(slot, trace.delivery.now))
        && ((exists slot :: slot in was && Live(slot, trace.delivery.now) && slot !in now) ==> |now| == 500)
  {
    var d, slots := trace.delivery, Run(trace.before);
    AtMost500AreTracked(trace.before);
    MadeRoomMeans(slots, d.check, d.now);
    if Forwarded(trace) {
      var room := MadeRoom(slots, d.check, d.now);
      WithoutMeans(room, d.check);
      if |slots| >= MAX_TRACKED && !Tracks(slots, d.check) { LiveOnesStay(slots, d); }
    }
  }

  lemma LiveOnesStay(slots: Slots, d: Delivery)
    requires Distinct(slots) && |slots| >= MAX_TRACKED && !Tracks(slots, d.check)
    ensures var room := MadeRoom(slots, d.check, d.now);
      && !Tracks(room, d.check) && (forall slot :: slot in room ==> slot in slots && Live(slot, d.now))
      && ((exists slot :: slot in slots && Live(slot, d.now) && slot !in room) ==> |room| == MAX_TRACKED - 1)
  {
    var live := Pruned(slots, d.now);
    PrunedMeans(slots, d.now);
    var k := DropOldestMeans(live);
    assert k == 0 ==> live[k..] == live;
    assert forall slot :: slot in live[k..] ==> slot in live;
    forall slot | slot in slots
      ensures slot.check != d.check
    {
      TrackedAt(slots, slot);
    }
  }

  lemma DroppedBefore(trace: Trace, slots: Slots, k: nat, a: Slot, b: Slot)
    requires InOrder(slots, trace) && k <= |slots| && a in slots && a !in slots[k..] && b in slots[k..]
    ensures LastTime(trace, a.check) < LastTime(trace, b.check)
  {
    var i :| 0 <= i < |slots| && slots[i] == a;
    var j :| 0 <= j < |slots[k..]| && slots[k..][j] == b;
    assert slots[k + j] == b;
    InTheRest(slots, k, i);
  }

  lemma InTheRest(slots: Slots, k: nat, i: nat)
    requires k <= |slots| && i < |slots|
    ensures i >= k ==> slots[i] in slots[k..]
  {
    if i >= k { assert slots[k..][i - k] == slots[i]; }
  }
}
