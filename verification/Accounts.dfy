// Disabling and purging accounts (src/lib/account-lifecycle.ts and its routes), as concurrent transactions.
module Accounts {
  import opened Options

  type Id = string

  // What the lifecycle reads and writes of a user row.
  datatype Row = Row(admin: bool, disabled: bool, purged: bool, email: string)

  type Rows = map<Id, Row>

  function PurgedEmailFor(id: Id): string { "deleted-" + id + "@deleted.invalid" }

  // The tombstone address belongs to one row only.
  lemma PurgedEmailNamesItsRow(a: Id, b: Id)
    requires PurgedEmailFor(a) == PurgedEmailFor(b)
    ensures a == b
  {
    var x, y := PurgedEmailFor(a), PurgedEmailFor(b);
    assert a == x[8..|x| - 16] && b == y[8..|y| - 16];
  }

  // By the marker or by the shape older scrubs left.
  predicate Scrubbed(id: Id, row: Row) { row.purged || row.email == PurgedEmailFor(id) }

  predicate ActiveAdmin(row: Row) { row.admin && !row.disabled }

  function ActiveAdmins(rows: Rows): set<Id> { set id | id in rows && ActiveAdmin(rows[id]) }

  ghost predicate OtherAdmin(rows: Rows, id: Id) { exists other :: other in ActiveAdmins(rows) && other != id }

  ghost predicate ScrubbedAreDisabled(rows: Rows) {
    forall id :: id in rows && Scrubbed(id, rows[id]) ==> rows[id].disabled
  }

  // ── the statements ─────────────────────────────────────────────────────────

  // Each guarded UPDATE as a function of the row it finds: the row it writes, or no row.
  function GuardDisable(row: Row, counted: set<Id>): Option<Row> {
    if !row.disabled && |counted| > 1 then Some(row.(disabled := true)) else None
  }

  function GuardDemote(row: Row, counted: set<Id>): Option<Row> {
    if row.admin && (row.disabled || |counted| > 1) then Some(row.(admin := false)) else None
  }

  function GuardReactivate(id: Id, row: Row): Option<Row> {
    if !row.purged && row.disabled && row.email != PurgedEmailFor(id) then Some(row.(disabled := false)) else None
  }

  function GuardScrub(id: Id, row: Row): Option<Row> {
    if row.disabled then Some(row.(purged := true, email := PurgedEmailFor(id))) else None
  }

  function HealRow(id: Id, row: Row): Row {
    if !row.purged && row.email == PurgedEmailFor(id) then row.(purged := true, disabled := true) else row
  }

  function Heal(rows: Rows): Rows { map id | id in rows :: HealRow(id, rows[id]) }

  // After the boot heal every scrubbed row is disabled, exactly when no row already
  // carrying the marker was active; a second heal changes nothing.
  lemma HealExactly(rows: Rows)
    ensures ScrubbedAreDisabled(Heal(rows)) <==> forall id :: id in rows && rows[id].purged ==> rows[id].disabled
    ensures Heal(Heal(rows)) == Heal(rows)
    ensures forall id :: id in rows ==> (Scrubbed(id, rows[id]) <==> Heal(rows)[id].purged)
  {
    if ScrubbedAreDisabled(Heal(rows)) {
      forall id | id in rows && rows[id].purged
        ensures rows[id].disabled
      {
        assert Scrubbed(id, Heal(rows)[id]);
      }
    }
  }

  // ── one transaction at a time ──────────────────────────────────────────────

  datatype PurgeOutcome = Purged | AlreadyPurged | NotDeactivated

  class Database {
    var rows: Rows
    var data: set<Id>   // whose private child rows are still there

    constructor (initial: Rows, withData: set<Id>)
      ensures rows == initial && data == withData
    {
      rows, data := initial, withData;
    }

    // deactivateUserInTx: a refusal, or a row that is gone, rolls everything back; nothing
    // is ever scrubbed.
    method DeactivateUserInTx(id: Id, targetIsAdmin: bool) returns (ok: bool)
      modifies this
      ensures ok <==> id in old(rows) && (targetIsAdmin ==> !old(rows)[id].disabled && |ActiveAdmins(old(rows))| > 1)
      ensures rows == if ok then old(rows)[id := old(rows)[id].(disabled := true)] else old(rows)
      ensures data == old(data)
      ensures targetIsAdmin && ok ==> ActiveAdmins(rows) != {}
    {
      ghost var admins := ActiveAdmins(rows);
      if id !in rows { return false; }
      if targetIsAdmin {
        var written := GuardDisable(rows[id], ActiveAdmins(rows));
        if written.None? { return false; }
        rows := rows[id := written.value];
      }
      rows := rows[id := rows[id].(disabled := true)];
      ok := true;
      if targetIsAdmin {
        ghost var other := AnotherIn(admins, id);
        assert other in ActiveAdmins(rows);
      }
    }

    method ReactivateUser(id: Id) returns (ok: bool)
      modifies this
      ensures ok <==>
        && id in old(rows) && old(rows)[id].disabled && !old(rows)[id].purged
        && old(rows)[id].email != "deleted-" + id + "@deleted.invalid"
      ensures rows == if ok then old(rows)[id := old(rows)[id].(disabled := false)] else old(rows)
      ensures data == old(data)
    {
      ok := false;
      if id in rows {
        var written := GuardReactivate(id, rows[id]);
        if written.Some? {
          rows := rows[id := written.value];
          ok := true;
        }
      }
    }

    // purgeUserDataInTx, undisturbed; a refusal rolls back the deletes.
    method PurgeUserDataInTx(id: Id) returns (outcome: PurgeOutcome)
      modifies this
      ensures outcome.NotDeactivated? <==> id !in old(rows) || (!old(rows)[id].purged && !old(rows)[id].disabled)
      ensures outcome.AlreadyPurged? <==> id in old(rows) && old(rows)[id].purged
      ensures !outcome.Purged? ==> rows == old(rows) && data == old(data)
      ensures outcome.Purged? ==> data == old(data) - {id} && rows.Keys == old(rows).Keys
      ensures outcome.Purged? ==>
        rows[id] == Row(old(rows)[id].admin, true, true, "deleted-" + id + "@deleted.invalid")
      ensures outcome.Purged? ==> forall other :: other in rows && other != id ==> rows[other] == old(rows)[other]
    {
      if id !in rows { return NotDeactivated; }
      if rows[id].purged { return AlreadyPurged; }
      if !rows[id].disabled { return NotDeactivated; }
      data := data - {id};
      var written := GuardScrub(id, rows[id]);
      rows := rows[id := written.value];
      outcome := Purged;
    }

    // The role change, undisturbed: demoting an active admin needs another one.
    method SetRole(id: Id, admin: bool) returns (ok: bool)
      modifies this
      ensures ok ==> id in old(rows)
      ensures id in old(rows) ==>
        (ok <==> admin || !old(rows)[id].admin || old(rows)[id].disabled || OtherAdmin(old(rows), id))
      ensures rows == if ok then old(rows)[id := old(rows)[id].(admin := admin)] else old(rows)
      ensures data == old(data)
    {
      if id !in rows { return false; }
      if !admin && rows[id].admin {
        if !rows[id].disabled { OthersAreCounted(rows, id); }
        var written := GuardDemote(rows[id], ActiveAdmins(rows));
        if written.None? { return false; }
        rows := rows[id := written.value];
        return true;
      }
      rows := rows[id := rows[id].(admin := admin)];
      ok := true;
    }

    // Every row but an unmarked tombstone is left alone; that one is marked and disabled.
    method MarkLegacyPurgedAccounts()
      modifies this
      ensures rows == Heal(old(rows)) && data == old(data) && rows.Keys == old(rows).Keys
      ensures forall id :: id in rows ==>
        rows[id] ==
          if !old(rows)[id].purged && old(rows)[id].email == "deleted-" + id + "@deleted.invalid" then
            Row(old(rows)[id].admin, true, true, old(rows)[id].email)
          else old(rows)[id]
    {
      var left := rows.Keys;
      while left != {}
        invariant left <= rows.Keys == old(rows).Keys && data == old(data)
        invariant forall id :: id in rows ==>
          rows[id] == if id in left then old(rows)[id] else HealRow(id, old(rows)[id])
      {
        var id :| id in left;
        rows := rows[id := HealRow(id, rows[id])];
        left := left - {id};
      }
    }
  }

  // An active admin among more than one is an active admin with another.
  lemma OthersAreCounted(rows: Rows, id: Id)
    requires id in rows && rows[id].admin && !rows[id].disabled
    ensures |ActiveAdmins(rows)| > 1 <==> OtherAdmin(rows, id)
  {
    var admins := ActiveAdmins(rows);
    if |admins| > 1 {
      var other := AnotherIn(admins, id);
    }
    if OtherAdmin(rows, id) {
      var other :| other in admins && other != id;
      assert {id, other} <= admins;
      var rest := admins - {id, other};
      assert admins == rest + {id, other} && |admins| == |rest| + 2;
    }
  }

  // Among two or more there is another.
  lemma AnotherIn(s: set<Id>, id: Id) returns (other: Id)
    requires |s| > 1
    ensures other in s && other != id
  {
    assert s == if id in s then s - {id} + {id} else s - {id};
    other :| other in s - {id};
  }

  // ── transactions, statement by statement ───────────────────────────────────

  datatype Job = Deactivate | Reactivate | Purge | SetRole(admin: bool)

  // How far a transaction has come. A row it has written stays its own, and locked,
  // until it ends; `guarded` says an active-admin count let the write through.
  datatype Stage =
    | Fresh
    | RoleRead(admin: bool)
    | Counted(admins: set<Id>)
    | GuardPassed(row: Row)
    | RowRead
    | DataDropped
    | Written(row: Row, guarded: bool)
    | Ended

  // `locked`: holds advisory lock 42. `early`: took it before reading the role.
  datatype Tx = Tx(job: Job, id: Id, locked: bool, early: bool, stage: Stage)

  datatype State = State(rows: Rows, data: set<Id>, txs: seq<Tx>)

  datatype Event =
    | Create(id: Id, row: Row)
    | Open(job: Job, id: Id)
    | Lock(tx: nat)
    | Look(tx: nat)                     // the role, or (purge) the row, is read
    | Count(tx: nat)                    // the guarded update starts: its count sees this moment
    | Write(tx: nat, missed: bool)      // an update meets its row; `missed`: the version it set out from did not match
    | Drop(tx: nat)                     // the child rows go
    | Commit(tx: nat)
    | Rollback(tx: nat)

  predicate Owns(t: Tx) { t.stage.GuardPassed? || t.stage.Written? }

  // The row as this transaction's statements see it.
  function Seen(rows: Rows, t: Tx): Row
    requires t.id in rows
  {
    if Owns(t) then t.stage.row else rows[t.id]
  }

  ghost predicate LockIsFree(txs: seq<Tx>) { forall i :: 0 <= i < |txs| ==> !txs[i].locked }

  ghost predicate RowIsFree(txs: seq<Tx>, t: nat)
    requires t < |txs|
  {
    forall i :: 0 <= i < |txs| && i != t && txs[i].id == txs[t].id ==> !Owns(txs[i])
  }

  function Over(t: Tx): Tx { t.(stage := Ended, locked := false) }

  // The role read by a deactivation or a role change; the row read by a purge.
  function Looked(rows: Rows, t: Tx): Option<Tx>
    requires t.id in rows
  {
    var row := rows[t.id];
    match t.job
    case Deactivate =>
      // Unlocked, it is the self-service route, which has nothing to do for a disabled row.
      if !t.locked && row.disabled then Some(Over(t)) else Some(t.(stage := RoleRead(row.admin), early := t.locked))
    case SetRole(_) =>
      if t.locked then Some(t.(stage := RoleRead(row.admin), early := true)) else None
    case Purge =>
      if row.purged || !row.disabled then Some(Over(t)) else Some(t.(stage := RowRead))
    case Reactivate => None
  }

  // A guarded write that finds no row rolls back or commits nothing: either way it is over.
  function Guarded(t: Tx, written: Option<Row>, next: Row -> Stage): Tx {
    if written.Some? then t.(stage := next(written.value)) else Over(t)
  }

  function Wrote(rows: Rows, t: Tx, missed: bool): Option<Tx>
    requires t.id in rows
  {
    var row := Seen(rows, t);
    match t.stage
    case Fresh =>
      if t.job.Reactivate? then
        Some(Guarded(t, if missed then None else GuardReactivate(t.id, row), r => Written(r, true)))
      else None
    case RoleRead(admin) =>
      if t.job.Deactivate? && !admin then Some(t.(stage := Written(row.(disabled := true), false)))
      else if t.job.SetRole? && (t.job.admin || !admin)
        then Some(t.(stage := Written(row.(admin := t.job.admin), false)))
      else None
    case Counted(admins) =>
      if t.job.Deactivate?
        then Some(Guarded(t, if missed then None else GuardDisable(row, admins), r => GuardPassed(r)))
      else Some(Guarded(t, if missed then None else GuardDemote(row, admins), r => Written(r, true)))
    case GuardPassed(_) => Some(t.(stage := Written(row.(disabled := true), true)))
    case DataDropped => Some(Guarded(t, if missed then None else GuardScrub(t.id, row), r => Written(r, true)))
    case _ => None
  }

  function WithTx(s: State, i: nat, t: Option<Tx>): Option<State>
    requires i < |s.txs|
  {
    match t
    case None => None
    case Some(tx) => Some(s.(txs := s.txs[i := tx]))
  }

  ghost function Next(s: State, e: Event): Option<State> {
    match e
    case Create(id, row) =>
      if id !in s.rows && !row.disabled && !Scrubbed(id, row)
        then Some(s.(rows := s.rows[id := row], data := s.data + {id})) else None
    case Open(job, id) =>
      if id in s.rows then Some(s.(txs := s.txs + [Tx(job, id, false, false, Fresh)])) else None
    case Lock(i) =>
      if i < |s.txs| && LockIsFree(s.txs) && (s.txs[i].stage.Fresh? || s.txs[i].stage == RoleRead(true)) then
        WithTx(s, i, Some(s.txs[i].(locked := true)))
      else None
    case Look(i) =>
      if i < |s.txs| && s.txs[i].stage.Fresh? && s.txs[i].id in s.rows then WithTx(s, i, Looked(s.rows, s.txs[i]))
      else None
    case Count(i) =>
      if i < |s.txs| && s.txs[i].locked && s.txs[i].stage == RoleRead(true)
        && (s.txs[i].job.Deactivate? || s.txs[i].job == SetRole(false)) then
        WithTx(s, i, Some(s.txs[i].(stage := Counted(ActiveAdmins(s.rows)))))
      else None
    case Write(i, missed) =>
      if i < |s.txs| && s.txs[i].id in s.rows && RowIsFree(s.txs, i)
        then WithTx(s, i, Wrote(s.rows, s.txs[i], missed)) else None
    case Drop(i) =>
      if i < |s.txs| && s.txs[i].stage.RowRead? then WithTx(s, i, Some(s.txs[i].(stage := DataDropped))) else None
    case Commit(i) =>
      if i < |s.txs| && s.txs[i].stage.Written? && s.txs[i].id in s.rows then
        var t := s.txs[i];
        Some(State(s.rows[t.id := t.stage.row], if t.job.Purge? then s.data - {t.id} else s.data, s.txs[i := Over(t)]))
      else None
    case Rollback(i) =>
      if i < |s.txs| && !s.txs[i].stage.Ended? then WithTx(s, i, Some(Over(s.txs[i]))) else None
  }

  datatype Trace = Boot | Then(before: Trace, event: Event)

  ghost function Run(trace: Trace, rows: Rows, data: set<Id>): Option<State> {
    match trace
    case Boot => Some(State(Heal(rows), data, []))
    case Then(before, event) =>
      match Run(before, rows, data)
      case None => None
      case Some(s) => Next(s, event)
  }

  // ── each transaction alone does what is asked ──────────────────────────────

  ghost function RunFrom(s: State, events: seq<Event>): Option<State> {
    if events == [] then Some(s)
    else
      match RunFrom(s, events[..|events| - 1])
      case None => None
      case Some(t) => Next(t, events[|events| - 1])
  }

  ghost predicate Quiet(s: State) { forall i :: 0 <= i < |s.txs| ==> s.txs[i].stage.Ended? && !s.txs[i].locked }

  function With(s: State, t: Tx): State { s.(txs := s.txs + [t]) }

  lemma RunOneMore(s: State, events: seq<Event>, t: State, e: Event, u: State)
    requires RunFrom(s, events) == Some(t) && Next(t, e) == Some(u)
    ensures RunFrom(s, events + [e]) == Some(u)
  {
    assert (events + [e])[..|events|] == events;
  }

  // Nobody else is about: the newest transaction's step is its own.
  lemma OwnStep(s: State, t: Tx, u: Tx)
    requires Quiet(s)
    ensures With(s, t).txs[|s.txs| := u] == With(s, u).txs
    ensures RowIsFree(With(s, t).txs, |s.txs|) && (!t.locked ==> LockIsFree(With(s, t).txs))
  {
  }

  // A step that commits nothing, of a transaction alone.
  lemma StepAlone(s: State, events: seq<Event>, t: Tx, e: Event, u: Tx)
    requires Quiet(s) && RunFrom(s, events) == Some(With(s, t))
    requires Next(With(s, t), e) == Some(With(s, t).(txs := With(s, t).txs[|s.txs| := u]))
    ensures RunFrom(s, events + [e]) == Some(With(s, u))
  {
    OwnStep(s, t, u);
    RunOneMore(s, events, With(s, t), e, With(s, u));
  }

  // Opened, and under the lock where the route takes it.
  lemma OpensAlone(s: State, job: Job, id: Id)
    requires id in s.rows
    ensures RunFrom(s, [Open(job, id)]) == Some(With(s, Tx(job, id, false, false, Fresh)))
  {
    assert RunFrom(s, []) == Some(s);
    RunOneMore(s, [], s, Open(job, id), With(s, Tx(job, id, false, false, Fresh)));
    assert [] + [Open(job, id)] == [Open(job, id)];
  }

  lemma LocksAlone(s: State, job: Job, id: Id)
    requires Quiet(s) && id in s.rows
    ensures RunFrom(s, [Open(job, id), Lock(|s.txs|)]) == Some(With(s, Tx(job, id, true, false, Fresh)))
  {
    var t := Tx(job, id, false, false, Fresh);
    OpensAlone(s, job, id);
    OwnStep(s, t, t.(locked := true));
    StepAlone(s, [Open(job, id)], t, Lock(|s.txs|), t.(locked := true));
    assert [Open(job, id)] + [Lock(|s.txs|)] == [Open(job, id), Lock(|s.txs|)];
  }

  // The row read under the lock by a deactivation or a role change.
  lemma LooksAlone(s: State, job: Job, id: Id)
    requires Quiet(s) && id in s.rows && (job.Deactivate? || job.SetRole?)
    ensures RunFrom(s, [Open(job, id), Lock(|s.txs|), Look(|s.txs|)]) ==
      Some(With(s, Tx(job, id, true, true, RoleRead(s.rows[id].admin))))
  {
    var n := |s.txs|;
    LocksAlone(s, job, id);
    StepAlone(s, [Open(job, id), Lock(n)], Tx(job, id, true, false, Fresh), Look(n),
              Tx(job, id, true, true, RoleRead(s.rows[id].admin)));
    assert [Open(job, id), Lock(n)] + [Look(n)] == [Open(job, id), Lock(n), Look(n)];
  }

  lemma CommitsAlone(s: State, events: seq<Event>, t: Tx)
    requires RunFrom(s, events) == Some(With(s, t)) && t.stage.Written? && t.id in s.rows
    ensures var data := if t.job.Purge? then s.data - {t.id} else s.data;
      RunFrom(s, events + [Commit(|s.txs|)]) == Some(State(s.rows[t.id := t.stage.row], data, s.txs + [Over(t)]))
  {
    var n, data := |s.txs|, if t.job.Purge? then s.data - {t.id} else s.data;
    assert With(s, t).txs[n := Over(t)] == s.txs + [Over(t)];
    RunOneMore(s, events, With(s, t), Commit(n), State(s.rows[t.id := t.stage.row], data, s.txs + [Over(t)]));
  }

  // A disable or a demotion of an admin, as far as what its count makes of it.
  lemma CountsAlone(s: State, job: Job, id: Id, u: Tx) returns (events: seq<Event>)
    requires Quiet(s) && id in s.rows && s.rows[id].admin && (job.Deactivate? || job == SetRole(false))
    requires Wrote(s.rows, Tx(job, id, true, true, Counted(ActiveAdmins(s.rows))), false) == Some(u)
    ensures RunFrom(s, events) == Some(With(s, u)) && events != [] && events[0] == Open(job, id)
    ensures forall k :: 1 <= k < |events| ==> StatementOf(events[k], |s.txs|)
  {
    var n, t := |s.txs|, Tx(job, id, true, true, RoleRead(true));
    var counted := t.(stage := Counted(ActiveAdmins(s.rows)));
    LooksAlone(s, job, id);
    StepAlone(s, [Open(job, id), Lock(n), Look(n)], t, Count(n), counted);
    OwnStep(s, counted, u);
    StepAlone(s, [Open(job, id), Lock(n), Look(n)] + [Count(n)], counted, Write(n, false), u);
    events := [Open(job, id), Lock(n), Look(n)] + [Count(n)] + [Write(n, false)];
  }

  // A statement of this transaction that meets the row it looks for.
  predicate StatementOf(e: Event, n: nat) {
    match e
    case Lock(tx) => tx == n
    case Look(tx) => tx == n
    case Count(tx) => tx == n
    case Write(tx, missed) => tx == n && !missed
    case Drop(tx) => tx == n
    case Commit(tx) => tx == n
    case _ => false
  }

  // The job's statements come to this: these rows, this data, and nothing left running.
  ghost predicate ComesTo(s: State, job: Job, id: Id, events: seq<Event>, rows: Rows, data: set<Id>) {
    && events != [] && events[0] == Open(job, id)
    && (forall k :: 1 <= k < |events| ==> StatementOf(events[k], |s.txs|))
    && RunFrom(s, events).Some? && RunFrom(s, events).value.rows == rows && RunFrom(s, events).value.data == data
    && Quiet(RunFrom(s, events).value)
  }

  lemma OverIsQuiet(s: State, t: Tx)
    requires Quiet(s) && t.stage.Ended? && !t.locked
    ensures Quiet(With(s, t))
  {
  }

  // The statements of the admin route's removal, with nobody in between.
  lemma DisablesAlone(s: State, id: Id) returns (events: seq<Event>)
    requires Quiet(s) && id in s.rows
    ensures var row := s.rows[id];
      ComesTo(s, Deactivate, id, events,
        if row.admin && (row.disabled || !OtherAdmin(s.rows, id)) then s.rows else s.rows[id := row.(disabled := true)],
        s.data)
  {
    var n, row := |s.txs|, s.rows[id];
    if row.admin {
      var u := Wrote(s.rows, Tx(Deactivate, id, true, true, Counted(ActiveAdmins(s.rows))), false).value;
      events := CountsAlone(s, Deactivate, id, u);
      if !row.disabled { OthersAreCounted(s.rows, id); }
      if u.stage.GuardPassed? {
        var w := u.(stage := Written(row.(disabled := true), true));
        OwnStep(s, u, w);
        StepAlone(s, events, u, Write(n, false), w);
        CommitsAlone(s, events + [Write(n, false)], w);
        OverIsQuiet(s, Over(w));
        events := events + [Write(n, false)] + [Commit(n)];
      } else {
        OverIsQuiet(s, u);
      }
    } else {
      var t := Tx(Deactivate, id, true, true, RoleRead(false));
      var w := t.(stage := Written(row.(disabled := true), false));
      LooksAlone(s, Deactivate, id);
      OwnStep(s, t, w);
      StepAlone(s, [Open(Deactivate, id), Lock(n), Look(n)], t, Write(n, false), w);
      events := [Open(Deactivate, id), Lock(n), Look(n)] + [Write(n, false)];
      CommitsAlone(s, events, w);
      OverIsQuiet(s, Over(w));
      events := events + [Commit(n)];
    }
  }

  // The self-service route's, which reads the role first and takes the lock for an admin only.
  lemma DisablesItselfAlone(s: State, id: Id) returns (events: seq<Event>)
    requires Quiet(s) && id in s.rows
    ensures var row := s.rows[id];
      ComesTo(s, Deactivate, id, events,
        if row.disabled || (row.admin && !OtherAdmin(s.rows, id)) then s.rows else s.rows[id := row.(disabled := true)],
        s.data)
    ensures |events| > 1 && events[1].Look? && (|events| > 2 ==> (events[2].Lock? <==> s.rows[id].admin))
  {
    var n, row, t := |s.txs|, s.rows[id], Tx(Deactivate, id, false, false, Fresh);
    var u := Looked(s.rows, t).value;
    OpensAlone(s, Deactivate, id);
    StepAlone(s, [Open(Deactivate, id)], t, Look(n), u);
    events := [Open(Deactivate, id)] + [Look(n)];
    if u.stage.Ended? {
      OverIsQuiet(s, u);
    } else {
      events := FinishesItself(s, events, u);
    }
  }

  lemma FinishesItself(s: State, before: seq<Event>, u: Tx) returns (events: seq<Event>)
    requires Quiet(s) && u.id in s.rows && !s.rows[u.id].disabled
    requires u == Tx(Deactivate, u.id, false, false, RoleRead(s.rows[u.id].admin))
    requires RunFrom(s, before) == Some(With(s, u)) && before == [Open(Deactivate, u.id), Look(|s.txs|)]
    ensures var row := s.rows[u.id];
      ComesTo(s, Deactivate, u.id, events,
        if row.admin && !OtherAdmin(s.rows, u.id) then s.rows else s.rows[u.id := row.(disabled := true)], s.data)
    ensures |events| > 2 && events[1].Look? && (events[2].Lock? <==> s.rows[u.id].admin)
  {
    var n, row, v := |s.txs|, s.rows[u.id], u;
    events := before;
    if row.admin {
      var counted := u.(locked := true, stage := Counted(ActiveAdmins(s.rows)));
      v := Wrote(s.rows, counted, false).value;
      OwnStep(s, u, u.(locked := true));
      StepAlone(s, events, u, Lock(n), u.(locked := true));
      StepAlone(s, events + [Lock(n)], u.(locked := true), Count(n), counted);
      OwnStep(s, counted, v);
      StepAlone(s, events + [Lock(n)] + [Count(n)], counted, Write(n, false), v);
      OthersAreCounted(s.rows, u.id);
      events := events + [Lock(n)] + [Count(n)] + [Write(n, false)];
    }
    if v.stage.Ended? {
      OverIsQuiet(s, v);
    } else {
      var w := v.(stage := Written(row.(disabled := true), row.admin));
      OwnStep(s, v, w);
      StepAlone(s, events, v, Write(n, false), w);
      CommitsAlone(s, events + [Write(n, false)], w);
      OverIsQuiet(s, Over(w));
      events := events + [Write(n, false)] + [Commit(n)];
    }
  }

  // A role change.
  lemma SetsRoleAlone(s: State, id: Id, admin: bool) returns (events: seq<Event>)
    requires Quiet(s) && id in s.rows
    ensures var row := s.rows[id];
      ComesTo(s, SetRole(admin), id, events,
        if !admin && row.admin && !row.disabled && !OtherAdmin(s.rows, id) then s.rows
        else s.rows[id := row.(admin := admin)],
        s.data)
  {
    var n, row := |s.txs|, s.rows[id];
    var w := Tx(SetRole(admin), id, true, true, Written(row.(admin := admin), false));
    if !admin && row.admin {
      w := Wrote(s.rows, Tx(SetRole(false), id, true, true, Counted(ActiveAdmins(s.rows))), false).value;
      events := CountsAlone(s, SetRole(false), id, w);
      if !row.disabled { OthersAreCounted(s.rows, id); }
      if w.stage.Ended? {
        OverIsQuiet(s, w);
        return;
      }
    } else {
      var t := Tx(SetRole(admin), id, true, true, RoleRead(row.admin));
      LooksAlone(s, SetRole(admin), id);
      OwnStep(s, t, w);
      StepAlone(s, [Open(SetRole(admin), id), Lock(n), Look(n)], t, Write(n, false), w);
      events := [Open(SetRole(admin), id), Lock(n), Look(n)] + [Write(n, false)];
    }
    CommitsAlone(s, events, w);
    OverIsQuiet(s, Over(w));
    events := events + [Commit(n)];
  }

  lemma ReactivatesAlone(s: State, id: Id) returns (events: seq<Event>)
    requires Quiet(s) && id in s.rows
    ensures var row := s.rows[id];
      ComesTo(s, Reactivate, id, events,
        if row.disabled && !row.purged && row.email != PurgedEmailFor(id) then s.rows[id := row.(disabled := false)]
        else s.rows,
        s.data)
  {
    var n, t := |s.txs|, Tx(Reactivate, id, false, false, Fresh);
    var w := Wrote(s.rows, t, false).value;
    OpensAlone(s, Reactivate, id);
    OwnStep(s, t, w);
    StepAlone(s, [Open(Reactivate, id)], t, Write(n, false), w);
    events := [Open(Reactivate, id)] + [Write(n, false)];
    if w.stage.Ended? {
      OverIsQuiet(s, w);
    } else {
      CommitsAlone(s, events, w);
      OverIsQuiet(s, Over(w));
      events := events + [Commit(n)];
    }
  }

  lemma PurgesAlone(s: State, id: Id) returns (events: seq<Event>)
    requires Quiet(s) && id in s.rows
    ensures var row := s.rows[id];
      if row.disabled && !row.purged then
        ComesTo(s, Purge, id, events, s.rows[id := row.(purged := true, email := PurgedEmailFor(id))], s.data - {id})
      else ComesTo(s, Purge, id, events, s.rows, s.data)
  {
    var n, row, t := |s.txs|, s.rows[id], Tx(Purge, id, false, false, Fresh);
    var u := Looked(s.rows, t).value;
    OpensAlone(s, Purge, id);
    StepAlone(s, [Open(Purge, id)], t, Look(n), u);
    events := [Open(Purge, id)] + [Look(n)];
    if u.stage.Ended? {
      OverIsQuiet(s, u);
    } else {
      var d := u.(stage := DataDropped);
      var w := u.(stage := Written(row.(purged := true, email := PurgedEmailFor(id)), true));
      StepAlone(s, events, u, Drop(n), d);
      OwnStep(s, d, w);
      StepAlone(s, events + [Drop(n)], d, Write(n, false), w);
      CommitsAlone(s, events + [Drop(n)] + [Write(n, false)], w);
      OverIsQuiet(s, Over(w));
      events := events + [Drop(n)] + [Write(n, false)] + [Commit(n)];
    }
  }

  // At any time an account may be created, active and with its data, and a transaction may
  // be given up, or a guarded statement of it miss its row, with nothing changed.
  lemma AtAnyTime(s: State)
    ensures forall id, row: Row :: id !in s.rows && !row.disabled && !row.purged && row.email != PurgedEmailFor(id) ==>
      Next(s, Create(id, row)) == Some(State(s.rows[id := row], s.data + {id}, s.txs))
    ensures forall i :: 0 <= i < |s.txs| && !s.txs[i].stage.Ended? ==>
      Next(s, Rollback(i)) == Some(s.(txs := s.txs[i := s.txs[i].(stage := Ended, locked := false)]))
    ensures forall i :: 0 <= i < |s.txs| && s.txs[i].id in s.rows && RowIsFree(s.txs, i) && MayMiss(s.txs[i]) ==>
      Next(s, Write(i, true)) == Some(s.(txs := s.txs[i := s.txs[i].(stage := Ended, locked := false)]))
  {
  }

  predicate MayMiss(t: Tx) {
    (t.job.Reactivate? && t.stage.Fresh?) || t.stage.Counted? || t.stage.DataDropped?
  }

  // ── what holds in every reachable state ────────────────────────────────────

  ghost predicate OneLock(txs: seq<Tx>) {
    forall i, j :: 0 <= i < j < |txs| ==> !(txs[i].locked && txs[j].locked)
  }

  ghost predicate OneOwner(txs: seq<Tx>) {
    forall i, j :: 0 <= i < j < |txs| && txs[i].id == txs[j].id ==> !(Owns(txs[i]) && Owns(txs[j]))
  }

  // An uncommitted row is one change away from the committed one.
  predicate OwnRowOk(rows: Rows, t: Tx) {
    Owns(t) ==>
      && t.id in rows
      && match t.job
         case Deactivate => t.stage.row == rows[t.id].(disabled := true)
         case Reactivate => !Scrubbed(t.id, rows[t.id]) && t.stage.row == rows[t.id].(disabled := false)
         case Purge => rows[t.id].disabled && t.stage.row == rows[t.id].(purged := true, email := PurgedEmailFor(t.id))
         case SetRole(admin) => t.stage.row == rows[t.id].(admin := admin)
  }

  // Only the jobs that have a stage reach it.
  predicate WellStaged(t: Tx) {
    match t.stage
    case RoleRead(_) => t.job.Deactivate? || t.job.SetRole?
    case Counted(_) => t.locked && (t.job.Deactivate? || t.job == SetRole(false))
    case GuardPassed(_) => t.locked && t.job.Deactivate?
    case RowRead => t.job.Purge?
    case DataDropped => t.job.Purge?
    case _ => true
  }

  ghost predicate Sound(s: State) {
    && ScrubbedAreDisabled(s.rows)
    && OneLock(s.txs)
    && OneOwner(s.txs)
    && (forall i :: 0 <= i < |s.txs| ==> s.txs[i].id in s.rows && OwnRowOk(s.rows, s.txs[i]) && WellStaged(s.txs[i]))
  }

  // A step of one transaction that commits nothing.
  lemma WithTxSound(s: State, i: nat, t: Tx, v: State)
    requires Sound(s) && i < |s.txs| && v == s.(txs := s.txs[i := t]) && t.id == s.txs[i].id && OwnRowOk(s.rows, t)
      && WellStaged(t)
    requires t.locked ==> s.txs[i].locked || LockIsFree(s.txs)
    requires Owns(t) ==> RowIsFree(s.txs, i)
    ensures Sound(v)
  {
  }

  lemma WroteIsOk(rows: Rows, t: Tx, missed: bool)
    requires t.id in rows && OwnRowOk(rows, t) && WellStaged(t) && Wrote(rows, t, missed).Some?
    ensures var w := Wrote(rows, t, missed).value;
      OwnRowOk(rows, w) && WellStaged(w) && w.id == t.id && w.job == t.job && (w.locked ==> t.locked)
  {
  }

  lemma CommitIsSound(s: State, i: nat, v: State)
    requires Sound(s) && Next(s, Commit(i)) == Some(v)
    ensures Sound(v)
  {
    var id := s.txs[i].id;
    assert OwnRowOk(s.rows, s.txs[i]);
    assert Scrubbed(id, v.rows[id]) ==> v.rows[id].disabled;
    forall j | 0 <= j < |v.txs|
      ensures OwnRowOk(v.rows, v.txs[j])
    {
      if j != i { assert Owns(s.txs[j]) ==> s.txs[j].id != id; }
    }
  }

  lemma LookIsSound(s: State, i: nat, v: State)
    requires Sound(s) && Next(s, Look(i)) == Some(v)
    ensures Sound(v)
  {
    WithTxSound(s, i, v.txs[i], v);
  }

  lemma ArrivalIsSound(s: State, e: Event, v: State)
    requires Sound(s) && Next(s, e) == Some(v) && (e.Create? || e.Open?)
    ensures Sound(v)
  {
  }

  lemma MoveIsSound(s: State, e: Event, v: State)
    requires Sound(s) && Next(s, e) == Some(v) && (e.Lock? || e.Count? || e.Drop? || e.Rollback?)
    ensures Sound(v)
  {
    WithTxSound(s, e.tx, v.txs[e.tx], v);
  }

  lemma WriteIsSound(s: State, i: nat, missed: bool, v: State)
    requires Sound(s) && Next(s, Write(i, missed)) == Some(v)
    ensures Sound(v)
  {
    WroteIsOk(s.rows, s.txs[i], missed);
    WithTxSound(s, i, v.txs[i], v);
  }

  lemma StepIsSound(s: State, e: Event, v: State)
    requires Sound(s) && Next(s, e) == Some(v)
    ensures Sound(v)
  {
    match e
    case Look(i) => LookIsSound(s, i, v);
    case Write(i, missed) => WriteIsSound(s, i, missed, v);
    case Commit(i) => CommitIsSound(s, i, v);
    case Create(_, _) => ArrivalIsSound(s, e, v);
    case Open(_, _) => ArrivalIsSound(s, e, v);
    case _ => MoveIsSound(s, e, v);
  }

  ghost predicate GoodStart(rows: Rows) { forall id :: id in rows && rows[id].purged ==> rows[id].disabled }

  lemma {:induction false} AlwaysSound(trace: Trace, rows: Rows, data: set<Id>)
    requires GoodStart(rows) && Run(trace, rows, data).Some?
    ensures Sound(Run(trace, rows, data).value)
  {
    match trace
    case Boot => HealExactly(rows);
    case Then(before, event) =>
      AlwaysSound(before, rows, data);
      StepIsSound(Run(before, rows, data).value, event, Run(trace, rows, data).value);
  }

  // In every reachable state a purged row, by marker or by shape, is disabled.
  lemma PurgedIsAlwaysDisabled(trace: Trace, rows: Rows, data: set<Id>, id: Id)
    requires GoodStart(rows) && Run(trace, rows, data).Some?
    requires id in Run(trace, rows, data).value.rows && Scrubbed(id, Run(trace, rows, data).value.rows[id])
    ensures Run(trace, rows, data).value.rows[id].disabled
  {
    AlwaysSound(trace, rows, data);
  }

  // ── purging is for good ────────────────────────────────────────────────────

  predicate Extends(later: Trace, earlier: Trace) {
    later == earlier || (later.Then? && Extends(later.before, earlier))
  }

  lemma {:induction false} PrefixRan(later: Trace, earlier: Trace, rows: Rows, data: set<Id>)
    requires Extends(later, earlier) && Run(later, rows, data).Some?
    ensures Run(earlier, rows, data).Some?
  {
    if later != earlier { PrefixRan(later.before, earlier, rows, data); }
  }

  ghost predicate Gone(s: State, id: Id) { id in s.rows && Scrubbed(id, s.rows[id]) && s.rows[id].disabled }

  lemma StaysGone(s: State, e: Event, v: State, id: Id)
    requires Sound(s) && Next(s, e) == Some(v) && Gone(s, id)
    ensures Gone(v, id)
  {
    if e.Commit? { assert OwnRowOk(s.rows, s.txs[e.tx]); }
  }

  // Once purged, whatever runs later: never un-purged, never re-enabled.
  lemma {:induction false} PurgedForGood(earlier: Trace, later: Trace, rows: Rows, data: set<Id>, id: Id)
    requires GoodStart(rows) && Extends(later, earlier)
    requires Run(later, rows, data).Some? && Run(earlier, rows, data).Some?
    requires id in Run(earlier, rows, data).value.rows && Scrubbed(id, Run(earlier, rows, data).value.rows[id])
    ensures Gone(Run(later, rows, data).value, id)
  {
    AlwaysSound(earlier, rows, data);
    if later != earlier {
      PurgedForGood(earlier, later.before, rows, data, id);
      AlwaysSound(later.before, rows, data);
      StaysGone(Run(later.before, rows, data).value, later.event, Run(later, rows, data).value, id);
    }
  }

  // ── a purge is all or nothing ──────────────────────────────────────────────

  // Private data is gone only with the row scrubbed; a row scrubbed here has none left.
  ghost predicate WholePurges(s: State, atBoot: Rows) {
    && (forall id :: id in s.rows && !Scrubbed(id, s.rows[id]) ==> id in s.data)
    && (forall id :: id in s.rows && Scrubbed(id, s.rows[id]) && id in s.data ==>
       id in atBoot && Scrubbed(id, atBoot[id]))
  }

  lemma StepIsWhole(s: State, e: Event, v: State, atBoot: Rows)
    requires Sound(s) && WholePurges(s, atBoot) && Next(s, e) == Some(v)
    requires forall id :: id in atBoot ==> id in s.rows
    ensures WholePurges(v, atBoot) && forall id :: id in atBoot ==> id in v.rows
  {
    if e.Commit? { assert OwnRowOk(s.rows, s.txs[e.tx]); }
  }

  // However many purges lose their race or fail: no partial scrub is ever committed.
  lemma {:induction false} NoPartialScrub(trace: Trace, rows: Rows, data: set<Id>)
    requires GoodStart(rows) && Run(trace, rows, data).Some?
    requires forall id :: id in rows && !Scrubbed(id, rows[id]) ==> id in data
    ensures WholePurges(Run(trace, rows, data).value, rows)
    ensures forall id :: id in rows ==> id in Run(trace, rows, data).value.rows
  {
    match trace
    case Boot => HealExactly(rows);
    case Then(before, event) =>
      NoPartialScrub(before, rows, data);
      AlwaysSound(before, rows, data);
      StepIsWhole(Run(before, rows, data).value, event, Run(trace, rows, data).value, rows);
  }

  // ── an active admin remains ────────────────────────────────────────────────

  // What a role read under the lock still means, whatever else has been committed; what
  // an active-admin count lets through is held under the lock.
  ghost predicate RoleHolds(rows: Rows, t: Tx)
    requires t.id in rows
  {
    match t.job
    case SetRole(admin) =>
      && !t.stage.GuardPassed?
      && (t.stage.RoleRead? ==> t.locked && rows[t.id].admin == t.stage.admin)
      && (t.stage.Written? ==> t.locked)
      && (t.stage.Written? && !t.stage.guarded ==> admin || !rows[t.id].admin)
    case Deactivate =>
      && (t.stage.RoleRead? && t.early ==> t.locked && rows[t.id].admin == t.stage.admin)
      && (t.stage.Written? && t.stage.guarded ==> t.locked)
      && (t.stage.Written? && !t.stage.guarded && t.early ==> t.locked && !rows[t.id].admin)
    case _ => true
  }

  // The transaction has counted the active admins and not ended.
  predicate HasCounted(t: Tx) {
    t.stage.Counted? || t.stage.GuardPassed? || (t.stage.Written? && t.stage.guarded)
  }

  // What its count still means, as long as nothing took an admin away behind it.
  ghost predicate CountHolds(rows: Rows, t: Tx)
    requires t.id in rows
  {
    && (t.stage.Counted? ==> t.stage.admins <= ActiveAdmins(rows))
    && (t.stage.GuardPassed? ==> OtherAdmin(rows, t.id))
    && (t.stage.Written? && t.stage.guarded && t.job.Deactivate? ==> OtherAdmin(rows, t.id))
    && (t.stage.Written? && t.stage.guarded && t.job == SetRole(false) ==>
         rows[t.id].disabled || OtherAdmin(rows, t.id))
  }

  // A deactivation commits against a row that has become an active admin since its role
  // was read.
  predicate StaleCommit(s: State, e: Event) {
    && e.Commit? && e.tx < |s.txs| && s.txs[e.tx].id in s.rows
    && s.txs[e.tx].job.Deactivate? && s.txs[e.tx].stage.Written? && !s.txs[e.tx].stage.guarded
    && ActiveAdmin(s.rows[s.txs[e.tx].id])
  }

  // A stale commit came after the transaction's count.
  ghost predicate Overtaken(trace: Trace, rows: Rows, data: set<Id>, i: nat)
    requires Run(trace, rows, data).Some?
  {
    trace.Then? &&
    var s := Run(trace.before, rows, data).value;
    Overtaken(trace.before, rows, data, i)
    || (i < |s.txs| && HasCounted(s.txs[i]) && StaleCommit(s, trace.event))
  }

  ghost predicate RolesHold(s: State)
    requires Sound(s)
  {
    forall i :: 0 <= i < |s.txs| ==> RoleHolds(s.rows, s.txs[i])
  }

  lemma WroteHolds(rows: Rows, t: Tx, missed: bool)
    requires t.id in rows && OwnRowOk(rows, t) && WellStaged(t) && Wrote(rows, t, missed).Some?
    ensures RoleHolds(rows, t) ==> RoleHolds(rows, Wrote(rows, t, missed).value)
    ensures CountHolds(rows, t) ==> CountHolds(rows, Wrote(rows, t, missed).value)
  {
    if t.stage.Counted? && |t.stage.admins| > 1 {
      var other := AnotherIn(t.stage.admins, t.id);
    }
  }

  // The commits that can take an active admin away hold the lock, or are stale.
  lemma CommitKeepsOthers(s: State, i: nat, v: State)
    requires Sound(s) && RolesHold(s) && Next(s, Commit(i)) == Some(v)
    ensures s.txs[i].locked || v.rows[s.txs[i].id].admin == s.rows[s.txs[i].id].admin
    ensures s.txs[i].locked || StaleCommit(s, Commit(i)) || ActiveAdmins(s.rows) <= ActiveAdmins(v.rows)
  {
    assert OwnRowOk(s.rows, s.txs[i]) && RoleHolds(s.rows, s.txs[i]);
  }

  lemma CommitRoleHolds(s: State, i: nat, v: State, j: nat)
    requires Sound(s) && RolesHold(s) && Next(s, Commit(i)) == Some(v) && j < |s.txs| && Sound(v)
    ensures RoleHolds(v.rows, v.txs[j])
  {
    if j != i {
      CommitKeepsOthers(s, i, v);
      assert RoleHolds(s.rows, s.txs[j]);
      assert s.txs[j].locked ==> !s.txs[i].locked;
    }
  }

  lemma StepRolesHold(s: State, e: Event, v: State)
    requires Sound(s) && RolesHold(s) && Next(s, e) == Some(v) && Sound(v)
    ensures RolesHold(v)
  {
    forall j | 0 <= j < |v.txs|
      ensures RoleHolds(v.rows, v.txs[j])
    {
      if j < |s.txs| { assert RoleHolds(s.rows, s.txs[j]); }
      if e.Commit? {
        CommitRoleHolds(s, e.tx, v, j);
      } else if e.Write? && e.tx == j {
        WroteHolds(s.rows, s.txs[j], e.missed);
      }
    }
  }

  lemma CommitCountHolds(s: State, i: nat, v: State, j: nat)
    requires Sound(s) && RolesHold(s) && Next(s, Commit(i)) == Some(v) && j < |s.txs| && Sound(v)
    requires CountHolds(s.rows, s.txs[j]) && !(HasCounted(s.txs[j]) && StaleCommit(s, Commit(i)))
    ensures CountHolds(v.rows, v.txs[j])
  {
    var t := s.txs[j];
    if j != i && HasCounted(t) && (t.job.Deactivate? || t.job == SetRole(false)) {
      CommitKeepsOthers(s, i, v);
      assert RoleHolds(s.rows, t) && WellStaged(t) && t.locked;
      assert !s.txs[i].locked;
      assert Owns(t) ==> t.id != s.txs[i].id;
      if OtherAdmin(s.rows, t.id) {
        var other :| other in ActiveAdmins(s.rows) && other != t.id;
        assert other in ActiveAdmins(v.rows);
      }
    }
  }

  lemma StepCountHolds(s: State, e: Event, v: State, j: nat)
    requires Sound(s) && RolesHold(s) && Next(s, e) == Some(v) && Sound(v) && j < |v.txs|
    requires j < |s.txs| ==> CountHolds(s.rows, s.txs[j]) && !(HasCounted(s.txs[j]) && StaleCommit(s, e))
    ensures CountHolds(v.rows, v.txs[j])
  {
    if e.Commit? {
      CommitCountHolds(s, e.tx, v, j);
    } else if e.Create? {
      assert ActiveAdmins(s.rows) <= ActiveAdmins(v.rows);
    } else if e.Write? && e.tx == j {
      WroteHolds(s.rows, s.txs[j], e.missed);
    }
  }

  lemma {:induction false} RolesAlwaysHold(trace: Trace, rows: Rows, data: set<Id>)
    requires GoodStart(rows) && Run(trace, rows, data).Some?
    ensures Sound(Run(trace, rows, data).value) && RolesHold(Run(trace, rows, data).value)
  {
    AlwaysSound(trace, rows, data);
    if trace.Then? {
      RolesAlwaysHold(trace.before, rows, data);
      StepRolesHold(Run(trace.before, rows, data).value, trace.event, Run(trace, rows, data).value);
    }
  }

  // A count stands until a stale commit overtakes it.
  lemma {:induction false} CountsHoldUntilOvertaken(trace: Trace, rows: Rows, data: set<Id>, i: nat)
    requires GoodStart(rows) && Run(trace, rows, data).Some? && i < |Run(trace, rows, data).value.txs|
    requires !Overtaken(trace, rows, data, i)
    ensures Run(trace, rows, data).value.txs[i].id in Run(trace, rows, data).value.rows
    ensures CountHolds(Run(trace, rows, data).value.rows, Run(trace, rows, data).value.txs[i])
  {
    RolesAlwaysHold(trace, rows, data);
    if trace.Then? {
      RolesAlwaysHold(trace.before, rows, data);
      var s := Run(trace.before, rows, data).value;
      if i < |s.txs| { CountsHoldUntilOvertaken(trace.before, rows, data, i); }
      StepCountHolds(s, trace.event, Run(trace, rows, data).value, i);
    }
  }

  // A deactivation or a demotion of the only active admin commits.
  ghost predicate TakesTheLast(s: State, e: Event) {
    && e.Commit? && e.tx < |s.txs| && s.txs[e.tx].stage.Written?
    && (s.txs[e.tx].job.Deactivate? || s.txs[e.tx].job == SetRole(false))
    && ActiveAdmins(s.rows) == {s.txs[e.tx].id}
  }

  lemma TakingTheLastLeavesNone(s: State, e: Event, v: State)
    requires Sound(s) && Next(s, e) == Some(v) && ActiveAdmins(s.rows) != {}
    ensures ActiveAdmins(v.rows) == {} <==> TakesTheLast(s, e)
  {
    var someone :| someone in ActiveAdmins(s.rows);
    if e.Commit? {
      var t := s.txs[e.tx];
      assert OwnRowOk(s.rows, t);
      assert forall id :: id in v.rows && id != t.id ==> id in s.rows && v.rows[id] == s.rows[id];
      if TakesTheLast(s, e) {
        assert forall id :: id in ActiveAdmins(v.rows) ==> id in ActiveAdmins(s.rows) && id != t.id;
      } else if OtherAdmin(s.rows, t.id) {
        var other :| other in ActiveAdmins(s.rows) && other != t.id;
        assert other in ActiveAdmins(v.rows);
      } else {
        assert someone == t.id && ActiveAdmins(s.rows) == {t.id};
        assert t.id in ActiveAdmins(v.rows);
      }
    } else {
      assert someone in ActiveAdmins(v.rows);
    }
  }

  // Such a commit is stale, or something overtook its count.
  lemma OnlyTheStaleTakeTheLast(s: State, e: Event)
    requires Sound(s) && RolesHold(s) && TakesTheLast(s, e) && CountHolds(s.rows, s.txs[e.tx])
    ensures StaleCommit(s, e)
  {
    var t := s.txs[e.tx];
    assert RoleHolds(s.rows, t) && t.id in ActiveAdmins(s.rows);
  }

  // The last active admin may be taken: by a deactivation whose role is out of date, or
  // behind a count that such a one overtook.
  ghost predicate LosesTheLast(trace: Trace, rows: Rows, data: set<Id>, e: Event)
    requires Run(trace, rows, data).Some?
  {
    var s := Run(trace, rows, data).value;
    TakesTheLast(s, e) && (StaleCommit(s, e) || Overtaken(trace, rows, data, e.tx))
  }

  // Exactly, at any point of any run: a step leaves no active admin if and only if it
  // commits the deactivation or demotion of the only one, and is stale or overtaken.
  lemma LossExactly(trace: Trace, rows: Rows, data: set<Id>)
    requires GoodStart(rows) && Run(trace, rows, data).Some? && trace.Then?
    requires ActiveAdmins(Run(trace.before, rows, data).value.rows) != {}
    ensures ActiveAdmins(Run(trace, rows, data).value.rows) == {} <==>
      LosesTheLast(trace.before, rows, data, trace.event)
  {
    RolesAlwaysHold(trace.before, rows, data);
    var s, e := Run(trace.before, rows, data).value, trace.event;
    TakingTheLastLeavesNone(s, e, Run(trace, rows, data).value);
    if TakesTheLast(s, e) && !Overtaken(trace.before, rows, data, e.tx) {
      CountsHoldUntilOvertaken(trace.before, rows, data, e.tx);
      OnlyTheStaleTakeTheLast(s, e);
    }
  }

  ghost predicate AnAdminThroughout(trace: Trace, rows: Rows, data: set<Id>)
    requires Run(trace, rows, data).Some?
  {
    ActiveAdmins(Run(trace, rows, data).value.rows) != {}
      && (trace.Then? ==> AnAdminThroughout(trace.before, rows, data))
  }

  ghost predicate NoLoss(trace: Trace, rows: Rows, data: set<Id>)
    requires Run(trace, rows, data).Some?
  {
    trace.Then? ==> NoLoss(trace.before, rows, data) && !LosesTheLast(trace.before, rows, data, trace.event)
  }

  // Over whole runs: an instance with an active admin has one throughout if and only if
  // no such commit of the last one comes.
  lemma {:induction false} AnAdminRemainsExactly(trace: Trace, rows: Rows, data: set<Id>)
    requires GoodStart(rows) && Run(trace, rows, data).Some? && ActiveAdmins(Heal(rows)) != {}
    ensures AnAdminThroughout(trace, rows, data) <==> NoLoss(trace, rows, data)
  {
    if trace.Then? {
      AnAdminRemainsExactly(trace.before, rows, data);
      if AnAdminThroughout(trace.before, rows, data) { LossExactly(trace, rows, data); }
    }
  }

  ghost predicate NoStaleCommit(trace: Trace, rows: Rows, data: set<Id>)
    requires Run(trace, rows, data).Some?
  {
    trace.Then? ==>
      NoStaleCommit(trace.before, rows, data) && !StaleCommit(Run(trace.before, rows, data).value, trace.event)
  }

  lemma {:induction false} NothingIsOvertaken(trace: Trace, rows: Rows, data: set<Id>)
    requires Run(trace, rows, data).Some? && NoStaleCommit(trace, rows, data)
    ensures forall i :: !Overtaken(trace, rows, data, i)
    ensures NoLoss(trace, rows, data)
  {
    if trace.Then? { NothingIsOvertaken(trace.before, rows, data); }
  }

  // If every deactivation's role is the row's role when it commits, an instance with an
  // active admin always has one, whatever is disabled, demoted, purged and re-enabled at once.
  lemma AnAdminRemains(trace: Trace, rows: Rows, data: set<Id>)
    requires GoodStart(rows) && Run(trace, rows, data).Some? && NoStaleCommit(trace, rows, data)
    requires ActiveAdmins(Heal(rows)) != {}
    ensures AnAdminThroughout(trace, rows, data)
  {
    NothingIsOvertaken(trace, rows, data);
    AnAdminRemainsExactly(trace, rows, data);
  }

  // ── the route that reads the role under the lock ───────────────────────────

  ghost predicate ReadsUnderLock(trace: Trace, rows: Rows, data: set<Id>)
    requires Run(trace, rows, data).Some?
  {
    trace.Then? ==>
      && ReadsUnderLock(trace.before, rows, data)
      && var s := Run(trace.before, rows, data).value;
         trace.event.Look? && s.txs[trace.event.tx].job.Deactivate? ==> s.txs[trace.event.tx].locked
  }

  ghost predicate AllEarly(s: State) {
    forall i :: 0 <= i < |s.txs| && s.txs[i].job.Deactivate? && !s.txs[i].stage.Fresh? && !s.txs[i].stage.Ended? ==>
      s.txs[i].early
  }

  lemma StepStaysEarly(s: State, e: Event, v: State)
    requires Sound(s) && RolesHold(s) && AllEarly(s) && Next(s, e) == Some(v)
    requires e.Look? && s.txs[e.tx].job.Deactivate? ==> s.txs[e.tx].locked
    ensures AllEarly(v) && !StaleCommit(s, e)
  {
    if e.Commit? { assert RoleHolds(s.rows, s.txs[e.tx]); }
  }

  lemma {:induction false} UnderTheLockNothingIsStale(trace: Trace, rows: Rows, data: set<Id>)
    requires GoodStart(rows) && Run(trace, rows, data).Some? && ReadsUnderLock(trace, rows, data)
    ensures NoStaleCommit(trace, rows, data) && AllEarly(Run(trace, rows, data).value)
  {
    if trace.Then? {
      UnderTheLockNothingIsStale(trace.before, rows, data);
      RolesAlwaysHold(trace.before, rows, data);
      StepStaysEarly(Run(trace.before, rows, data).value, trace.event, Run(trace, rows, data).value);
    }
  }

  // So the admin routes alone never lose the last admin.
  lemma UnderTheLockAnAdminRemains(trace: Trace, rows: Rows, data: set<Id>)
    requires GoodStart(rows) && Run(trace, rows, data).Some? && ReadsUnderLock(trace, rows, data)
    requires ActiveAdmins(Heal(rows)) != {}
    ensures AnAdminThroughout(trace, rows, data)
  {
    UnderTheLockNothingIsStale(trace, rows, data);
    AnAdminRemains(trace, rows, data);
  }

  // ── the route that reads it before ─────────────────────────────────────────

  const ANN := Row(false, false, false, "ann@example.org")
  const BOB := Row(true, false, false, "bob@example.org")

  function Extend(trace: Trace, events: seq<Event>): Trace {
    if events == [] then trace else Then(Extend(trace, events[..|events| - 1]), events[|events| - 1])
  }

  // Ann, a plain user, removes herself; before that lands she is made an admin and Bob,
  // until then the only one, is demoted. Nobody is left.
  ghost function LossState(n: nat): State
    requires n <= 15
  {
    var boot := map["ann" := ANN, "bob" := BOB];
    var promoted := boot["ann" := ANN.(admin := true)];
    var demoted := promoted["bob" := BOB.(admin := false)];
    var leave0 := Tx(Deactivate, "ann", false, false, Fresh);
    var leave := leave0.(stage := RoleRead(false));
    var raise0 := Tx(SetRole(true), "ann", false, false, Fresh);
    var raised := raise0.(early := true, stage := Ended);
    var lower0 := Tx(SetRole(false), "bob", false, false, Fresh);
    var lowered := lower0.(early := true, stage := Ended);
    match n
    case 0 => State(boot, {"ann", "bob"}, [])
    case 1 => State(boot, {"ann", "bob"}, [leave0])
    case 2 => State(boot, {"ann", "bob"}, [leave])
    case 3 => State(boot, {"ann", "bob"}, [leave, raise0])
    case 4 => State(boot, {"ann", "bob"}, [leave, raise0.(locked := true)])
    case 5 => State(boot, {"ann", "bob"}, [leave, raise0.(locked := true, early := true, stage := RoleRead(false))])
    case 6 =>
      State(boot, {"ann", "bob"},
        [leave, raise0.(locked := true, early := true, stage := Written(ANN.(admin := true), false))])
    case 7 => State(promoted, {"ann", "bob"}, [leave, raised])
    case 8 => State(promoted, {"ann", "bob"}, [leave, raised, lower0])
    case 9 => State(promoted, {"ann", "bob"}, [leave, raised, lower0.(locked := true)])
    case 10 =>
      State(promoted, {"ann", "bob"}, [leave, raised, lower0.(locked := true, early := true, stage := RoleRead(true))])
    case 11 =>
      State(promoted, {"ann", "bob"},
        [leave, raised, lower0.(locked := true, early := true, stage := Counted({"ann", "bob"}))])
    case 12 =>
      State(promoted, {"ann", "bob"},
        [leave, raised, lower0.(locked := true, early := true, stage := Written(BOB.(admin := false), true))])
    case 13 => State(demoted, {"ann", "bob"}, [leave, raised, lowered])
    case 14 =>
      State(demoted, {"ann", "bob"},
        [leave.(stage := Written(ANN.(admin := true, disabled := true), false)), raised, lowered])
    case _ =>
      State(demoted["ann" := ANN.(admin := true, disabled := true)], {"ann", "bob"},
        [leave.(stage := Ended), raised, lowered])
  }

  const LOSS := [Open(Deactivate, "ann"), Look(0),
                 Open(SetRole(true), "ann"), Lock(1), Look(1), Write(1, false), Commit(1),
                 Open(SetRole(false), "bob"), Lock(2), Look(2), Count(2), Write(2, false), Commit(2),
                 Write(0, false), Commit(0)]

  lemma AnnIsPromoted(n: nat)
    requires n < 7
    ensures Next(LossState(n), LOSS[n]) == Some(LossState(n + 1))
  {
    var s, v, e := LossState(n), LossState(n + 1), LOSS[n];
    assert v.txs == if e.Open? then s.txs + [Tx(e.job, e.id, false, false, Fresh)] else s.txs[e.tx := v.txs[e.tx]];
  }

  lemma BobIsDemoted(n: nat)
    requires 7 <= n < 13
    ensures Next(LossState(n), LOSS[n]) == Some(LossState(n + 1))
  {
    var s, v, e := LossState(n), LossState(n + 1), LOSS[n];
    assert v.txs == if e.Open? then s.txs + [Tx(e.job, e.id, false, false, Fresh)] else s.txs[e.tx := v.txs[e.tx]];
    assert e.Count? ==> ActiveAdmins(s.rows) == {"ann", "bob"};
  }

  lemma AnnLeaves(n: nat)
    requires 13 <= n < 15
    ensures Next(LossState(n), LOSS[n]) == Some(LossState(n + 1))
  {
    var s, v, e := LossState(n), LossState(n + 1), LOSS[n];
    assert v.txs == s.txs[e.tx := v.txs[e.tx]];
  }

  lemma {:induction false} LossRuns(n: nat)
    requires n <= 15
    ensures Run(Extend(Boot, LOSS[..n]), LossState(0).rows, LossState(0).data) == Some(LossState(n))
  {
    if n == 0 {
      LossBegins();
    } else {
      LossRuns(n - 1);
      LossGoesOn(n - 1);
      OneMore(LOSS[..n - 1], LOSS[n - 1], LossState(0).rows, LossState(0).data, LossState(n - 1), LossState(n));
      assert LOSS[..n] == LOSS[..n - 1] + [LOSS[n - 1]];
    }
  }

  lemma LossBegins()
    ensures Run(Extend(Boot, LOSS[..0]), LossState(0).rows, LossState(0).data) == Some(LossState(0))
  {
    assert Heal(LossState(0).rows) == LossState(0).rows;
  }

  lemma LossGoesOn(n: nat)
    requires n < 15
    ensures Next(LossState(n), LOSS[n]) == Some(LossState(n + 1))
  {
    if n < 7 { AnnIsPromoted(n); } else if n < 13 { BobIsDemoted(n); } else { AnnLeaves(n); }
  }

  lemma OneMore(events: seq<Event>, e: Event, rows: Rows, data: set<Id>, s: State, v: State)
    requires Run(Extend(Boot, events), rows, data) == Some(s) && Next(s, e) == Some(v)
    ensures Run(Extend(Boot, events + [e]), rows, data) == Some(v)
  {
    assert (events + [e])[..|events|] == events;
  }

  ghost predicate LosesEveryAdmin(trace: Trace, rows: Rows, data: set<Id>) {
    && GoodStart(rows) && ActiveAdmins(Heal(rows)) != {}
    && Run(trace, rows, data).Some? && ActiveAdmins(Run(trace, rows, data).value.rows) == {}
  }

  lemma AnUnlockedReadLosesTheLastAdmin()
    ensures exists trace, rows, data :: LosesEveryAdmin(trace, rows, data)
  {
    LossRuns(15);
    var s := LossState(0);
    assert Heal(s.rows) == s.rows && "bob" in ActiveAdmins(s.rows);
    assert GoodStart(s.rows) && ActiveAdmins(LossState(15).rows) == {};
    assert LosesEveryAdmin(Extend(Boot, LOSS[..15]), s.rows, s.data);
  }

  // Ann writes; then Bob's demotion counts them both, and lets her commit first: the
  // demotion was decided under the lock, on a count that no longer holds.
  ghost function MeanwhileState(n: nat): State
    requires n <= 8
  {
    var rows := LossState(7).rows;
    var without := rows["ann" := ANN.(admin := true, disabled := true)];
    var gone := Tx(Deactivate, "ann", false, false, Written(ANN.(admin := true, disabled := true), false));
    var raised := Tx(SetRole(true), "ann", false, true, Ended);
    var lower0 := Tx(SetRole(false), "bob", false, false, Fresh);
    var lower := Tx(SetRole(false), "bob", true, true, RoleRead(true));
    match n
    case 0 => LossState(7)
    case 1 => State(rows, {"ann", "bob"}, [gone, raised])
    case 2 => State(rows, {"ann", "bob"}, [gone, raised, lower0])
    case 3 => State(rows, {"ann", "bob"}, [gone, raised, lower0.(locked := true)])
    case 4 => State(rows, {"ann", "bob"}, [gone, raised, lower])
    case 5 => State(rows, {"ann", "bob"}, [gone, raised, lower.(stage := Counted({"ann", "bob"}))])
    case 6 =>
      State(rows, {"ann", "bob"}, [gone, raised, lower.(stage := Written(BOB.(admin := false), true))])
    case 7 =>
      State(without, {"ann", "bob"},
        [gone.(stage := Ended), raised, lower.(stage := Written(BOB.(admin := false), true))])
    case _ =>
      State(without["bob" := BOB.(admin := false)], {"ann", "bob"},
        [gone.(stage := Ended), raised, lower.(locked := false, stage := Ended)])
  }

  const MEANWHILE := [Write(0, false), Open(SetRole(false), "bob"), Lock(2), Look(2), Count(2), Write(2, false),
                      Commit(0), Commit(2)]

  lemma BobIsCounted(n: nat)
    requires n < 6
    ensures Next(MeanwhileState(n), MEANWHILE[n]) == Some(MeanwhileState(n + 1))
  {
    var s, v, e := MeanwhileState(n), MeanwhileState(n + 1), MEANWHILE[n];
    assert v.txs == if e.Open? then s.txs + [Tx(e.job, e.id, false, false, Fresh)] else s.txs[e.tx := v.txs[e.tx]];
    assert e.Count? ==> ActiveAdmins(s.rows) == {"ann", "bob"};
  }

  lemma BothCommit(n: nat)
    requires 6 <= n < 8
    ensures Next(MeanwhileState(n), MEANWHILE[n]) == Some(MeanwhileState(n + 1))
  {
    var s, v, e := MeanwhileState(n), MeanwhileState(n + 1), MEANWHILE[n];
    assert v.txs == s.txs[e.tx := v.txs[e.tx]];
  }

  lemma {:induction false} MeanwhileRuns(n: nat)
    requires n <= 8
    ensures var trace := Extend(Boot, LOSS[..7] + MEANWHILE[..n]);
      Run(trace, LossState(0).rows, LossState(0).data) == Some(MeanwhileState(n))
  {
    if n == 0 {
      LossRuns(7);
      assert LOSS[..7] + MEANWHILE[..0] == LOSS[..7];
    } else {
      MeanwhileRuns(n - 1);
      MeanwhileGoesOn(n - 1);
      OneMore(LOSS[..7] + MEANWHILE[..n - 1], MEANWHILE[n - 1], LossState(0).rows, LossState(0).data,
              MeanwhileState(n - 1), MeanwhileState(n));
      OneLonger(LOSS[..7], MEANWHILE, n);
    }
  }

  lemma MeanwhileGoesOn(n: nat)
    requires n < 8
    ensures Next(MeanwhileState(n), MEANWHILE[n]) == Some(MeanwhileState(n + 1))
  {
    if n < 6 { BobIsCounted(n); } else { BothCommit(n); }
  }

  lemma OneLonger(first: seq<Event>, events: seq<Event>, n: nat)
    requires 0 < n <= |events|
    ensures first + events[..n] == (first + events[..n - 1]) + [events[n - 1]]
  {
  }

  // A demotion that read the role and counted under the lock takes the last admin.
  ghost predicate OvertakenLoss(trace: Trace, rows: Rows, data: set<Id>, i: nat) {
    && LosesEveryAdmin(Then(trace, Commit(i)), rows, data)
    && var s := Run(trace, rows, data).value;
    && ActiveAdmins(s.rows) != {} && i < |s.txs| && s.txs[i].job == SetRole(false) && s.txs[i].early
    && Overtaken(trace, rows, data, i)
  }

  lemma TheCountIsOvertaken()
    ensures var trace := Extend(Boot, LOSS[..7] + MEANWHILE[..7]);
      Run(trace, LossState(0).rows, LossState(0).data) == Some(MeanwhileState(7))
      && Overtaken(trace, LossState(0).rows, LossState(0).data, 2)
  {
    MeanwhileRuns(6);
    MeanwhileRuns(7);
    OneLonger(LOSS[..7], MEANWHILE, 7);
    var earlier := LOSS[..7] + MEANWHILE[..6];
    assert (earlier + [Commit(0)])[..|earlier|] == earlier;
    assert StaleCommit(MeanwhileState(6), Commit(0)) && HasCounted(MeanwhileState(6).txs[2]);
  }

  lemma AnOvertakenCountLosesTheLastAdmin()
    ensures exists trace, rows, data, i :: OvertakenLoss(trace, rows, data, i)
  {
    TheCountIsOvertaken();
    var s, trace := LossState(0), Extend(Boot, LOSS[..7] + MEANWHILE[..7]);
    assert Heal(s.rows) == s.rows && "bob" in ActiveAdmins(s.rows);
    MeanwhileGoesOn(7);
    var before, after := MeanwhileState(7), MeanwhileState(8);
    assert GoodStart(s.rows) && "bob" in ActiveAdmins(before.rows) && ActiveAdmins(after.rows) == {};
    assert Run(Then(trace, Commit(2)), s.rows, s.data) == Some(after);
    assert OvertakenLoss(trace, s.rows, s.data, 2);
  }
}
