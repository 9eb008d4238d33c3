/** Execution of a locked promotion: one savepoint per student, a log and a counter per outcome,
    then the switch of the branch's current year. */
module Execution {
  import opened Records
  import opened Calendar
  import opened Tables

  datatype ExecStatus = NotStarted | Running | Succeeded | Partial | Failed

  datatype Counter =
    | Promotions | Retentions | Graduations | Transfers | Withdrawals | Failures | Skips

  datatype LogStatus = LogSucceeded | LogFailed | LogSkipped

  datatype Log = Log(decision: Id, action: Action, status: LogStatus)

  /** The counter columns of a run. */
  datatype Tally = Tally(promoted: nat, retained: nat, graduated: nat, transferred: nat,
                         withdrawn: nat, failed: nat, skipped: nat)
  {
    function Get(c: Counter): nat {
      match c
      case Promotions => promoted
      case Retentions => retained
      case Graduations => graduated
      case Transfers => transferred
      case Withdrawals => withdrawn
      case Failures => failed
      case Skips => skipped
    }

    function Put(c: Counter, n: nat): (t: Tally)
      ensures forall k :: t.Get(k) == if k == c then n else Get(k)
    {
      match c
      case Promotions => this.(promoted := n)
      case Retentions => this.(retained := n)
      case Graduations => this.(graduated := n)
      case Transfers => this.(transferred := n)
      case Withdrawals => this.(withdrawn := n)
      case Failures => this.(failed := n)
      case Skips => this.(skipped := n)
    }

    function Total(): nat {
      promoted + retained + graduated + transferred + withdrawn + failed + skipped
    }
  }

  const ZERO := Tally(0, 0, 0, 0, 0, 0, 0)

  datatype Plan = Plan(source: Id, target: Id, decisions: seq<Decision>)

  /** Where something outside this model raises while a student is processed: in the step, after so many
      of its writes to the tables, after the counter was written, or after the log was. */
  datatype Break = InStep(writes: nat) | AfterCounter | AfterLog

  /** What fails outside this model, by decision and at the year switch, and how the task runs.  A task
      that runs inside its caller's transaction has effective savepoints, and an exception out of it
      undoes everything; a background worker saves each write at once and has no savepoints. */
  datatype Faults = Faults(breaks: map<Id, Break>, flip: bool, transactional: bool)

  /** The tables, the run's in-memory counters, its saved counters and its logs. */
  datatype Progress = Progress(world: World, memory: Tally, saved: Tally, logs: seq<Log>, crashed: bool)

  function CounterOf(a: Action): Counter
    requires Executable(a)
  {
    match a
    case Promote => Promotions
    case Retain => Retentions
    case Graduate => Graduations
    case TransferOut => Transfers
    case Withdraw => Withdrawals
  }

  function TerminalStatus(a: Action): Standing
    requires Executable(a) && !Moves(a)
  {
    match a
    case Graduate => Graduated
    case TransferOut => Transferred
    case Withdraw => Withdrawn
  }

  // ---------------------------------------------------------------- one student, on values

  /** A student's step: the tables before each write it reaches, and after the last; done is None when
      the step itself raises, which it does at the last of before. */
  datatype Writes = Writes(before: seq<World>, done: Option<World>)

  /** Promote or retain.  A section that is gone is noticed only after two writes. */
  function MoveStep(w: World, plan: Plan, d: Decision): (s: Writes)
    ensures s.before != []
  {
    var source := ActiveEnrollment(w.enrollments, d.profile, plan.source);
    var batch := GetBatch(w, d.targetBatch);
    if source.None? || d.profile >= |w.profiles| then Writes([w], Option.None)
    else
      match AddEnrollment(w, d.profile, plan.target, batch, OpenArrears(w, source.value))
      case Err(_) => Writes([w], Option.None)
      case Ok(added) =>
        var closed := Deactivate(added, source.value, Option.None);
        Writes([w, added, closed],
             if batch.None? then Option.None else Some(PlaceStudent(closed, d.profile, batch.value)))
  }

  /** Graduate, transfer out or withdraw: works with or without a live source enrollment. */
  function ExitStep(w: World, plan: Plan, d: Decision, status: Standing): (s: Writes)
    requires d.profile < |w.profiles|
    ensures s.before != [] && s.done.Some?
  {
    var source := ActiveEnrollment(w.enrollments, d.profile, plan.source);
    if source.None? then Writes([w], Some(CloseStudent(w, d.profile, status)))
    else
      var closed := Deactivate(w, source.value, Some(status));
      var synced := SyncEnrollment(closed, d.profile, source.value);
      Writes([w, closed, synced], Some(CloseStudent(synced, d.profile, status)))
  }

  function StepOf(w: World, plan: Plan, d: Decision): (s: Writes)
    ensures s.before != []
  {
    if !Executable(d.final) || d.profile >= |w.profiles| then Writes([w], Option.None)
    else if Moves(d.final) then MoveStep(w, plan, d)
    else ExitStep(w, plan, d, TerminalStatus(d.final))
  }

  /** The tables after an undisturbed step; None when it raises. */
  function StepWorld(w: World, plan: Plan, d: Decision): Option<World> {
    StepOf(w, plan, d).done
  }

  datatype Reach = InTables | PastCounter | PastLog | Through

  /** What the guarded part has done when it ends or raises: the tables, and how far it got. */
  datatype Attempted = Attempted(world: World, reach: Reach)

  function Reached(s: Writes, cut: Option<Break>): Attempted
    requires s.before != []
  {
    if cut.Some? && cut.value.InStep? && cut.value.writes < |s.before| then
      Attempted(s.before[cut.value.writes], InTables)
    else if s.done.None? then Attempted(s.before[|s.before| - 1], InTables)
    else if cut.None? then Attempted(s.done.value, Through)
    else
      match cut.value
      case InStep(_) => Attempted(s.done.value, InTables)
      case AfterCounter => Attempted(s.done.value, PastCounter)
      case AfterLog => Attempted(s.done.value, PastLog)
  }

  function BreakAt(faults: Faults, id: Id): Option<Break> {
    if id in faults.breaks then Some(faults.breaks[id]) else Option.None
  }

  function Bump(m: Tally, c: Counter): Tally {
    m.Put(c, m.Get(c) + 1)
  }

  /** Saving one counter writes its in-memory value. */
  function Save(saved: Tally, memory: Tally, c: Counter): Tally {
    saved.Put(c, memory.Get(c))
  }

  predicate Logged(logs: seq<Log>, id: Id) {
    exists i :: 0 <= i < |logs| && logs[i].decision == id
  }

  function Count(p: Progress, c: Counter, log: Log): Progress {
    var memory := Bump(p.memory, c);
    p.(memory := memory, saved := Save(p.saved, memory, c), logs := p.logs + [log])
  }

  /** What is left when the guarded part raises: the counter in memory always, and without a
      transaction every write it made. */
  function Raised(p: Progress, c: Counter, t: Attempted, transactional: bool): Progress {
    var q := if t.reach == InTables then p else p.(memory := Bump(p.memory, c));
    if transactional then q
    else q.(world := t.world, saved := if t.reach == InTables then p.saved else Save(p.saved, q.memory, c))
  }

  /** What the loop makes of one attempt.  A decision that has a log in this run, from an earlier delivery
      or from this very attempt, makes the handler's own log row violate the constraint, and the exception
      leaves the loop. */
  function Settle(p: Progress, action: Action, t: Attempted, id: Id, transactional: bool): Progress {
    if p.crashed then p
    else if !Executable(action) then
      if Logged(p.logs, id) then p.(crashed := true) else Count(p, Skips, Log(id, action, LogSkipped))
    else
      var raised := Raised(p, CounterOf(action), t, transactional);
      if Logged(p.logs, id) then raised.(crashed := true)
      else if t.reach == Through then
        Count(p.(world := t.world), CounterOf(action), Log(id, action, LogSucceeded))
      else if t.reach == PastLog && !transactional then
        raised.(logs := p.logs + [Log(id, action, LogSucceeded)], crashed := true)
      else Count(raised, Failures, Log(id, action, LogFailed))
  }

  /** One iteration of the execution loop. */
  function Student(p: Progress, plan: Plan, faults: Faults, id: Id): Progress
    requires id < |plan.decisions|
  {
    var d := plan.decisions[id];
    Settle(p, d.final, Reached(StepOf(p.world, plan, d), BreakAt(faults, id)), id, faults.transactional)
  }

  function Students(p: Progress, plan: Plan, faults: Faults, ids: seq<Id>): Progress
    requires forall i :: 0 <= i < |ids| ==> ids[i] < |plan.decisions|
  {
    if ids == [] then p
    else Student(Students(p, plan, faults, ids[..|ids| - 1]), plan, faults, ids[|ids| - 1])
  }

  /** The decisions a run works through, in order. */
  function ReadyIds(ds: seq<Decision>): (r: seq<Id>)
    ensures forall i :: 0 <= i < |r| ==> r[i] < |ds| && ds[r[i]].readiness == Some(Ready)
    ensures forall i, j :: 0 <= i < j < |r| ==> r[i] < r[j]
    ensures forall k :: 0 <= k < |ds| && ds[k].readiness == Some(Ready) ==> k in r
  {
    if ds == [] then []
    else
      var n := |ds| - 1;
      var rest := ReadyIds(ds[..n]);
      if ds[n].readiness == Some(Ready) then rest + [n] else rest
  }

  // ---------------------------------------------------------------- the year switch and the status

  function MovedCount(saved: Tally): nat {
    saved.promoted + saved.retained
  }

  predicate FlipAttempted(saved: Tally) {
    (saved.failed == 0 || MovedCount(saved) > 0) && MovedCount(saved) + saved.graduated > 0
  }

  predicate FlipPossible(w: World, plan: Plan, faults: Faults) {
    !faults.flip && plan.source < |w.years| && plan.target < |w.years|
  }

  function Flipped(w: World, plan: Plan): World
    requires plan.source < |w.years| && plan.target < |w.years|
  {
    w.(years := ActivateTarget(w.years, plan.source, plan.target),
       rollovers := w.rollovers +
         [RolloverRun(plan.source, Some(plan.target), RollSucceeded, Snapshot([], []), Option.None)])
  }

  function FinalStatus(saved: Tally, flipPossible: bool): ExecStatus {
    if FlipAttempted(saved) then (if flipPossible then Succeeded else Failed)
    else if saved.failed > 0 then (if MovedCount(saved) > 0 then Partial else Failed)
    else Succeeded
  }

  datatype Finish = Finish(progress: Progress, status: ExecStatus)

  /** A whole task: the loop, the year switch and the status.  An exception out of the loop is saved as
      Failed, except that inside a transaction it takes the whole task with it. */
  function RunTask(p: Progress, plan: Plan, faults: Faults): Result<Finish> {
    var q := Students(p, plan, faults, ReadyIds(plan.decisions));
    if q.crashed then
      if faults.transactional then Err(Crash) else Ok(Finish(q, Failed))
    else
      var possible := FlipPossible(q.world, plan, faults);
      var done := if FlipAttempted(q.saved) && possible then q.(world := Flipped(q.world, plan)) else q;
      Ok(Finish(done.(memory := q.saved), FinalStatus(q.saved, possible)))
  }

  // ---------------------------------------------------------------- in place

  class ExecutionRun {
    var memory: Tally
    var saved: Tally
    var logs: seq<Log>

    constructor ()
      ensures memory == ZERO && saved == ZERO && logs == []
    {
      memory, saved, logs := ZERO, ZERO, [];
    }

    /** Increments one counter in memory and saves that field. */
    method Increment(c: Counter)
      modifies this`memory, this`saved
      ensures memory == Bump(old(memory), c)
      ensures saved == Save(old(saved), memory, c)
    {
      memory := memory.Put(c, memory.Get(c) + 1);
      saved := saved.Put(c, memory.Get(c));
    }

    /** Inserts a log row; one row per run and decision. */
    method CreateLog(log: Log) returns (ok: bool)
      modifies this`logs
      ensures ok <==> !Logged(old(logs), log.decision)
      ensures logs == if ok then old(logs) + [log] else old(logs)
    {
      ok := !Logged(logs, log.decision);
      if ok { logs := logs + [log]; }
    }
  }

  ghost function State(db: Database, run: ExecutionRun, crashed: bool): Progress
    reads db, run
  {
    Progress(db.Rows(), run.memory, run.saved, run.logs, crashed)
  }

  /** An outside exception strikes after this many writes of the step. */
  predicate Strikes(cut: Option<Break>, writes: nat) {
    cut == Some(InStep(writes))
  }

  method ExecutePromoteRetain(db: Database, plan: Plan, d: Decision, cut: Option<Break>) returns (ok: bool)
    requires d.profile < |db.profiles|
    modifies db
    ensures var t := Reached(MoveStep(old(db.Rows()), plan, d), cut);
            db.Rows() == t.world && (ok <==> t.reach != InTables)
  {
    if Strikes(cut, 0) { return false; }
    var source := ActiveEnrollment(db.enrollments, d.profile, plan.source);
    if source.None? { return false; }
    var backlog := OpenArrears(db.Rows(), source.value);
    var batch := GetBatch(db.Rows(), d.targetBatch);
    var created := db.CreateEnrollment(d.profile, plan.target, batch, backlog);
    if created.None? || Strikes(cut, 1) { return false; }
    db.DeactivateEnrollment(source.value, Option.None);
    if batch.None? || Strikes(cut, 2) { return false; }
    db.SetStudentBatch(d.profile, batch.value);
    ok := cut.None? || !cut.value.InStep?;
  }

  method ExecuteExit(db: Database, plan: Plan, d: Decision, status: Standing, cut: Option<Break>)
    returns (ok: bool)
    requires d.profile < |db.profiles|
    modifies db
    ensures var t := Reached(ExitStep(old(db.Rows()), plan, d, status), cut);
            db.Rows() == t.world && (ok <==> t.reach != InTables)
  {
    if Strikes(cut, 0) { return false; }
    var source := ActiveEnrollment(db.enrollments, d.profile, plan.source);
    if source.Some? {
      db.DeactivateEnrollment(source.value, Some(status));
      if Strikes(cut, 1) { return false; }
      db.SyncCurrentEnrollment(d.profile, source.value);
      if Strikes(cut, 2) { return false; }
    }
    db.SetAcademicStatus(d.profile, status);
    ok := cut.None? || !cut.value.InStep?;
  }

  /** The guarded part of one iteration: the student step, the counter, the log, the notification.  Says
      what is written, raise or not. */
  method Attempt(db: Database, run: ExecutionRun, plan: Plan, faults: Faults, id: Id) returns (ok: bool)
    requires id < |plan.decisions| && Executable(plan.decisions[id].final)
    modifies db, run
    ensures var d := plan.decisions[id];
            var t := Reached(StepOf(old(db.Rows()), plan, d), BreakAt(faults, id));
            var c, logged := CounterOf(d.final), Logged(old(run.logs), id);
            && db.Rows() == t.world
            && run.memory == (if t.reach == InTables then old(run.memory) else Bump(old(run.memory), c))
            && run.saved == (if t.reach == InTables then old(run.saved) else Save(old(run.saved), run.memory, c))
            && run.logs == (if t.reach in {PastLog, Through} && !logged
                            then old(run.logs) + [Log(id, d.final, LogSucceeded)] else old(run.logs))
            && (ok <==> t.reach == Through && !logged)
  {
    var d, cut := plan.decisions[id], BreakAt(faults, id);
    ok := ExecuteStep(db, plan, d, cut);
    if !ok { return; }
    run.Increment(CounterOf(d.final));
    if cut == Some(AfterCounter) { return false; }
    ok := run.CreateLog(Log(id, d.final, LogSucceeded));
    ok := ok && cut != Some(AfterLog);
  }

  /** The step of the decision's action. */
  method ExecuteStep(db: Database, plan: Plan, d: Decision, cut: Option<Break>) returns (ok: bool)
    requires Executable(d.final)
    modifies db
    ensures var t := Reached(StepOf(old(db.Rows()), plan, d), cut);
            && db.Rows() == t.world && (ok <==> t.reach != InTables)
            && (ok ==> t.reach == if cut.None? then Through else if cut.value.AfterLog? then PastLog else PastCounter)
  {
    if d.profile >= |db.profiles| { return false; }
    if Moves(d.final) {
      ok := ExecutePromoteRetain(db, plan, d, cut);
    } else {
      ok := ExecuteExit(db, plan, d, TerminalStatus(d.final), cut);
    }
  }

  /** One iteration with its savepoint: in a transaction a raising step is rolled back in the database
      but not in the run's in-memory counters; elsewhere nothing is rolled back. */
  method ExecuteStudent(db: Database, run: ExecutionRun, plan: Plan, faults: Faults, id: Id)
    returns (crashed: bool)
    requires id < |plan.decisions|
    modifies db, run
    ensures State(db, run, crashed) == Student(old(State(db, run, false)), plan, faults, id)
  {
    var d := plan.decisions[id];
    if !Executable(d.final) {
      var inserted := run.CreateLog(Log(id, d.final, LogSkipped));
      if inserted { run.Increment(Skips); }
      return !inserted;
    }
    var savepoint, saved, logs := db.Rows(), run.saved, run.logs;
    LoggedMore(logs, Log(id, d.final, LogSucceeded), id);
    var ok := Attempt(db, run, plan, faults, id);
    if !ok {
      if faults.transactional {
        db.RollbackTo(savepoint);
        run.saved, run.logs := saved, logs;
      }
      var logged := run.CreateLog(Log(id, d.final, LogFailed));
      if !logged { return true; }
      run.Increment(Failures);
    }
    crashed := false;
  }

  lemma LoggedMore(logs: seq<Log>, log: Log, id: Id)
    ensures Logged(logs + [log], id) <==> Logged(logs, id) || log.decision == id
  {
    assert (logs + [log])[|logs|] == log;
    if i :| 0 <= i < |logs| && logs[i].decision == id { assert (logs + [log])[i].decision == id; }
  }

  method RunStudents(db: Database, run: ExecutionRun, plan: Plan, faults: Faults, ids: seq<Id>)
    returns (crashed: bool)
    requires forall i :: 0 <= i < |ids| ==> ids[i] < |plan.decisions|
    modifies db, run
    ensures State(db, run, crashed) == Students(old(State(db, run, false)), plan, faults, ids)
  {
    crashed := false;
    var i := 0;
    assert ids[..0] == [];
    while i < |ids| && !crashed
      invariant 0 <= i <= |ids|
      invariant State(db, run, crashed) == Students(old(State(db, run, false)), plan, faults, ids[..i])
    {
      assert ids[..i + 1][..i] == ids[..i];
      crashed := ExecuteStudent(db, run, plan, faults, ids[i]);
      i := i + 1;
    }
    if crashed { CrashSticks(old(State(db, run, false)), plan, faults, ids, i); }
    assert ids[..|ids|] == ids;
  }

  lemma {:induction false} CrashSticks(p: Progress, plan: Plan, faults: Faults, ids: seq<Id>, n: nat)
    requires forall i :: 0 <= i < |ids| ==> ids[i] < |plan.decisions|
    requires n <= |ids| && Students(p, plan, faults, ids[..n]).crashed
    ensures Students(p, plan, faults, ids) == Students(p, plan, faults, ids[..n])
  {
    if n < |ids| {
      var front := ids[..|ids| - 1];
      assert front[..n] == ids[..n];
      CrashSticks(p, plan, faults, front, n);
    } else {
      assert ids[..n] == ids;
    }
  }

  /** The task: the loop, then the year switch, then the status it saves.  An exception out of it undoes
      the whole task inside a transaction, and is saved as Failed elsewhere. */
  method ExecuteRun(db: Database, run: ExecutionRun, plan: Plan, faults: Faults) returns (status: Option<ExecStatus>)
    modifies db, run
    ensures var p := Progress(old(db.Rows()), old(run.memory), old(run.saved), old(run.logs), false);
            match RunTask(p, plan, faults)
            case Ok(f) =>
              && status == Some(f.status) && db.Rows() == f.progress.world
              && run.memory == f.progress.memory && run.saved == f.progress.saved && run.logs == f.progress.logs
            case Err(_) =>
              && status.None? && db.Rows() == p.world
              && run.memory == p.memory && run.saved == p.saved && run.logs == p.logs
  {
    var start, memory, saved, logs := db.Rows(), run.memory, run.saved, run.logs;
    var crashed := RunStudents(db, run, plan, faults, ReadyIds(plan.decisions));
    if crashed {
      if !faults.transactional { return Some(Failed); }
      db.RollbackTo(start);
      run.memory, run.saved, run.logs := memory, saved, logs;
      return Option.None;
    }
    run.memory := run.saved;
    if FlipAttempted(run.saved) {
      if !FlipPossible(db.Rows(), plan, faults) { return Some(Failed); }
      db.ActivateTargetYear(plan.source, plan.target);
      db.rollovers := db.rollovers +
        [RolloverRun(plan.source, Some(plan.target), RollSucceeded, Snapshot([], []), Option.None)];
      return Some(Succeeded);
    }
    if run.saved.failed == 0 { return Some(Succeeded); }
    status := Some(if MovedCount(run.saved) > 0 then Partial else Failed);
  }
}
