/** What an attempt that raises leaves behind, and what delivering a run a second time does, with
    savepoints and without. */
module Redelivery {
  import opened Records
  import opened Calendar
  import opened Execution
  import opened Accounting

  // ---------------------------------------------------------------- all or nothing

  /** The profile as an exit step leaves it. */
  function Left(p: Profile, source: Id, status: Standing): Profile {
    p.(enrollment := Some(source), status := status, batch := Option.None)
  }

  /** The step is cut after some of its writes and before the last of those that matter: a move whose
      section is gone or that is struck between its writes, or an exit struck between its writes. */
  predicate Torn(w: World, plan: Plan, d: Decision, cut: Option<Break>) {
    && Executable(d.final) && d.profile < |w.profiles|
    && var source, p := ActiveEnrollment(w.enrollments, d.profile, plan.source), w.profiles[d.profile];
       && source.Some?
       && if Moves(d.final) then
            && ActiveEnrollment(w.enrollments, d.profile, plan.target).None?
            && if GetBatch(w, d.targetBatch).None? then cut != Some(InStep(0))
               else cut == Some(InStep(1)) || (cut == Some(InStep(2)) && p.batch != d.targetBatch)
          else
            || (cut == Some(InStep(1)) && p != Left(p, source.value, TerminalStatus(d.final)))
            || (cut == Some(InStep(2)) &&
                p.(enrollment := source) != Left(p, source.value, TerminalStatus(d.final)))
  }

  /** The tables are as before the step or as after the whole of it. */
  ghost predicate AllOrNone(w: World, v: World, plan: Plan, d: Decision) {
    v == w || StepWorld(w, plan, d) == Some(v)
  }

  lemma MoveTorn(w: World, plan: Plan, d: Decision, cut: Option<Break>)
    requires Moves(d.final)
    ensures AllOrNone(w, Reached(StepOf(w, plan, d), cut).world, plan, d) <==> !Torn(w, plan, d, cut)
  {
    var i, s := ActiveEnrollment(w.enrollments, d.profile, plan.source), StepOf(w, plan, d);
    if |s.before| == 3 {
      var added, closed := s.before[1], s.before[2];
      assert |added.enrollments| == |closed.enrollments| == |w.enrollments| + 1;
      assert added.enrollments[i.value].live && !closed.enrollments[i.value].live;
      if s.done.Some? {
        var p := w.profiles[d.profile];
        assert s.done.value.profiles[d.profile] == p.(batch := d.targetBatch);
        assert closed.profiles == w.profiles;
        assert p.batch == d.targetBatch ==> s.done.value.profiles == w.profiles;
      }
    }
  }

  lemma ExitTorn(w: World, plan: Plan, d: Decision, cut: Option<Break>)
    requires Executable(d.final) && !Moves(d.final) && d.profile < |w.profiles|
    ensures AllOrNone(w, Reached(StepOf(w, plan, d), cut).world, plan, d) <==> !Torn(w, plan, d, cut)
  {
    var i, s := ActiveEnrollment(w.enrollments, d.profile, plan.source), StepOf(w, plan, d);
    if i.Some? {
      var p, status := w.profiles[d.profile], TerminalStatus(d.final);
      var closed, synced, done := s.before[1], s.before[2], s.done.value;
      assert w.enrollments[i.value].live && !closed.enrollments[i.value].live;
      assert synced.profiles[d.profile] == p.(enrollment := i) && closed.profiles == w.profiles;
      assert done.profiles[d.profile] == Left(p, i.value, status);
      assert done.profiles == w.profiles[d.profile := Left(p, i.value, status)];
      assert synced.profiles == w.profiles[d.profile := p.(enrollment := i)];
      assert p == Left(p, i.value, status) ==> done.profiles == w.profiles;
    }
  }

  /** One attempt takes a student's whole step or leaves the tables alone: in a transaction always, and
      elsewhere exactly when it is not torn. */
  lemma AllOrNothing(p: Progress, plan: Plan, faults: Faults, id: Id)
    requires id < |plan.decisions| && !p.crashed
    ensures var d := plan.decisions[id];
            AllOrNone(p.world, Student(p, plan, faults, id).world, plan, d) <==>
            faults.transactional || !Torn(p.world, plan, d, BreakAt(faults, id))
  {
    var d, cut := plan.decisions[id], BreakAt(faults, id);
    var t := Reached(StepOf(p.world, plan, d), cut);
    SettledWorld(p, d.final, t, id, faults.transactional);
    if Executable(d.final) {
      if Moves(d.final) { MoveTorn(p.world, plan, d, cut); }
      else if d.profile < |p.world.profiles| { ExitTorn(p.world, plan, d, cut); }
    }
    assert t.reach == Through ==> StepWorld(p.world, plan, d) == Some(t.world);
  }

  // ---------------------------------------------------------------- counters that tell more than the logs

  lemma TwoStudents(p: Progress, plan: Plan, faults: Faults, a: Id, b: Id)
    requires a < |plan.decisions| && b < |plan.decisions|
    ensures Students(p, plan, faults, [a, b]) == Student(Student(p, plan, faults, a), plan, faults, b)
  {
    assert [a, b][..1] == [a] && [a][..0] == [];
    assert Students(p, plan, faults, [a]) == Student(Students(p, plan, faults, []), plan, faults, a);
  }

  /** q is p after a graduation in a transaction, undisturbed or struck after its counter. */
  ghost predicate Graduates(p: Progress, q: Progress, id: Id, struck: bool) {
    var memory := Bump(p.memory, Graduations);
    && !q.crashed && |q.world.profiles| == |p.world.profiles|
    && q.memory == (if struck then Bump(memory, Failures) else memory)
    && q.saved == Save(p.saved, q.memory, if struck then Failures else Graduations)
    && q.logs == p.logs + [Log(id, Graduate, if struck then LogFailed else LogSucceeded)]
  }

  lemma Graduation(p: Progress, plan: Plan, faults: Faults, id: Id, struck: bool)
    requires id < |plan.decisions| && plan.decisions[id].final == Graduate && faults.transactional
    requires plan.decisions[id].profile < |p.world.profiles| && !p.crashed && !Logged(p.logs, id)
    requires BreakAt(faults, id) == (if struck then Some(AfterCounter) else Option.None)
    ensures Graduates(p, Student(p, plan, faults, id), id, struck)
  {
  }

  lemma TwoGraduations(p: Progress, q: Progress, r: Progress)
    requires p.memory == p.saved == ZERO && p.logs == [] && Graduates(p, q, 0, true) && Graduates(q, r, 1, false)
    ensures r.saved.graduated == 2 && r.saved.failed == 1 && LogCount(r.logs, Graduations) == 1
  {
    LogCountMore(q.logs, Log(1, Graduate, LogSucceeded), Graduations);
    LogCountMore([], Log(0, Graduate, LogFailed), Graduations);
  }

  /** Two students graduate in a transaction and something raises after the first one's counter: two
      graduations are counted and one is logged. */
  lemma DriftExample(w: World, plan: Plan)
    requires |plan.decisions| == 2 && plan.decisions[0].final == plan.decisions[1].final == Graduate
    requires plan.decisions[0].profile < |w.profiles| && plan.decisions[1].profile < |w.profiles|
    ensures var q := Students(Fresh(w), plan, Faults(map[0 := AfterCounter], false, true), [0, 1]);
            q.saved.graduated == 2 && q.saved.failed == 1 && LogCount(q.logs, Graduations) == 1
  {
    var faults := Faults(map[0 := AfterCounter], false, true);
    TwoStudents(Fresh(w), plan, faults, 0, 1);
    Graduation(Fresh(w), plan, faults, 0, true);
    var p := Student(Fresh(w), plan, faults, 0);
    LoggedMore([], Log(0, Graduate, LogFailed), 1);
    Graduation(p, plan, faults, 1, false);
    TwoGraduations(Fresh(w), p, Student(p, plan, faults, 1));
  }

  /** A worker promotes the only student and something raises before the log is written: nobody is logged
      as promoted, one failure is, and yet the run succeeds and the year is switched. */
  lemma FailureSwitchesYear(w: World, plan: Plan)
    requires |plan.decisions| == 1 && plan.decisions[0].readiness == Some(Ready)
    requires plan.decisions[0].final == Promote && StepWorld(w, plan, plan.decisions[0]).Some?
    requires plan.source < |w.years| && plan.target < |w.years|
    ensures var r := RunTask(Fresh(w), plan, Faults(map[0 := AfterCounter], false, false));
            && r.Ok? && r.value.status == Succeeded
            && r.value.progress.logs == [Log(0, Promote, LogFailed)]
            && r.value.progress.world.years == ActivateTarget(w.years, plan.source, plan.target)
  {
    var faults := Faults(map[0 := AfterCounter], false, false);
    OnlyReady(plan.decisions);
    OneStudent(Fresh(w), plan, faults, 0);
    StruckPromotion(w, plan, faults);
    StruckEnd(w, plan, faults);
  }

  lemma StruckEnd(w: World, plan: Plan, faults: Faults)
    requires ReadyIds(plan.decisions) == [0] && !faults.flip && |plan.decisions| == 1
    requires plan.source < |w.years| && plan.target < |w.years|
    requires var q := Students(Fresh(w), plan, faults, [0]);
             && !q.crashed && q.saved == ZERO.(promoted := 1, failed := 1) && q.logs == [Log(0, Promote, LogFailed)]
             && q.world.years == w.years
    ensures var r := RunTask(Fresh(w), plan, faults);
            && r.Ok? && r.value.status == Succeeded
            && r.value.progress.logs == [Log(0, Promote, LogFailed)]
            && r.value.progress.world.years == ActivateTarget(w.years, plan.source, plan.target)
  {
    TaskShape(Fresh(w), plan, faults);
    EndsSwitched(RunTask(Fresh(w), plan, faults), Students(Fresh(w), plan, faults, [0]), plan);
  }

  lemma EndsSwitched(r: Result<Finish>, q: Progress, plan: Plan)
    requires Ends(r, q, plan, true) && q.saved == ZERO.(promoted := 1, failed := 1)
    ensures r.Ok? && r.value.status == Succeeded && r.value.progress.logs == q.logs
    ensures r.value.progress.world.years == ActivateTarget(q.world.years, plan.source, plan.target)
  {
  }

  /** A worker's promotion struck after its counter stays, is counted and is logged as failed. */
  lemma StruckPromotion(w: World, plan: Plan, faults: Faults)
    requires |plan.decisions| == 1 && plan.decisions[0].final == Promote
    requires StepWorld(w, plan, plan.decisions[0]).Some? && faults == Faults(map[0 := AfterCounter], false, false)
    ensures var q := Student(Fresh(w), plan, faults, 0);
            && !q.crashed && q.saved == ZERO.(promoted := 1, failed := 1) && q.logs == [Log(0, Promote, LogFailed)]
            && q.world.years == w.years
  {
    assert BreakAt(faults, 0) == Some(AfterCounter);
    PromotionKeepsYears(w, plan, plan.decisions[0]);
  }

  lemma PromotionKeepsYears(w: World, plan: Plan, d: Decision)
    requires d.final == Promote && StepWorld(w, plan, d).Some?
    ensures StepWorld(w, plan, d).value.years == w.years
  {
  }

  lemma OnlyReady(ds: seq<Decision>)
    requires |ds| == 1 && ds[0].readiness == Some(Ready)
    ensures ReadyIds(ds) == [0]
  {
    assert ReadyIds(ds[..0]) == [];
  }

  lemma OneStudent(p: Progress, plan: Plan, faults: Faults, id: Id)
    requires id < |plan.decisions|
    ensures Students(p, plan, faults, [id]) == Student(p, plan, faults, id)
  {
    assert [id][..0] == [];
    assert Students(p, plan, faults, []) == p;
  }

  // ---------------------------------------------------------------- delivered again

  /** A run as its next delivery loads it. */
  function Reloaded(f: Finish): Progress {
    Progress(f.progress.world, f.progress.saved, f.progress.saved, f.progress.logs, false)
  }

  lemma {:induction false} FrozenAfterCrash(p: Progress, plan: Plan, faults: Faults, ids: seq<Id>)
    requires forall i :: 0 <= i < |ids| ==> ids[i] < |plan.decisions|
    requires ids != [] && Student(p, plan, faults, ids[0]).crashed
    ensures Students(p, plan, faults, ids) == Student(p, plan, faults, ids[0])
  {
    if |ids| == 1 {
      assert ids == [ids[0]];
      OneStudent(p, plan, faults, ids[0]);
    } else {
      FrozenAfterCrash(p, plan, faults, ids[..|ids| - 1]);
    }
  }

  /** A finished run has logged the first ready decision, however it ended. */
  lemma FirstIsLogged(w: World, plan: Plan, faults: Faults)
    requires ReadyIds(plan.decisions) != [] && RunTask(Fresh(w), plan, faults).Ok?
    ensures Logged(RunTask(Fresh(w), plan, faults).value.progress.logs, ReadyIds(plan.decisions)[0])
  {
    var ids := ReadyIds(plan.decisions);
    var q, os := Students(Fresh(w), plan, faults, ids), Outcomes(Fresh(w), plan, faults, ids);
    TaskShape(Fresh(w), plan, faults);
    FreshLogs(w, plan, faults, ids);
    assert os != [];
    assert q.logs[0].decision == ids[0];
  }

  lemma LoggedCrashes(p: Progress, plan: Plan, faults: Faults, id: Id)
    requires id < |plan.decisions| && !p.crashed && Logged(p.logs, id)
    ensures var d, q := plan.decisions[id], Student(p, plan, faults, id);
            var t := Reached(StepOf(p.world, plan, d), BreakAt(faults, id));
            && q.crashed && q.logs == p.logs
            && (faults.transactional || !Executable(d.final) ==> q.world == p.world && q.saved == p.saved)
            && (!faults.transactional && Executable(d.final) ==>
                  && q.world == t.world
                  && q.saved == if t.reach == InTables then p.saved
                                else Save(p.saved, Bump(p.memory, CounterOf(d.final)), CounterOf(d.final)))
  {
  }

  /** What a second delivery of a finished run amounts to: a raise at its first ready decision. */
  ghost predicate SecondDelivery(f: Finish, plan: Plan, again: Faults, r: Result<Finish>) {
    && ReadyIds(plan.decisions) != []
    && var id, p := ReadyIds(plan.decisions)[0], Reloaded(f);
       if again.transactional then r.Err?
       else r == Ok(Finish(Student(p, plan, again, id), Failed)) && Student(p, plan, again, id).logs == p.logs
  }

  /** Delivering a finished run again never gets past its first ready decision.  Inside a transaction the
      exception undoes the delivery; a worker ends Failed, even if the run had succeeded, with no new log. */
  lemma DeliveredAgain(w: World, plan: Plan, faults: Faults, again: Faults)
    requires ReadyIds(plan.decisions) != [] && RunTask(Fresh(w), plan, faults).Ok?
    ensures var f := RunTask(Fresh(w), plan, faults).value;
            SecondDelivery(f, plan, again, RunTask(Reloaded(f), plan, again))
  {
    var ids, f := ReadyIds(plan.decisions), RunTask(Fresh(w), plan, faults).value;
    FirstIsLogged(w, plan, faults);
    LoggedCrashes(Reloaded(f), plan, again, ids[0]);
    FrozenAfterCrash(Reloaded(f), plan, again, ids);
    TaskShape(Reloaded(f), plan, again);
  }

  /** What the worker's second attempt at the first decision does to the tables and the counters.  A move
      is carried out, unlogged, exactly when the student still has a live source row and no live target row
      (in part only, if the section is gone); an exit is counted once more. */
  lemma SecondAttempt(p: Progress, plan: Plan, faults: Faults, id: Id)
    requires id < |plan.decisions| && !p.crashed && Logged(p.logs, id) && p.memory == p.saved
    requires !faults.transactional && BreakAt(faults, id).None?
    requires Executable(plan.decisions[id].final) && plan.decisions[id].profile < |p.world.profiles|
    ensures var d, q := plan.decisions[id], Student(p, plan, faults, id);
            && (Moves(d.final) ==>
                  (q.world != p.world <==>
                     && ActiveEnrollment(p.world.enrollments, d.profile, plan.source).Some?
                     && ActiveEnrollment(p.world.enrollments, d.profile, plan.target).None?))
            && (Moves(d.final) && q.world != p.world && GetBatch(p.world, d.targetBatch).Some? ==>
                  StepWorld(p.world, plan, d) == Some(q.world))
            && (!Moves(d.final) ==> q.saved == Bump(p.saved, CounterOf(d.final)))
  {
    LoggedCrashes(p, plan, faults, id);
    var d := plan.decisions[id];
    if Moves(d.final) {
      var s := StepOf(p.world, plan, d);
      if |s.before| == 3 {
        assert |s.before[2].enrollments| == |p.world.enrollments| + 1;
        assert s.done.Some? ==> s.done.value.enrollments == s.before[2].enrollments;
      }
    }
  }

  /** A loop crashes exactly when it meets a decision that is logged before it begins, or one breaks it. */
  lemma {:induction false} LoggedRunCrashes(p: Progress, plan: Plan, faults: Faults, ids: seq<Id>)
    requires forall i :: 0 <= i < |ids| ==> ids[i] < |plan.decisions|
    requires !p.crashed && Distinct(ids)
    ensures Students(p, plan, faults, ids).crashed <==> !Unlogged(p.logs, ids) || SomeBreaks(p, plan, faults, ids)
  {
    if Unlogged(p.logs, ids) {
      LoopBreaks(p, plan, faults, ids);
    } else {
      var i :| 0 <= i < |ids| && Logged(p.logs, ids[i]);
      CrashesBy(p, plan, faults, ids, i);
    }
  }

  lemma {:induction false} LogsRemain(p: Progress, plan: Plan, faults: Faults, ids: seq<Id>, id: Id)
    requires forall i :: 0 <= i < |ids| ==> ids[i] < |plan.decisions|
    requires Logged(p.logs, id)
    ensures Logged(Students(p, plan, faults, ids).logs, id)
  {
    if ids != [] {
      LogsRemain(p, plan, faults, ids[..|ids| - 1], id);
      LogRemains(Students(p, plan, faults, ids[..|ids| - 1]), plan, faults, Last(ids), id);
    }
  }

  lemma LogRemains(p: Progress, plan: Plan, faults: Faults, n: Id, id: Id)
    requires n < |plan.decisions| && Logged(p.logs, id)
    ensures Logged(Student(p, plan, faults, n).logs, id)
  {
    var q := Student(p, plan, faults, n);
    if q.logs != p.logs { LoggedMore(p.logs, Last(q.logs), id); }
  }

  lemma {:induction false} CrashesBy(p: Progress, plan: Plan, faults: Faults, ids: seq<Id>, i: nat)
    requires forall k :: 0 <= k < |ids| ==> ids[k] < |plan.decisions|
    requires i < |ids| && Logged(p.logs, ids[i])
    ensures Students(p, plan, faults, ids).crashed
  {
    var front := ids[..|ids| - 1];
    if i == |ids| - 1 {
      LogsRemain(p, plan, faults, front, ids[i]);
      var q := Students(p, plan, faults, front);
      if !q.crashed { LoggedCrashes(q, plan, faults, ids[i]); }
    } else {
      CrashesBy(p, plan, faults, front, i);
    }
  }
}
