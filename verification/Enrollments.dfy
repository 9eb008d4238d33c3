/** Enrollment safety of promotion execution over any number of runs, retries and failures. */
module Enrollments {
  import opened Records
  import opened Execution
  import opened Accounting

  predicate Matches(e: Enrollment, p: Id, y: Id, liveOnly: bool) {
    e.profile == p && e.year == y && (liveOnly ==> e.live)
  }

  /** How many rows a student has in a year: all of them, or the live ones. */
  function RowCount(es: seq<Enrollment>, p: Id, y: Id, liveOnly: bool): nat {
    if es == [] then 0
    else RowCount(es[..|es| - 1], p, y, liveOnly) + if Matches(es[|es| - 1], p, y, liveOnly) then 1 else 0
  }

  function Live(es: seq<Enrollment>, p: Id, y: Id): nat { RowCount(es, p, y, true) }

  function Ever(es: seq<Enrollment>, p: Id, y: Id): nat { RowCount(es, p, y, false) }

  lemma CountAppend(es: seq<Enrollment>, e: Enrollment, p: Id, y: Id, liveOnly: bool)
    ensures RowCount(es + [e], p, y, liveOnly) ==
            RowCount(es, p, y, liveOnly) + if Matches(e, p, y, liveOnly) then 1 else 0
  {
    assert (es + [e])[..|es|] == es;
  }

  lemma {:induction false} CountUpdate(es: seq<Enrollment>, i: nat, e: Enrollment, p: Id, y: Id, liveOnly: bool)
    requires i < |es|
    ensures RowCount(es[i := e], p, y, liveOnly) + (if Matches(es[i], p, y, liveOnly) then 1 else 0) ==
            RowCount(es, p, y, liveOnly) + if Matches(e, p, y, liveOnly) then 1 else 0
  {
    var n := |es| - 1;
    if i == n {
      assert es[i := e][..n] == es[..n];
    } else {
      assert es[i := e][..n] == es[..n][i := e];
      CountUpdate(es[..n], i, e, p, y, liveOnly);
    }
  }

  lemma {:induction false} UniqueLive(es: seq<Enrollment>, p: Id, y: Id)
    requires UniqueEnrollments(es)
    ensures Live(es, p, y) <= 1
    ensures Live(es, p, y) == 1 <==> exists i :: 0 <= i < |es| && ActiveIn(es[i], p, y)
  {
    if es != [] {
      var front := es[..|es| - 1];
      UniqueLive(front, p, y);
      if i :| 0 <= i < |front| && ActiveIn(front[i], p, y) { assert ActiveIn(es[i], p, y); }
      if Matches(es[|es| - 1], p, y, true) { assert ActiveIn(es[|es| - 1], p, y); }
      if i :| 0 <= i < |es| && ActiveIn(es[i], p, y) && i < |front| { assert ActiveIn(front[i], p, y); }
    }
  }

  /** Rows are only added, and an old row can only lose its live flag and change its status. */
  ghost predicate OnlyCloses(es: seq<Enrollment>, es': seq<Enrollment>) {
    && |es| <= |es'|
    && forall i :: 0 <= i < |es| ==>
         && es'[i] == es[i].(live := es'[i].live, status := es'[i].status)
         && (es'[i].live ==> es[i].live)
  }

  /** Target-year rows are never closed and each new one is live, and is made only where none was live. */
  ghost predicate AtMostOne(es: seq<Enrollment>, es': seq<Enrollment>, q: Id, target: Id) {
    && Ever(es, q, target) <= Ever(es', q, target) <= Ever(es, q, target) + 1
    && Live(es', q, target) - Live(es, q, target) == Ever(es', q, target) - Ever(es, q, target)
    && (Ever(es', q, target) > Ever(es, q, target) ==> Live(es, q, target) == 0)
  }

  /** The ledger of one student: a target-year row costs a live source-year row. */
  ghost predicate Pays(es: seq<Enrollment>, es': seq<Enrollment>, q: Id, source: Id, target: Id) {
    Ever(es', q, target) + Live(es', q, source) <= Ever(es, q, target) + Live(es, q, source)
  }

  lemma CloseRow(es: seq<Enrollment>, i: nat, status: Standing, q: Id, source: Id, target: Id)
    requires i < |es| && es[i].live && es[i].year == source && source != target
    ensures var es' := es[i := es[i].(live := false, status := status)];
            && OnlyCloses(es, es')
            && Ever(es', q, target) == Ever(es, q, target)
            && Live(es', q, target) == Live(es, q, target)
            && Live(es', q, source) + (if es[i].profile == q then 1 else 0) == Live(es, q, source)
  {
    var e := es[i].(live := false, status := status);
    CountUpdate(es, i, e, q, target, false);
    CountUpdate(es, i, e, q, target, true);
    CountUpdate(es, i, e, q, source, true);
  }

  lemma NoneLive(es: seq<Enrollment>, q: Id, y: Id)
    requires ActiveEnrollment(es, q, y).None?
    ensures Live(es, q, y) == 0
  {
    NoneCounted(es, |es|, q, y);
    assert es[..|es|] == es;
  }

  lemma {:induction false} NoneCounted(es: seq<Enrollment>, n: nat, q: Id, y: Id)
    requires n <= |es| && forall i :: 0 <= i < n ==> !ActiveIn(es[i], q, y)
    ensures Live(es[..n], q, y) == 0
  {
    if n > 0 {
      NoneCounted(es, n - 1, q, y);
      assert es[..n][..n - 1] == es[..n - 1];
    }
  }

  /** The first write of a move: one live row more, where there was none. */
  lemma AddRow(es: seq<Enrollment>, row: Enrollment, q: Id, source: Id, target: Id)
    requires row.year == target != source && row.live && ActiveEnrollment(es, row.profile, target).None?
    ensures var es' := es + [row];
            && OnlyCloses(es, es') && AtMostOne(es, es', q, target)
            && Live(es', q, source) == Live(es, q, source)
            && Ever(es', q, target) == Ever(es, q, target) + if row.profile == q then 1 else 0
  {
    CountAppend(es, row, q, target, false);
    CountAppend(es, row, q, target, true);
    CountAppend(es, row, q, source, true);
    NoneLive(es, row.profile, target);
  }

  // ---------------------------------------------------------------- one step, cut anywhere

  /** What any number of writes of a step does to a student's rows. */
  ghost predicate Fair(es: seq<Enrollment>, es': seq<Enrollment>, q: Id, source: Id, target: Id) {
    && OnlyCloses(es, es') && AtMostOne(es, es', q, target)
    && Live(es', q, source) <= Live(es, q, source)
    && (Ever(es', q, target) > Ever(es, q, target) ==> Live(es, q, source) > 0)
  }

  lemma HasLive(es: seq<Enrollment>, i: nat)
    requires i < |es| && es[i].live
    ensures Live(es, es[i].profile, es[i].year) > 0
  {
    var e := es[i].(live := false);
    CountUpdate(es, i, e, es[i].profile, es[i].year, true);
    assert !Matches(e, es[i].profile, es[i].year, true);
  }

  /** The two writes of a move, told on the rows. */
  lemma MovedRows(es: seq<Enrollment>, i: nat, row: Enrollment, q: Id, source: Id, target: Id)
    requires i < |es| && es[i].live && es[i].year == source != target && es[i].profile == row.profile
    requires row.year == target && row.live && ActiveEnrollment(es, row.profile, target).None?
    ensures var added := es + [row];
            && Fair(es, added, q, source, target)
            && (Pays(es, added, q, source, target) <==> row.profile != q)
    ensures var closed := (es + [row])[i := es[i].(live := false)];
            Fair(es, closed, q, source, target) && Pays(es, closed, q, source, target)
  {
    var added := es + [row];
    AddRow(es, row, q, source, target);
    HasLive(es, i);
    CloseRow(added, i, es[i].status, q, source, target);
  }

  lemma MoveFair(w: World, plan: Plan, d: Decision, cut: Option<Break>, q: Id)
    requires plan.source != plan.target
    ensures var es, es' := w.enrollments, Reached(MoveStep(w, plan, d), cut).world.enrollments;
            && Fair(es, es', q, plan.source, plan.target)
            && (Pays(es, es', q, plan.source, plan.target) <==>
                !(cut == Some(InStep(1)) && q == d.profile && q < |w.profiles|
                  && ActiveEnrollment(es, q, plan.source).Some? && ActiveEnrollment(es, q, plan.target).None?))
  {
    var es := w.enrollments;
    var i := ActiveEnrollment(es, d.profile, plan.source);
    if i.Some? && d.profile < |w.profiles| && ActiveEnrollment(es, d.profile, plan.target).None? {
      var row := Enrollment(d.profile, plan.target, GetBatch(w, d.targetBatch), Active, OpenArrears(w, i.value), true);
      MovedRows(es, i.value, row, q, plan.source, plan.target);
      MoveTables(w, plan, d, cut, i.value, row);
    }
  }

  lemma MoveTables(w: World, plan: Plan, d: Decision, cut: Option<Break>, i: Id, row: Enrollment)
    requires ActiveEnrollment(w.enrollments, d.profile, plan.source) == Some(i) && d.profile < |w.profiles|
    requires ActiveEnrollment(w.enrollments, d.profile, plan.target).None?
    requires row == Enrollment(d.profile, plan.target, GetBatch(w, d.targetBatch), Active, OpenArrears(w, i), true)
    ensures var es, es' := w.enrollments, Reached(MoveStep(w, plan, d), cut).world.enrollments;
            es' == if cut == Some(InStep(0)) then es
                   else if cut == Some(InStep(1)) then es + [row]
                   else (es + [row])[i := es[i].(live := false)]
  {
  }

  lemma ExitFair(w: World, plan: Plan, d: Decision, status: Standing, cut: Option<Break>, q: Id)
    requires plan.source != plan.target && d.profile < |w.profiles|
    ensures var es, es' := w.enrollments, Reached(ExitStep(w, plan, d, status), cut).world.enrollments;
            Fair(es, es', q, plan.source, plan.target) && Pays(es, es', q, plan.source, plan.target)
  {
    var source := ActiveEnrollment(w.enrollments, d.profile, plan.source);
    if source.Some? {
      CloseRow(w.enrollments, source.value, status, q, plan.source, plan.target);
    }
  }

  /** An outside exception strikes between opening the new row and closing the old one. */
  predicate CutBetween(w: World, plan: Plan, d: Decision, cut: Option<Break>) {
    && Moves(d.final) && cut == Some(InStep(1)) && d.profile < |w.profiles|
    && ActiveEnrollment(w.enrollments, d.profile, plan.source).Some?
    && ActiveEnrollment(w.enrollments, d.profile, plan.target).None?
  }

  /** Wherever a step is cut, the student's rows stay fair; the new row has been paid for unless the cut
      falls between opening it and closing the old one. */
  lemma StepFair(w: World, plan: Plan, d: Decision, cut: Option<Break>, q: Id)
    requires plan.source != plan.target
    ensures var es, es' := w.enrollments, Reached(StepOf(w, plan, d), cut).world.enrollments;
            && Fair(es, es', q, plan.source, plan.target)
            && (Pays(es, es', q, plan.source, plan.target) <==> !(q == d.profile && CutBetween(w, plan, d, cut)))
  {
    if Executable(d.final) && d.profile < |w.profiles| {
      if Moves(d.final) { MoveFair(w, plan, d, cut, q); }
      else { ExitFair(w, plan, d, TerminalStatus(d.final), cut, q); }
    }
  }

  // ---------------------------------------------------------------- the loop

  lemma FairTwice(es: seq<Enrollment>, fs: seq<Enrollment>, gs: seq<Enrollment>, q: Id, source: Id, target: Id)
    requires Fair(es, fs, q, source, target) && Fair(fs, gs, q, source, target)
    ensures Fair(es, gs, q, source, target)
    ensures Pays(es, fs, q, source, target) && Pays(fs, gs, q, source, target) ==> Pays(es, gs, q, source, target)
  {
  }

  /** No outside exception strikes right after the first write of a step, or savepoints undo it. */
  predicate NeverBetween(faults: Faults) {
    faults.transactional || forall id <- faults.breaks :: faults.breaks[id] != InStep(1)
  }

  /** A worker's attempt is struck between opening the new row and closing the old one. */
  predicate StruckBetween(p: Progress, plan: Plan, faults: Faults, id: Id)
    requires id < |plan.decisions|
  {
    !p.crashed && !faults.transactional && CutBetween(p.world, plan, plan.decisions[id], BreakAt(faults, id))
  }

  /** One iteration is fair to every student, and has paid for the row it opened exactly when it was not
      struck between opening it and closing the old one. */
  lemma IterationFair(p: Progress, plan: Plan, faults: Faults, id: Id, q: Id)
    requires id < |plan.decisions| && plan.source != plan.target
    ensures var es, es' := p.world.enrollments, Student(p, plan, faults, id).world.enrollments;
            && Fair(es, es', q, plan.source, plan.target)
            && (Pays(es, es', q, plan.source, plan.target) <==>
                !(q == plan.decisions[id].profile && StruckBetween(p, plan, faults, id)))
  {
    var d, cut := plan.decisions[id], BreakAt(faults, id);
    var t := Reached(StepOf(p.world, plan, d), cut);
    SettledWorld(p, d.final, t, id, faults.transactional);
    StepFair(p.world, plan, d, cut, q);
    assert t.reach == Through ==> !CutBetween(p.world, plan, d, cut);
  }

  lemma NotStruck(p: Progress, plan: Plan, faults: Faults, id: Id)
    requires id < |plan.decisions| && NeverBetween(faults)
    ensures !StruckBetween(p, plan, faults, id)
  {
  }

  lemma {:induction false} LoopFair(p: Progress, plan: Plan, faults: Faults, ids: seq<Id>, q: Id)
    requires forall i :: 0 <= i < |ids| ==> ids[i] < |plan.decisions|
    requires plan.source != plan.target
    ensures var es, es' := p.world.enrollments, Students(p, plan, faults, ids).world.enrollments;
            && Fair(es, es', q, plan.source, plan.target)
            && (NeverBetween(faults) ==> Pays(es, es', q, plan.source, plan.target))
  {
    if ids != [] {
      var front := ids[..|ids| - 1];
      LoopFair(p, plan, faults, front, q);
      var r := Students(p, plan, faults, front);
      IterationFair(r, plan, faults, ids[|ids| - 1], q);
      if NeverBetween(faults) { NotStruck(r, plan, faults, ids[|ids| - 1]); }
      FairTwice(p.world.enrollments, r.world.enrollments,
                Students(p, plan, faults, ids).world.enrollments, q, plan.source, plan.target);
    }
  }

  // ---------------------------------------------------------------- any tasks

  /** One task execution: any decisions, any faults, a new run or one delivered again in any state. */
  datatype Task = Task(decisions: seq<Decision>, faults: Faults, saved: Tally, logs: seq<Log>)

  function AfterTask(w: World, source: Id, target: Id, t: Task): World {
    match RunTask(Progress(w, t.saved, t.saved, t.logs, false), Plan(source, target, t.decisions), t.faults)
    case Ok(f) => f.progress.world
    case Err(_) => w
  }

  function AfterTasks(w: World, source: Id, target: Id, ts: seq<Task>): World {
    if ts == [] then w
    else AfterTask(AfterTasks(w, source, target, ts[..|ts| - 1]), source, target, ts[|ts| - 1])
  }

  lemma TaskFair(w: World, source: Id, target: Id, t: Task, q: Id)
    requires source != target
    ensures var es, es' := w.enrollments, AfterTask(w, source, target, t).enrollments;
            && Fair(es, es', q, source, target)
            && (NeverBetween(t.faults) ==> Pays(es, es', q, source, target))
  {
    var plan := Plan(source, target, t.decisions);
    var p := Progress(w, t.saved, t.saved, t.logs, false);
    LoopFair(p, plan, t.faults, ReadyIds(plan.decisions), q);
    var es' := AfterTask(w, source, target, t).enrollments;
    assert es' == w.enrollments || es' == Students(p, plan, t.faults, ReadyIds(plan.decisions)).world.enrollments;
  }

  ghost predicate NoneBetween(ts: seq<Task>) {
    forall i :: 0 <= i < |ts| ==> NeverBetween(ts[i].faults)
  }

  lemma {:induction false} TasksFair(w: World, source: Id, target: Id, ts: seq<Task>, q: Id)
    requires source != target
    ensures var es, es' := w.enrollments, AfterTasks(w, source, target, ts).enrollments;
            && Fair(es, es', q, source, target)
            && (NoneBetween(ts) ==> Pays(es, es', q, source, target))
  {
    if ts != [] {
      var front, t := ts[..|ts| - 1], ts[|ts| - 1];
      var before := AfterTasks(w, source, target, front);
      TasksFair(w, source, target, front, q);
      TaskFair(before, source, target, t, q);
      FairTwice(w.enrollments, before.enrollments, AfterTasks(w, source, target, ts).enrollments, q, source, target);
      assert NoneBetween(ts) ==> NoneBetween(front) && NeverBetween(t.faults);
    }
  }

  /** Over any sequence of runs and retries, with savepoints or without, wherever outside exceptions strike,
      a student gets at most one target-year row, and only while enrolled in the source year. */
  lemma OneTargetRow(w: World, source: Id, target: Id, ts: seq<Task>, q: Id)
    requires source != target
    ensures var es, es' := w.enrollments, AfterTasks(w, source, target, ts).enrollments;
            && Ever(es, q, target) <= Ever(es', q, target) <= Ever(es, q, target) + 1
            && (Ever(es', q, target) > Ever(es, q, target) ==> Live(es, q, target) == 0 && Live(es, q, source) > 0)
            && Live(es', q, source) <= Live(es, q, source)
  {
    TasksFair(w, source, target, ts, q);
  }

  /** As long as none of them is cut between opening a row and closing the old one, the new row costs the
      live source-year row, and the live rows over both years never increase. */
  lemma NeverDoubleEnrolled(w: World, source: Id, target: Id, ts: seq<Task>, q: Id)
    requires source != target && UniqueEnrollments(w.enrollments) && NoneBetween(ts)
    ensures var es, es' := w.enrollments, AfterTasks(w, source, target, ts).enrollments;
            && (Ever(es', q, target) > Ever(es, q, target) ==> Live(es, q, source) == 1 && Live(es', q, source) == 0)
            && Live(es', q, source) + Live(es', q, target) <= Live(es, q, source) + Live(es, q, target)
  {
    TasksFair(w, source, target, ts, q);
    UniqueLive(w.enrollments, q, source);
  }

  /** The worker that is cut there leaves the student enrolled in both years. */
  lemma CutLeavesBoth(w: World, plan: Plan, id: Id, faults: Faults)
    requires id < |plan.decisions| && plan.source != plan.target && !faults.transactional
    requires CutBetween(w, plan, plan.decisions[id], BreakAt(faults, id))
    ensures var v := Student(Fresh(w), plan, faults, id).world;
            var q := plan.decisions[id].profile;
            Live(v.enrollments, q, plan.source) > 0 && Live(v.enrollments, q, plan.target) > 0
  {
    var d := plan.decisions[id];
    var q, v := d.profile, Student(Fresh(w), plan, faults, id).world;
    var i := ActiveEnrollment(w.enrollments, q, plan.source).value;
    assert v == MoveStep(w, plan, d).before[1];
    HasLive(v.enrollments, i);
    HasLive(v.enrollments, |w.enrollments|);
  }

  // ---------------------------------------------------------------- deliveries that interleave

  /** One saved write of some delivery.  What it opens or closes was decided on tables read earlier, which
      other deliveries may have changed meanwhile; the constraint on live rows is checked at the write. */
  datatype RowWrite =
    | Open(profile: Id, batch: Option<Id>, backlog: seq<Id>)
    | Close(row: Id, status: Standing)

  /** A refused or meaningless write changes nothing.  Only rows of the source year are closed. */
  function AfterWrite(es: seq<Enrollment>, source: Id, target: Id, write: RowWrite): seq<Enrollment> {
    match write
    case Open(p, b, backlog) =>
      if ActiveEnrollment(es, p, target).Some? then es
      else es + [Enrollment(p, target, b, Active, backlog, true)]
    case Close(i, status) =>
      if i < |es| && es[i].year == source then es[i := es[i].(live := false, status := status)] else es
  }

  function AfterWrites(es: seq<Enrollment>, source: Id, target: Id, writes: seq<RowWrite>): seq<Enrollment> {
    if writes == [] then es
    else AfterWrite(AfterWrites(es, source, target, writes[..|writes| - 1]), source, target, writes[|writes| - 1])
  }

  lemma WriteFair(es: seq<Enrollment>, source: Id, target: Id, write: RowWrite, q: Id)
    requires source != target
    ensures var es' := AfterWrite(es, source, target, write);
            OnlyCloses(es, es') && AtMostOne(es, es', q, target) && Live(es', q, source) <= Live(es, q, source)
  {
    match write
    case Open(p, b, backlog) =>
      if ActiveEnrollment(es, p, target).None? {
        AddRow(es, Enrollment(p, target, b, Active, backlog, true), q, source, target);
      }
    case Close(i, status) =>
      if i < |es| && es[i].year == source {
        var e := es[i].(live := false, status := status);
        CountUpdate(es, i, e, q, target, false);
        CountUpdate(es, i, e, q, target, true);
        CountUpdate(es, i, e, q, source, true);
      }
  }

  lemma OneTwice(es: seq<Enrollment>, fs: seq<Enrollment>, gs: seq<Enrollment>, q: Id, target: Id)
    requires AtMostOne(es, fs, q, target) && AtMostOne(fs, gs, q, target)
    ensures AtMostOne(es, gs, q, target)
  {
  }

  /** In every interleaving of the writes of any deliveries, of one run or of several, in progress at one
      time, a student gets at most one target-year row, and live source rows are never added. */
  lemma {:induction false} OneTargetRowInterleaved(es: seq<Enrollment>, source: Id, target: Id,
                                                  writes: seq<RowWrite>, q: Id)
    requires source != target
    ensures var es' := AfterWrites(es, source, target, writes);
            OnlyCloses(es, es') && AtMostOne(es, es', q, target) && Live(es', q, source) <= Live(es, q, source)
  {
    if writes != [] {
      var front := writes[..|writes| - 1];
      var fs := AfterWrites(es, source, target, front);
      OneTargetRowInterleaved(es, source, target, front, q);
      WriteFair(fs, source, target, writes[|writes| - 1], q);
      OneTwice(es, fs, AfterWrites(es, source, target, writes), q, target);
    }
  }

  /** Every step a delivery takes, cut anywhere, is such writes: what it opens and closes is decided here. */
  function WritesOf(w: World, plan: Plan, d: Decision): seq<RowWrite> {
    var source := ActiveEnrollment(w.enrollments, d.profile, plan.source);
    if !Executable(d.final) || d.profile >= |w.profiles| || source.None? then []
    else if Moves(d.final) then
      if ActiveEnrollment(w.enrollments, d.profile, plan.target).Some? then []
      else [Open(d.profile, GetBatch(w, d.targetBatch), OpenArrears(w, source.value)),
            Close(source.value, w.enrollments[source.value].status)]
    else [Close(source.value, TerminalStatus(d.final))]
  }

  lemma TwoWritten(es: seq<Enrollment>, source: Id, target: Id, a: RowWrite, b: RowWrite)
    ensures AfterWrites(es, source, target, []) == es
    ensures AfterWrites(es, source, target, [a]) == AfterWrite(es, source, target, a)
    ensures AfterWrites(es, source, target, [a, b]) ==
            AfterWrite(AfterWrite(es, source, target, a), source, target, b)
  {
    assert [a][..0] == [] && [a, b][..1] == [a];
  }

  /** The first n writes of the step are what this cut of it has saved. */
  ghost predicate IsWrites(w: World, plan: Plan, d: Decision, cut: Option<Break>, n: nat) {
    && n <= |WritesOf(w, plan, d)|
    && Reached(StepOf(w, plan, d), cut).world.enrollments ==
       AfterWrites(w.enrollments, plan.source, plan.target, WritesOf(w, plan, d)[..n])
  }

  lemma MoveIsWrites(w: World, plan: Plan, d: Decision, cut: Option<Break>)
    requires plan.source != plan.target && |WritesOf(w, plan, d)| == 2
    ensures IsWrites(w, plan, d, cut, if cut == Some(InStep(0)) then 0 else if cut == Some(InStep(1)) then 1 else 2)
  {
    var es, ws := w.enrollments, WritesOf(w, plan, d);
    var i := ActiveEnrollment(es, d.profile, plan.source).value;
    var row := Enrollment(d.profile, plan.target, GetBatch(w, d.targetBatch), Active, OpenArrears(w, i), true);
    TwoWritten(es, plan.source, plan.target, ws[0], ws[1]);
    MoveTables(w, plan, d, cut, i, row);
    assert ws[..0] == [] && ws[..1] == [ws[0]] && ws[..2] == [ws[0], ws[1]];
  }

  lemma ExitIsWrites(w: World, plan: Plan, d: Decision, cut: Option<Break>)
    requires |WritesOf(w, plan, d)| == 1
    ensures IsWrites(w, plan, d, cut, if cut == Some(InStep(0)) then 0 else 1)
  {
    var ws := WritesOf(w, plan, d);
    TwoWritten(w.enrollments, plan.source, plan.target, ws[0], ws[0]);
    assert ws[..0] == [] && ws[..1] == [ws[0]];
  }

  lemma NothingIsWrites(w: World, plan: Plan, d: Decision, cut: Option<Break>)
    requires WritesOf(w, plan, d) == []
    ensures IsWrites(w, plan, d, cut, 0)
  {
  }

  lemma StepIsWrites(w: World, plan: Plan, d: Decision, cut: Option<Break>)
    requires plan.source != plan.target
    ensures exists n :: IsWrites(w, plan, d, cut, n)
  {
    var ws := WritesOf(w, plan, d);
    if ws == [] { NothingIsWrites(w, plan, d, cut); }
    else if |ws| == 1 { ExitIsWrites(w, plan, d, cut); }
    else { MoveIsWrites(w, plan, d, cut); }
  }
}
