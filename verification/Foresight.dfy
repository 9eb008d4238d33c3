/** With one decision per student, how a run goes can be told from the tables it starts on. */
module Foresight {
  import opened Records
  import opened Execution
  import opened Accounting
  import opened Validation
  import opened Sessions
  import opened LockProtocol

  // ---------------------------------------------------------------- no student disturbs another

  /** How far an attempt gets depends only on what validation reads about its student. */
  lemma ReachKept(w: World, v: World, plan: Plan, d: Decision, cut: Option<Break>)
    requires SameFor(w, v, d.profile)
    ensures Reached(StepOf(v, plan, d), cut).reach == Reached(StepOf(w, plan, d), cut).reach
    ensures StepWorld(v, plan, d).Some? <==> StepWorld(w, plan, d).Some?
  {
  }

  lemma CutMoveLeavesRows(w: World, plan: Plan, d: Decision, cut: Option<Break>, q: Id)
    requires q != d.profile
    ensures SameRows(w.enrollments, Reached(MoveStep(w, plan, d), cut).world.enrollments, q)
  {
    var s, es := MoveStep(w, plan, d), w.enrollments;
    if |s.before| == 3 {
      var i := ActiveEnrollment(es, d.profile, plan.source).value;
      var added, closed := s.before[1].enrollments, s.before[2].enrollments;
      assert added == es + [added[|es|]] && closed == added[i := closed[i]];
      assert closed[i].profile == es[i].profile == d.profile == added[|es|].profile;
      assert s.done.Some? ==> s.done.value.enrollments == closed;
    }
  }

  lemma CutLeavesRows(w: World, plan: Plan, d: Decision, cut: Option<Break>, q: Id)
    requires q != d.profile
    ensures SameRows(w.enrollments, Reached(StepOf(w, plan, d), cut).world.enrollments, q)
  {
    if Executable(d.final) && d.profile < |w.profiles| && Moves(d.final) { CutMoveLeavesRows(w, plan, d, cut, q); }
  }

  /** The tables that validation reads, enrollments aside, are the same for student q. */
  ghost predicate SameElse(w: World, v: World, q: Id) {
    && |v.profiles| == |w.profiles| && (q < |w.profiles| ==> v.profiles[q] == w.profiles[q])
    && v.batches == w.batches && v.courses == w.courses && v.fees == w.fees
    && v.arrears == w.arrears && v.college == w.college
  }

  lemma CutMoveLeavesElse(w: World, plan: Plan, d: Decision, cut: Option<Break>, q: Id)
    requires q != d.profile
    ensures SameElse(w, Reached(MoveStep(w, plan, d), cut).world, q)
  {
    var s := MoveStep(w, plan, d);
    MoveStatesLeaveElse(w, plan, d, q);
    var v := Reached(s, cut).world;
    assert v in s.before || Some(v) == s.done;
  }

  lemma MoveStatesLeaveElse(w: World, plan: Plan, d: Decision, q: Id)
    requires q != d.profile
    ensures var s := MoveStep(w, plan, d);
            && (forall v <- s.before :: SameElse(w, v, q))
            && (s.done.Some? ==> SameElse(w, s.done.value, q))
  {
  }

  lemma CutExitLeavesElse(w: World, plan: Plan, d: Decision, cut: Option<Break>, q: Id)
    requires q != d.profile && Executable(d.final) && !Moves(d.final) && d.profile < |w.profiles|
    ensures SameElse(w, Reached(ExitStep(w, plan, d, TerminalStatus(d.final)), cut).world, q)
  {
  }

  lemma CutLeavesElse(w: World, plan: Plan, d: Decision, cut: Option<Break>, q: Id)
    requires q != d.profile
    ensures SameElse(w, Reached(StepOf(w, plan, d), cut).world, q)
  {
    if Executable(d.final) && d.profile < |w.profiles| {
      if Moves(d.final) { CutMoveLeavesElse(w, plan, d, cut, q); } else { CutExitLeavesElse(w, plan, d, cut, q); }
    }
  }

  /** Wherever a student's step is cut, nothing that counts for another student has changed. */
  lemma CutLeavesOthers(w: World, plan: Plan, d: Decision, cut: Option<Break>, q: Id)
    requires q != d.profile
    ensures SameFor(w, Reached(StepOf(w, plan, d), cut).world, q)
  {
    CutLeavesRows(w, plan, d, cut, q);
    CutLeavesElse(w, plan, d, cut, q);
    RowsAndElse(w, Reached(StepOf(w, plan, d), cut).world, q);
  }

  lemma RowsAndElse(w: World, v: World, q: Id)
    requires SameRows(w.enrollments, v.enrollments, q) && SameElse(w, v, q)
    ensures SameFor(w, v, q)
  {
    forall y ensures ActiveEnrollment(v.enrollments, q, y) == ActiveEnrollment(w.enrollments, q, y) {
      LookupKept(w.enrollments, v.enrollments, q, y);
    }
  }

  lemma IterationLeavesOthers(p: Progress, plan: Plan, faults: Faults, id: Id, q: Id)
    requires id < |plan.decisions| && q != plan.decisions[id].profile
    ensures SameFor(p.world, Student(p, plan, faults, id).world, q)
  {
    var d, cut := plan.decisions[id], BreakAt(faults, id);
    CutLeavesOthers(p.world, plan, d, cut, q);
    SettledWorld(p, d.final, Reached(StepOf(p.world, plan, d), cut), id, faults.transactional);
  }

  lemma SameForTwice(u: World, v: World, w: World, q: Id)
    requires SameFor(u, v, q) && SameFor(v, w, q)
    ensures SameFor(u, w, q)
  {
  }

  lemma {:induction false} LoopLeavesOthers(p: Progress, plan: Plan, faults: Faults, ids: seq<Id>, q: Id)
    requires forall i :: 0 <= i < |ids| ==> ids[i] < |plan.decisions| && plan.decisions[ids[i]].profile != q
    ensures SameFor(p.world, Students(p, plan, faults, ids).world, q)
  {
    if ids != [] {
      var r := Students(p, plan, faults, ids[..|ids| - 1]);
      LoopLeavesOthers(p, plan, faults, ids[..|ids| - 1], q);
      IterationLeavesOthers(r, plan, faults, Last(ids), q);
      SameForTwice(p.world, r.world, Student(r, plan, faults, Last(ids)).world, q);
    }
  }

  // ---------------------------------------------------------------- outcomes foreseen

  /** The outcome of each decision as if it came first. */
  function Foreseen(w: World, plan: Plan, faults: Faults, ids: seq<Id>): (os: seq<Outcome>)
    requires forall i :: 0 <= i < |ids| ==> ids[i] < |plan.decisions|
    ensures |os| == |ids|
    ensures forall i :: 0 <= i < |ids| ==> os[i] == OutcomeOf(w, plan, faults, ids[i])
  {
    seq(|ids|, i requires 0 <= i < |ids| => OutcomeOf(w, plan, faults, ids[i]))
  }

  lemma LastForeseen(w: World, plan: Plan, faults: Faults, ids: seq<Id>)
    requires forall i :: 0 <= i < |ids| ==> ids[i] < |plan.decisions|
    requires ids != [] && Distinct(ids) && DistinctProfiles(plan.decisions)
    ensures OutcomeOf(Students(Fresh(w), plan, faults, ids[..|ids| - 1]).world, plan, faults, Last(ids)) ==
            OutcomeOf(w, plan, faults, Last(ids))
  {
    var front, d := ids[..|ids| - 1], plan.decisions[Last(ids)];
    forall i | 0 <= i < |front| ensures plan.decisions[front[i]].profile != d.profile {
      OtherStudent(plan.decisions, ids[i], Last(ids));
    }
    LoopLeavesOthers(Fresh(w), plan, faults, front, d.profile);
    ReachKept(w, Students(Fresh(w), plan, faults, front).world, plan, d, BreakAt(faults, Last(ids)));
  }

  lemma OtherStudent(ds: seq<Decision>, a: Id, b: Id)
    requires DistinctProfiles(ds) && a < |ds| && b < |ds| && a != b
    ensures ds[a].profile != ds[b].profile
  {
    if a < b { assert ds[a].profile != ds[b].profile; } else { assert ds[b].profile != ds[a].profile; }
  }

  lemma ForeseenMore(w: World, plan: Plan, faults: Faults, ids: seq<Id>)
    requires forall i :: 0 <= i < |ids| ==> ids[i] < |plan.decisions|
    requires ids != []
    ensures Foreseen(w, plan, faults, ids) ==
            Foreseen(w, plan, faults, ids[..|ids| - 1]) + [OutcomeOf(w, plan, faults, Last(ids))]
  {
  }

  /** os is a beginning of fs. */
  ghost predicate Begins(os: seq<Outcome>, fs: seq<Outcome>) {
    |os| <= |fs| && os == fs[..|os|]
  }

  lemma BeginsMore(os: seq<Outcome>, fs: seq<Outcome>, o: Outcome)
    requires Begins(os, fs)
    ensures Begins(os, fs + [o]) && (|os| == |fs| ==> Begins(os + [o], fs + [o]))
  {
    assert (fs + [o])[..|os|] == fs[..|os|];
    if |os| == |fs| { assert os == fs; }
  }

  /** The loop's outcomes are the foreseen ones, up to the one that leaves it. */
  lemma {:induction false} OutcomesForeseen(w: World, plan: Plan, faults: Faults, ids: seq<Id>)
    requires forall i :: 0 <= i < |ids| ==> ids[i] < |plan.decisions|
    requires Distinct(ids) && DistinctProfiles(plan.decisions)
    ensures Begins(Outcomes(Fresh(w), plan, faults, ids), Foreseen(w, plan, faults, ids))
  {
    if ids != [] {
      var front := ids[..|ids| - 1];
      OutcomesForeseen(w, plan, faults, front);
      LastForeseen(w, plan, faults, ids);
      ForeseenMore(w, plan, faults, ids);
      BeginsMore(Outcomes(Fresh(w), plan, faults, front), Foreseen(w, plan, faults, front),
                 OutcomeOf(w, plan, faults, Last(ids)));
    }
  }

  ghost predicate SomeBroken(os: seq<Outcome>) {
    exists i :: 0 <= i < |os| && os[i].Broken?
  }

  lemma LastCrashes(w: World, plan: Plan, faults: Faults, ids: seq<Id>)
    requires forall i :: 0 <= i < |ids| ==> ids[i] < |plan.decisions|
    requires ids != [] && Distinct(ids) && !Students(Fresh(w), plan, faults, ids[..|ids| - 1]).crashed
    ensures var q := Students(Fresh(w), plan, faults, ids[..|ids| - 1]);
            Students(Fresh(w), plan, faults, ids).crashed <==> OutcomeOf(q.world, plan, faults, Last(ids)).Broken?
  {
    NotYetLogged(w, plan, faults, ids);
    IterationByOutcome(Students(Fresh(w), plan, faults, ids[..|ids| - 1]), plan, faults, Last(ids), Skips);
  }

  /** Which loops are left by an exception is foreseen. */
  lemma {:induction false} BreaksForeseen(w: World, plan: Plan, faults: Faults, ids: seq<Id>)
    requires forall i :: 0 <= i < |ids| ==> ids[i] < |plan.decisions|
    requires Distinct(ids) && DistinctProfiles(plan.decisions)
    ensures Students(Fresh(w), plan, faults, ids).crashed <==> SomeBroken(Foreseen(w, plan, faults, ids))
  {
    if ids != [] {
      var front := ids[..|ids| - 1];
      BreaksForeseen(w, plan, faults, front);
      ForeseenMore(w, plan, faults, ids);
      BrokenMore(Foreseen(w, plan, faults, front), OutcomeOf(w, plan, faults, Last(ids)));
      if Students(Fresh(w), plan, faults, front).crashed {
        StaysCrashed(Fresh(w), plan, faults, ids);
      } else {
        LastCrashes(w, plan, faults, ids);
        LastForeseen(w, plan, faults, ids);
      }
    }
  }

  lemma BrokenMore(os: seq<Outcome>, o: Outcome)
    ensures SomeBroken(os + [o]) <==> SomeBroken(os) || o.Broken?
  {
    if i :| 0 <= i < |os| && os[i].Broken? { assert (os + [o])[i].Broken?; }
    assert (os + [o])[|os|] == o;
    if i :| 0 <= i < |os + [o]| && (os + [o])[i].Broken? && i < |os| { assert os[i].Broken?; }
  }

  // ---------------------------------------------------------------- the run foreseen

  /** A fresh run with one decision per student goes as foreseen from the tables it starts on.  It reaches
      its end exactly when no outcome is broken, and then there is one log per ready decision, as foreseen,
      and each counter equals its logs exactly when the foreseen outcomes do not inflate it. */
  lemma RunForeseen(w: World, plan: Plan, faults: Faults)
    requires DistinctProfiles(plan.decisions)
    ensures var ids := ReadyIds(plan.decisions);
            var q, fs := Students(Fresh(w), plan, faults, ids), Foreseen(w, plan, faults, ids);
            && (q.crashed <==> SomeBroken(fs))
            && (!q.crashed ==> q.logs == LogsOf(plan, ids, fs) && Accounted(q, fs, faults.transactional))
  {
    var ids := ReadyIds(plan.decisions);
    BreaksForeseen(w, plan, faults, ids);
    WholeForeseen(w, plan, faults, ids);
    FreshLogs(w, plan, faults, ids);
    RunAccounting(w, plan, faults);
  }

  lemma WholeForeseen(w: World, plan: Plan, faults: Faults, ids: seq<Id>)
    requires forall i :: 0 <= i < |ids| ==> ids[i] < |plan.decisions|
    requires Distinct(ids) && DistinctProfiles(plan.decisions)
    ensures !Students(Fresh(w), plan, faults, ids).crashed ==>
              Outcomes(Fresh(w), plan, faults, ids) == Foreseen(w, plan, faults, ids) && ids[..|ids|] == ids
  {
    OutcomesForeseen(w, plan, faults, ids);
  }

  lemma {:induction false} CreditsOccur(os: seq<Outcome>, c: Counter)
    requires !SomeBroken(os) && c != Failures && c != Skips
    ensures Credits(os, c) > 0 <==> Done(c) in os
  {
    if os != [] {
      var front := os[..|os| - 1];
      assert os == front + [Last(os)];
      BrokenMore(front, Last(os));
      CreditsOccur(front, c);
    }
  }

  /** What decides, before the run, whether its logs will tell how it ends. */
  ghost predicate WillTell(fs: seq<Outcome>, transactional: bool, possible: bool) {
    || transactional || !possible
    || Done(Promotions) in fs || Done(Retentions) in fs
    || (Late(Promotions) !in fs && Late(Retentions) !in fs)
  }

  lemma TellForeseen(q: Progress, fs: seq<Outcome>, transactional: bool, possible: bool)
    requires !SomeBroken(fs) && forall c :: SavedFacts(q, fs, c, transactional)
    ensures LogsTell(q.logs, fs, transactional, possible) <==> WillTell(fs, transactional, possible)
  {
    assert SavedFacts(q, fs, Promotions, transactional) && SavedFacts(q, fs, Retentions, transactional);
    CreditsOccur(fs, Promotions);
    CreditsOccur(fs, Retentions);
  }

  /** The status and the year switch of a run that reaches its end agree with its logs exactly when, by the
      tables it starts on, it is in a transaction, or the year cannot be switched, or some move succeeds, or
      none is struck between its counter and its log. */
  lemma StatusForeseen(w: World, plan: Plan, faults: Faults)
    requires DistinctProfiles(plan.decisions)
    requires !SomeBroken(Foreseen(w, plan, faults, ReadyIds(plan.decisions)))
    ensures var ids := ReadyIds(plan.decisions);
            var q, fs := Students(Fresh(w), plan, faults, ids), Foreseen(w, plan, faults, ids);
            && RunTask(Fresh(w), plan, faults).Ok?
            && (EndsByLogs(RunTask(Fresh(w), plan, faults).value, q, plan, FlipPossible(w, plan, faults)) <==>
                WillTell(fs, faults.transactional, FlipPossible(w, plan, faults)))
  {
    var ids := ReadyIds(plan.decisions);
    var q, fs := Students(Fresh(w), plan, faults, ids), Foreseen(w, plan, faults, ids);
    BreaksForeseen(w, plan, faults, ids);
    WholeForeseen(w, plan, faults, ids);
    AllSaved(w, plan, faults, ids);
    LoopKeepsTables(Fresh(w), plan, faults, ids);
    TellForeseen(q, fs, faults.transactional, FlipPossible(w, plan, faults));
    StatusFollowsLogs(w, plan, faults);
  }

  // ---------------------------------------------------------------- a run inside its own start

  /** The k-th attempt inserts into tables whose constraints allow it: the student has no live target row
      and the decision no log. */
  ghost predicate Insertable(p: Progress, plan: Plan, id: Id)
    requires id < |plan.decisions|
  {
    var d := plan.decisions[id];
    && (Moves(d.final) ==> ActiveEnrollment(p.world.enrollments, d.profile, plan.target).None?)
    && (!p.crashed ==> !Logged(p.logs, id))
  }

  lemma LastInsertable(w: World, plan: Plan, faults: Faults, ids: seq<Id>)
    requires forall i :: 0 <= i < |ids| ==> ids[i] < |plan.decisions|
    requires ids != [] && Distinct(ids) && DistinctProfiles(plan.decisions)
    requires DestinationStands(w, plan, plan.decisions[Last(ids)])
    ensures Insertable(Students(Fresh(w), plan, faults, ids[..|ids| - 1]), plan, Last(ids))
  {
    var front, d := ids[..|ids| - 1], plan.decisions[Last(ids)];
    forall i | 0 <= i < |front| ensures plan.decisions[front[i]].profile != d.profile {
      OtherStudent(plan.decisions, ids[i], Last(ids));
    }
    LoopLeavesOthers(Fresh(w), plan, faults, front, d.profile);
    if !Students(Fresh(w), plan, faults, front).crashed { NotYetLogged(w, plan, faults, ids); }
  }

  /** The task of an accepted new start, run at once, never meets a database constraint: whatever raises in
      it comes from outside. */
  lemma StartedRunMeetsNoConstraint(s: Session, w: World, me: Id, phrase: bool, token: Option<Token>,
                                    faults: Faults, k: nat)
    requires StartExecution(s, w, me, Option.None, phrase, token).Ok? && s.execution != Running
    requires DistinctProfiles(s.decisions) && k < |ReadyIds(s.decisions)|
    ensures var t := StartExecution(s, w, me, Option.None, phrase, token).value;
            var ids := ReadyIds(t.decisions);
            t.decisions == s.decisions &&
            Insertable(Students(Fresh(w), PlanOf(t), faults, ids[..k]), PlanOf(t), ids[k])
  {
    var ids := ReadyIds(s.decisions);
    StartStands(s, w, me, phrase, token);
    assert s.decisions[ids[k]] in s.decisions;
    NextInsertable(w, PlanOf(s), faults, ids, k);
  }

  lemma NextInsertable(w: World, plan: Plan, faults: Faults, ids: seq<Id>, k: nat)
    requires forall i :: 0 <= i < |ids| ==> ids[i] < |plan.decisions|
    requires k < |ids| && Distinct(ids) && DistinctProfiles(plan.decisions)
    requires DestinationStands(w, plan, plan.decisions[ids[k]])
    ensures Insertable(Students(Fresh(w), plan, faults, ids[..k]), plan, ids[k])
  {
    var upTo := ids[..k + 1];
    assert upTo[..|upTo| - 1] == ids[..k] && Last(upTo) == ids[k];
    LastInsertable(w, plan, faults, upTo);
  }

  lemma StartStands(s: Session, w: World, me: Id, phrase: bool, token: Option<Token>)
    requires StartExecution(s, w, me, Option.None, phrase, token).Ok? && s.execution != Running
    ensures PlanOf(StartExecution(s, w, me, Option.None, phrase, token).value) == PlanOf(s)
    ensures AllDestinationsStand(w, PlanOf(s))
  {
  }
}
