/** Validation of a promotion plan, the preview it computes, and its agreement with the execution. */
module Validation {
  import opened Records
  import opened Execution
  import opened Accounting

  function ProfileAt(w: World, p: Id): Option<Profile> {
    if p < |w.profiles| then Some(w.profiles[p]) else Option.None
  }

  predicate Charges(f: Fee, b: Id, y: Id) {
    f.live && f.published && f.year == y && f.batch == Some(b)
  }

  /** The live published fee structure of a section in a year that comes first by name. */
  function ResolveFee(fs: seq<Fee>, b: Id, y: Id): (r: Option<Id>)
    ensures r.Some? ==> r.value < |fs| && Charges(fs[r.value], b, y)
    ensures r.Some? ==> forall i :: 0 <= i < |fs| && Charges(fs[i], b, y) ==> fs[r.value].name <= fs[i].name
    ensures r.None? ==> forall i :: 0 <= i < |fs| ==> !Charges(fs[i], b, y)
  {
    if fs == [] then Option.None
    else
      var n := |fs| - 1;
      var r := ResolveFee(fs[..n], b, y);
      if !Charges(fs[n], b, y) || (r.Some? && fs[r.value].name <= fs[n].name) then r else Some(n)
  }

  datatype Verdict = Verdict(readiness: Readiness, reasons: seq<BlockReason>, fee: Option<Id>)

  function BlockedFor(r: BlockReason): Verdict {
    Verdict(Blocked, [r], Option.None)
  }

  function ValidateDecision(w: World, plan: Plan, d: Decision): Verdict {
    var profile := ProfileAt(w, d.profile);
    var batch := GetBatch(w, d.targetBatch);
    if d.final == Pending then BlockedFor(PendingPrerequisites)
    else if d.final == ManualReview then BlockedFor(ManualReviewRequired)
    else if profile.None? || profile.value.status != Active then BlockedFor(NotActive)
    else if ActiveEnrollment(w.enrollments, d.profile, plan.source).None? then BlockedFor(MissingEnrollment)
    else if !Moves(d.final) then Verdict(Ready, [], Option.None)
    else if ActiveEnrollment(w.enrollments, d.profile, plan.target).Some? then BlockedFor(DuplicateEnrollment)
    else if d.targetCourse.None? then BlockedFor(MissingClass)
    else if d.targetBatch.None? then BlockedFor(MissingSection)
    else if batch.None? || w.batches[batch.value].year != plan.target then BlockedFor(InvalidSection)
    else
      var fee := ResolveFee(w.fees, batch.value, plan.target);
      if fee.None? then BlockedFor(MissingFee) else Verdict(Ready, [], fee)
  }

  /** The decision row as validation saves it; a fee is only ever overwritten by another fee. */
  function Validated(w: World, plan: Plan, d: Decision): Decision {
    var v := ValidateDecision(w, plan, d);
    d.(readiness := Some(v.readiness), reasons := v.reasons, fee := if v.fee.Some? then v.fee else d.fee)
  }

  function ValidateAll(w: World, plan: Plan, ds: seq<Decision>): (r: seq<Decision>)
    ensures |r| == |ds|
    ensures forall i :: 0 <= i < |ds| ==> r[i] == Validated(w, plan, ds[i])
  {
    seq(|ds|, i requires 0 <= i < |ds| => Validated(w, plan, ds[i]))
  }

  function CountReadiness(ds: seq<Decision>, r: Readiness): nat {
    if ds == [] then 0
    else CountReadiness(ds[..|ds| - 1], r) + if ds[|ds| - 1].readiness == Some(r) then 1 else 0
  }

  /** Decisions that are ready and carry an action: a line of the execution preview. */
  function CountReady(ds: seq<Decision>, a: Action): nat {
    if ds == [] then 0
    else CountReady(ds[..|ds| - 1], a) +
         if ds[|ds| - 1].readiness == Some(Ready) && ds[|ds| - 1].final == a then 1 else 0
  }

  datatype Impact = Impact(
    newEnrollments: nat, promoted: nat, retained: nat, graduated: nat, transferOut: nat, withdrawn: nat)

  function CountMoves(ds: seq<Decision>): nat {
    if ds == [] then 0
    else CountMoves(ds[..|ds| - 1]) +
         if ds[|ds| - 1].readiness == Some(Ready) && Moves(ds[|ds| - 1].final) then 1 else 0
  }

  function Preview(ds: seq<Decision>): Impact {
    Impact(CountMoves(ds), CountReady(ds, Promote), CountReady(ds, Retain), CountReady(ds, Graduate),
           CountReady(ds, TransferOut), CountReady(ds, Withdraw))
  }

  lemma {:induction false} PreviewMoves(ds: seq<Decision>)
    ensures Preview(ds).newEnrollments == Preview(ds).promoted + Preview(ds).retained
  {
    if ds != [] { PreviewMoves(ds[..|ds| - 1]); }
  }

  lemma {:induction false} NoneBlocked(ds: seq<Decision>)
    ensures CountReadiness(ds, Blocked) == 0 <==> forall i :: 0 <= i < |ds| ==> ds[i].readiness != Some(Blocked)
    ensures CountReadiness(ds, Ready) == |ReadyIds(ds)|
  {
    if ds != [] {
      var front := ds[..|ds| - 1];
      NoneBlocked(front);
      assert forall i :: 0 <= i < |front| ==> front[i] == ds[i];
    }
  }

  /** What the step of a decision needs of the tables. */
  predicate Doable(w: World, plan: Plan, d: Decision) {
    && Executable(d.final)
    && d.profile < |w.profiles| && w.profiles[d.profile].status == Active
    && ActiveEnrollment(w.enrollments, d.profile, plan.source).Some?
    && (Moves(d.final) ==>
          && ActiveEnrollment(w.enrollments, d.profile, plan.target).None?
          && GetBatch(w, d.targetBatch).Some? && w.batches[d.targetBatch.value].year == plan.target)
  }

  /** What readiness of a decision means for the tables. */
  predicate Sound(w: World, plan: Plan, d: Decision) {
    && Doable(w, plan, d)
    && (Moves(d.final) ==>
          && d.targetCourse.Some? && d.fee.Some? && d.fee.value < |w.fees|
          && Charges(w.fees[d.fee.value], d.targetBatch.value, plan.target))
  }

  lemma ReadyIsSound(w: World, plan: Plan, d: Decision)
    requires Validated(w, plan, d).readiness == Some(Ready)
    ensures Sound(w, plan, Validated(w, plan, d))
  {
  }

  // ---------------------------------------------------------------- what decides a verdict

  /** Student p has a live row in year y. */
  ghost predicate EnrolledIn(w: World, p: Id, y: Id) {
    exists e :: 0 <= e < |w.enrollments| && w.enrollments[e].live && w.enrollments[e].profile == p
                && w.enrollments[e].year == y
  }

  /** Section b is live, of this branch and in year y. */
  ghost predicate OpenSection(w: World, b: Id, y: Id) {
    && b < |w.batches| && w.batches[b].live && w.batches[b].year == y
    && w.batches[b].course < |w.courses| && w.courses[w.batches[b].course].local
  }

  ghost predicate Payable(f: Fee, b: Option<Id>, y: Id) {
    f.live && f.published && f.batch == b && f.year == y
  }

  /** What stands in the way of a decision, told on the tables. */
  ghost predicate Obstacle(w: World, plan: Plan, d: Decision, r: BlockReason) {
    var moves := d.final == Promote || d.final == Retain;
    match r
    case PendingPrerequisites => d.final == Pending
    case ManualReviewRequired => d.final == ManualReview
    case NotActive => !(d.profile < |w.profiles| && w.profiles[d.profile].status == Active)
    case MissingEnrollment => !EnrolledIn(w, d.profile, plan.source)
    case DuplicateEnrollment => moves && EnrolledIn(w, d.profile, plan.target)
    case MissingClass => moves && d.targetCourse.None?
    case MissingSection => moves && d.targetBatch.None?
    case InvalidSection => moves && d.targetBatch.Some? && !OpenSection(w, d.targetBatch.value, plan.target)
    case MissingFee =>
      && moves && d.targetBatch.Some?
      && forall f :: 0 <= f < |w.fees| ==> !Payable(w.fees[f], d.targetBatch, plan.target)
  }

  function Rank(r: BlockReason): nat {
    match r
    case PendingPrerequisites => 0
    case ManualReviewRequired => 1
    case NotActive => 2
    case MissingEnrollment => 3
    case DuplicateEnrollment => 4
    case MissingClass => 5
    case MissingSection => 6
    case InvalidSection => 7
    case MissingFee => 8
  }

  ghost predicate FirstObstacle(w: World, plan: Plan, d: Decision, r: BlockReason) {
    Obstacle(w, plan, d, r) && forall q: BlockReason :: Rank(q) < Rank(r) ==> !Obstacle(w, plan, d, q)
  }

  /** Fee f is for the section and year, and no other such fee comes before it by name. */
  ghost predicate FirstFee(w: World, f: Id, b: Option<Id>, y: Id) {
    && f < |w.fees| && Payable(w.fees[f], b, y)
    && forall g :: 0 <= g < |w.fees| && Payable(w.fees[g], b, y) ==> w.fees[f].name <= w.fees[g].name
  }

  /** v is the decision with its verdict: ready, with a fee if it moves, or the first obstacle. */
  ghost predicate Judged(w: World, plan: Plan, d: Decision, v: Decision) {
    var ready := forall r: BlockReason :: !Obstacle(w, plan, d, r);
    && v == d.(readiness := v.readiness, reasons := v.reasons, fee := v.fee)
    && v.readiness == Some(if ready then Ready else Blocked)
    && (if ready then v.reasons == [] else exists r :: FirstObstacle(w, plan, d, r) && v.reasons == [r])
    && (if ready && (d.final == Promote || d.final == Retain)
        then v.fee.Some? && FirstFee(w, v.fee.value, d.targetBatch, plan.target)
        else v.fee == d.fee)
  }

  lemma LookUps(w: World, p: Id, y: Id)
    ensures ActiveEnrollment(w.enrollments, p, y).Some? <==> EnrolledIn(w, p, y)
  {
    var r := ActiveEnrollment(w.enrollments, p, y);
    if e :| 0 <= e < |w.enrollments| && w.enrollments[e].live && w.enrollments[e].profile == p
            && w.enrollments[e].year == y {
      assert ActiveIn(w.enrollments[e], p, y);
    }
  }

  /** A decision is ready exactly when nothing stands in its way, and is otherwise blocked for the first
      obstacle; the fee of a ready move is the first by name for its section. */
  lemma VerdictExact(w: World, plan: Plan, d: Decision)
    ensures Judged(w, plan, d, Validated(w, plan, d))
  {
    if ValidateDecision(w, plan, d).readiness == Blocked {
      BlockedFirst(w, plan, d);
    } else {
      forall r: BlockReason ensures !Obstacle(w, plan, d, r) { ReadyClear(w, plan, d, r); }
    }
  }

  lemma ReadyClear(w: World, plan: Plan, d: Decision, r: BlockReason)
    requires ValidateDecision(w, plan, d).readiness == Ready
    ensures !Obstacle(w, plan, d, r)
  {
    LookUps(w, d.profile, plan.source);
    LookUps(w, d.profile, plan.target);
  }

  lemma BlockedFirst(w: World, plan: Plan, d: Decision)
    requires ValidateDecision(w, plan, d).readiness == Blocked
    ensures exists r :: FirstObstacle(w, plan, d, r) && ValidateDecision(w, plan, d) == BlockedFor(r)
  {
    LookUps(w, d.profile, plan.source);
    LookUps(w, d.profile, plan.target);
    var r := ValidateDecision(w, plan, d).reasons[0];
    assert FirstObstacle(w, plan, d, r);
  }

  // ---------------------------------------------------------------- the execution of a validated plan

  ghost predicate DistinctProfiles(ds: seq<Decision>) {
    forall i, j :: 0 <= i < j < |ds| ==> ds[i].profile != ds[j].profile
  }

  /** Nothing that validation read about a student has changed. */
  ghost predicate SameFor(w: World, w': World, q: Id) {
    && |w'.profiles| == |w.profiles| && w'.batches == w.batches && w'.courses == w.courses && w'.fees == w.fees
    && w'.arrears == w.arrears && w'.college == w.college
    && (q < |w.profiles| ==> w'.profiles[q] == w.profiles[q])
    && forall y :: ActiveEnrollment(w'.enrollments, q, y) == ActiveEnrollment(w.enrollments, q, y)
  }

  /** The rows of student q are the same, and no row was added for q. */
  ghost predicate SameRows(es: seq<Enrollment>, es': seq<Enrollment>, q: Id) {
    && |es| <= |es'|
    && forall i :: 0 <= i < |es'| ==>
         if i < |es| && es[i].profile == q then es'[i] == es[i] else es'[i].profile != q
  }

  lemma LookupKept(es: seq<Enrollment>, es': seq<Enrollment>, q: Id, y: Id)
    requires SameRows(es, es', q)
    ensures ActiveEnrollment(es', q, y) == ActiveEnrollment(es, q, y)
  {
    var r, r' := ActiveEnrollment(es, q, y), ActiveEnrollment(es', q, y);
    if r.Some? { assert ActiveIn(es'[r.value], q, y); }
    if r'.Some? { assert ActiveIn(es[r'.value], q, y); }
  }

  lemma MoveLeavesRows(w: World, plan: Plan, d: Decision, q: Id)
    requires MoveStep(w, plan, d).done.Some? && q != d.profile
    ensures SameRows(w.enrollments, MoveStep(w, plan, d).done.value.enrollments, q)
  {
    var i, es := ActiveEnrollment(w.enrollments, d.profile, plan.source).value, w.enrollments;
    var fs := MoveStep(w, plan, d).done.value.enrollments;
    assert fs == (es + [fs[|es|]])[i := fs[i]] && fs[i].profile == es[i].profile == d.profile;
  }

  lemma StepLeavesRows(w: World, plan: Plan, d: Decision, q: Id)
    requires StepWorld(w, plan, d).Some? && q != d.profile
    ensures SameRows(w.enrollments, StepWorld(w, plan, d).value.enrollments, q)
  {
    if Moves(d.final) { MoveLeavesRows(w, plan, d, q); }
  }

  /** A student's step does not disturb what was validated for another student. */
  lemma StepLeavesOthers(w: World, plan: Plan, d: Decision, q: Id)
    requires StepWorld(w, plan, d).Some? && q != d.profile
    ensures SameFor(w, StepWorld(w, plan, d).value, q)
  {
    var w' := StepWorld(w, plan, d).value;
    StepLeavesRows(w, plan, d, q);
    forall y ensures ActiveEnrollment(w'.enrollments, q, y) == ActiveEnrollment(w.enrollments, q, y) {
      LookupKept(w.enrollments, w'.enrollments, q, y);
    }
  }

  lemma DoableSteps(w: World, plan: Plan, d: Decision)
    requires Doable(w, plan, d)
    ensures StepWorld(w, plan, d).Some?
  {
  }

  ghost predicate Clean(faults: Faults) {
    faults.breaks == map[]
  }

  lemma {:induction false} CleanLoop(w: World, plan: Plan, faults: Faults, ids: seq<Id>, k: Id)
    requires forall i :: 0 <= i < |ids| ==> ids[i] < |plan.decisions| && Doable(w, plan, plan.decisions[ids[i]])
    requires DistinctProfiles(plan.decisions) && Distinct(ids) && Clean(faults)
    requires k < |plan.decisions| && k !in ids
    ensures AsBefore(w, Students(Fresh(w), plan, faults, ids).world, plan.decisions[k].profile)
    decreases |ids|, 1
  {
    if ids != [] {
      var front, n := ids[..|ids| - 1], Last(ids);
      CleanLoop(w, plan, faults, front, k);
      CleanStep(w, plan, faults, ids);
      var q := Students(Fresh(w), plan, faults, front);
      StepLeavesOthers(q.world, plan, plan.decisions[n], plan.decisions[k].profile);
      StepLeavesRows(q.world, plan, plan.decisions[n], plan.decisions[k].profile);
      AsBeforeStill(w, q.world, StepWorld(q.world, plan, plan.decisions[n]).value, plan.decisions[k].profile);
    }
  }

  /** Nothing of student q has changed: what validation reads, and the rows. */
  ghost predicate AsBefore(w: World, v: World, q: Id) {
    SameFor(w, v, q) && SameRows(w.enrollments, v.enrollments, q)
  }

  lemma AsBeforeStill(u: World, v: World, w: World, q: Id)
    requires AsBefore(u, v, q) && AsBefore(v, w, q)
    ensures AsBefore(u, w, q)
  {
  }

  lemma CleanNeverCrashes(w: World, plan: Plan, faults: Faults, ids: seq<Id>)
    requires forall i :: 0 <= i < |ids| ==> ids[i] < |plan.decisions|
    requires Distinct(ids) && Clean(faults)
    ensures !Students(Fresh(w), plan, faults, ids).crashed
  {
    LoopBreaks(Fresh(w), plan, faults, ids);
  }

  /** One iteration whose step is whole and undisturbed. */
  lemma CleanIteration(p: Progress, plan: Plan, faults: Faults, id: Id)
    requires id < |plan.decisions| && !p.crashed && !Logged(p.logs, id) && Clean(faults)
    requires Executable(plan.decisions[id].final) && StepWorld(p.world, plan, plan.decisions[id]).Some?
    ensures OutcomeOf(p.world, plan, faults, id) == Done(CounterOf(plan.decisions[id].final))
    ensures Student(p, plan, faults, id).world == StepWorld(p.world, plan, plan.decisions[id]).value
  {
  }

  lemma {:induction false} CleanStep(w: World, plan: Plan, faults: Faults, ids: seq<Id>)
    requires ids != []
    requires forall i :: 0 <= i < |ids| ==> ids[i] < |plan.decisions| && Doable(w, plan, plan.decisions[ids[i]])
    requires DistinctProfiles(plan.decisions) && Distinct(ids) && Clean(faults)
    ensures var q := Students(Fresh(w), plan, faults, ids[..|ids| - 1]);
            var d := plan.decisions[Last(ids)];
            && StepWorld(q.world, plan, d).Some? && Executable(d.final)
            && OutcomeOf(q.world, plan, faults, Last(ids)) == Done(CounterOf(d.final))
            && Students(Fresh(w), plan, faults, ids).world == StepWorld(q.world, plan, d).value
    decreases |ids|, 0
  {
    var front, n := ids[..|ids| - 1], Last(ids);
    CleanLoop(w, plan, faults, front, n);
    var q := Students(Fresh(w), plan, faults, front);
    DoableKept(w, q.world, plan, plan.decisions[n]);
    DoableSteps(q.world, plan, plan.decisions[n]);
    CleanNeverCrashes(w, plan, faults, front);
    NotYetLogged(w, plan, faults, ids);
    CleanIteration(q, plan, faults, n);
  }

  function CountActions(ds: seq<Decision>, ids: seq<Id>, a: Action): nat
    requires forall i :: 0 <= i < |ids| ==> ids[i] < |ds|
  {
    if ids == [] then 0
    else CountActions(ds, ids[..|ids| - 1], a) + if ds[Last(ids)].final == a then 1 else 0
  }

  lemma {:induction false} CountActionsPrefix(ds: seq<Decision>, ids: seq<Id>, n: nat, a: Action)
    requires n <= |ds|
    requires forall i :: 0 <= i < |ids| ==> ids[i] < n
    ensures CountActions(ds, ids, a) == CountActions(ds[..n], ids, a)
  {
    if ids != [] { CountActionsPrefix(ds, ids[..|ids| - 1], n, a); }
  }

  lemma CountActionsMore(ds: seq<Decision>, ids: seq<Id>, n: Id, a: Action)
    requires n < |ds|
    requires forall i :: 0 <= i < |ids| ==> ids[i] < |ds|
    ensures CountActions(ds, ids + [n], a) == CountActions(ds, ids, a) + if ds[n].final == a then 1 else 0
  {
    assert (ids + [n])[..|ids|] == ids;
  }

  /** The preview counts exactly the actions of the decisions the run works through. */
  lemma {:induction false} PreviewCountsRun(ds: seq<Decision>, a: Action)
    ensures CountReady(ds, a) == CountActions(ds, ReadyIds(ds), a)
  {
    if ds != [] {
      var n, front := |ds| - 1, ds[..|ds| - 1];
      PreviewCountsRun(front, a);
      var rest := ReadyIds(front);
      CountActionsPrefix(ds, rest, n, a);
      assert CountActions(ds, rest, a) == CountReady(front, a);
      if ds[n].readiness == Some(Ready) {
        assert ReadyIds(ds) == rest + [n];
        CountActionsMore(ds, rest, n, a);
      }
    }
  }

  function LogsWith(logs: seq<Log>, a: Action, status: LogStatus): nat {
    if logs == [] then 0
    else LogsWith(logs[..|logs| - 1], a, status) +
         if Last(logs).action == a && Last(logs).status == status then 1 else 0
  }

  lemma LogsWithMore(logs: seq<Log>, log: Log, a: Action, status: LogStatus)
    ensures LogsWith(logs + [log], a, status) ==
            LogsWith(logs, a, status) + if log.action == a && log.status == status then 1 else 0
  {
    assert (logs + [log])[..|logs|] == logs;
  }

  lemma {:induction false} LogsCoverActions(plan: Plan, ids: seq<Id>, os: seq<Outcome>, a: Action)
    requires |os| == |ids| && Executable(a) && AllSuit(plan, ids, os)
    ensures var logs := LogsOf(plan, ids, os);
            LogsWith(logs, a, LogSucceeded) + LogsWith(logs, a, LogFailed) == CountActions(plan.decisions, ids, a)
  {
    if ids != [] {
      LogsCoverActions(plan, ids[..|ids| - 1], os[..|os| - 1], a);
      var front := LogsOf(plan, ids[..|ids| - 1], os[..|os| - 1]);
      var log := LogFrom(Last(ids), plan.decisions[Last(ids)].final, Last(os));
      LogsWithMore(front, log, a, LogSucceeded);
      LogsWithMore(front, log, a, LogFailed);
    }
  }

  /** Every processed decision of an action has succeeded or failed, by the logs. */
  ghost predicate Covered(plan: Plan, ids: seq<Id>, logs: seq<Log>, a: Action)
    requires |logs| <= |ids| && forall i :: 0 <= i < |ids| ==> ids[i] < |plan.decisions|
  {
    LogsWith(logs, a, LogSucceeded) + LogsWith(logs, a, LogFailed) == CountActions(plan.decisions, ids[..|logs|], a)
  }

  lemma LogsCover(w: World, plan: Plan, faults: Faults, ids: seq<Id>, a: Action)
    requires forall i :: 0 <= i < |ids| ==> ids[i] < |plan.decisions|
    requires Distinct(ids) && Executable(a)
    ensures var q := Students(Fresh(w), plan, faults, ids);
            |q.logs| <= |ids| && Covered(plan, ids, q.logs, a) && (!q.crashed ==> |q.logs| == |ids|)
  {
    FreshLogs(w, plan, faults, ids);
    RecordedCover(Fresh(w), Students(Fresh(w), plan, faults, ids), plan, ids,
                  Outcomes(Fresh(w), plan, faults, ids), a);
  }

  lemma RecordedCover(p: Progress, q: Progress, plan: Plan, ids: seq<Id>, os: seq<Outcome>, a: Action)
    requires Recorded(p, q, plan, ids, os) && q.logs == LogsOf(plan, ids[..|os|], os)
    requires AllSuit(plan, ids, os) && Executable(a)
    ensures |q.logs| <= |ids| && Covered(plan, ids, q.logs, a) && (!q.crashed ==> |q.logs| == |ids|)
  {
    LogsCoverActions(plan, ids[..|os|], os, a);
  }

  /** Whatever fails, every line of the preview is the successes plus the failures of that action, provided
      the run reaches its end; when it does not, that holds of the decisions it processed. */
  lemma PreviewShortfall(w: World, plan: Plan, faults: Faults, a: Action)
    requires Executable(a)
    ensures var ids := ReadyIds(plan.decisions);
            var q := Students(Fresh(w), plan, faults, ids);
            && |q.logs| <= |ids| && Covered(plan, ids, q.logs, a)
            && (!q.crashed ==> CountReady(plan.decisions, a) ==
                               LogsWith(q.logs, a, LogSucceeded) + LogsWith(q.logs, a, LogFailed))
  {
    var ids := ReadyIds(plan.decisions);
    LogsCover(w, plan, faults, ids, a);
    PreviewCountsRun(plan.decisions, a);
    assert ids[..|ids|] == ids;
  }

  /** The validated plan as the run sees it: every ready decision can be done, one decision per student. */
  ghost predicate DoablePlan(w: World, plan: Plan) {
    && DistinctProfiles(plan.decisions)
    && forall i :: 0 <= i < |plan.decisions| && plan.decisions[i].readiness == Some(Ready) ==>
         Doable(w, plan, plan.decisions[i])
  }

  /** Outcome for outcome, the steps of an action succeeded and none failed or was skipped. */
  ghost predicate Mirrors(plan: Plan, ids: seq<Id>, os: seq<Outcome>, a: Action)
    requires Executable(a) && forall i :: 0 <= i < |ids| ==> ids[i] < |plan.decisions|
  {
    && Credits(os, CounterOf(a)) == CountActions(plan.decisions, ids, a)
    && Credits(os, Failures) == 0 && Credits(os, Skips) == 0
  }

  lemma MirrorsMore(plan: Plan, ids: seq<Id>, os: seq<Outcome>, a: Action)
    requires Executable(a) && forall i :: 0 <= i < |ids| ==> ids[i] < |plan.decisions|
    requires ids != [] && os != [] && Mirrors(plan, ids[..|ids| - 1], os[..|os| - 1], a)
    requires var d := plan.decisions[Last(ids)]; Executable(d.final) && Last(os) == Done(CounterOf(d.final))
    ensures Mirrors(plan, ids, os, a)
  {
  }

  lemma {:induction false} CleanCredits(w: World, plan: Plan, faults: Faults, ids: seq<Id>, a: Action)
    requires forall i :: 0 <= i < |ids| ==> ids[i] < |plan.decisions| && Doable(w, plan, plan.decisions[ids[i]])
    requires DistinctProfiles(plan.decisions) && Distinct(ids) && Clean(faults) && Executable(a)
    ensures Mirrors(plan, ids, Outcomes(Fresh(w), plan, faults, ids), a)
  {
    if ids != [] {
      CleanCredits(w, plan, faults, ids[..|ids| - 1], a);
      CleanStep(w, plan, faults, ids);
      CleanNeverCrashes(w, plan, faults, ids[..|ids| - 1]);
      var os := Outcomes(Fresh(w), plan, faults, ids);
      assert os[..|os| - 1] == Outcomes(Fresh(w), plan, faults, ids[..|ids| - 1]);
      MirrorsMore(plan, ids, os, a);
    }
  }

  lemma CleanCounter(w: World, plan: Plan, faults: Faults, ids: seq<Id>, a: Action)
    requires forall i :: 0 <= i < |ids| ==> ids[i] < |plan.decisions| && Doable(w, plan, plan.decisions[ids[i]])
    requires DistinctProfiles(plan.decisions) && Distinct(ids) && Clean(faults) && Executable(a)
    ensures var saved := Students(Fresh(w), plan, faults, ids).saved;
            saved.Get(CounterOf(a)) == CountActions(plan.decisions, ids, a) && saved.failed == 0 && saved.skipped == 0
  {
    var os := Outcomes(Fresh(w), plan, faults, ids);
    CleanCredits(w, plan, faults, ids, a);
    CleanSaved(w, plan, faults, ids, CounterOf(a), os);
    CleanSaved(w, plan, faults, ids, Failures, os);
    CleanSaved(w, plan, faults, ids, Skips, os);
    CleanTally(Students(Fresh(w), plan, faults, ids).saved, plan, ids, os, a);
  }

  lemma CleanTally(saved: Tally, plan: Plan, ids: seq<Id>, os: seq<Outcome>, a: Action)
    requires Executable(a) && forall i :: 0 <= i < |ids| ==> ids[i] < |plan.decisions|
    requires Mirrors(plan, ids, os, a) && saved.Get(CounterOf(a)) == Credits(os, CounterOf(a))
    requires saved.Get(Failures) == Credits(os, Failures) && saved.Get(Skips) == Credits(os, Skips)
    ensures saved.Get(CounterOf(a)) == CountActions(plan.decisions, ids, a) && saved.failed == 0 && saved.skipped == 0
  {
  }

  lemma CleanSaved(w: World, plan: Plan, faults: Faults, ids: seq<Id>, c: Counter, os: seq<Outcome>)
    requires forall i :: 0 <= i < |ids| ==> ids[i] < |plan.decisions|
    requires Distinct(ids) && Clean(faults) && os == Outcomes(Fresh(w), plan, faults, ids)
    ensures Students(Fresh(w), plan, faults, ids).saved.Get(c) == Credits(os, c)
  {
    EarlyFailuresOnly(w, plan, faults, ids, c);
  }

  lemma CleanLine(w: World, plan: Plan, faults: Faults, a: Action)
    requires DoablePlan(w, plan) && Clean(faults) && Executable(a)
    ensures Students(Fresh(w), plan, faults, ReadyIds(plan.decisions)).saved.Get(CounterOf(a)) ==
            CountReady(plan.decisions, a)
  {
    CleanCounter(w, plan, faults, ReadyIds(plan.decisions), a);
    PreviewCountsRun(plan.decisions, a);
  }

  function TallyPreview(t: Tally): Impact {
    Impact(t.promoted + t.retained, t.promoted, t.retained, t.graduated, t.transferred, t.withdrawn)
  }

  lemma PreviewOf(t: Tally, ds: seq<Decision>)
    requires forall a :: Executable(a) ==> t.Get(CounterOf(a)) == CountReady(ds, a)
    ensures Preview(ds) == TallyPreview(t)
  {
    assert t.Get(CounterOf(Promote)) == CountReady(ds, Promote) && t.Get(CounterOf(Retain)) == CountReady(ds, Retain);
    assert t.Get(CounterOf(Graduate)) == CountReady(ds, Graduate);
    assert t.Get(CounterOf(TransferOut)) == CountReady(ds, TransferOut);
    assert t.Get(CounterOf(Withdraw)) == CountReady(ds, Withdraw);
    PreviewMoves(ds);
  }

  /** A plan whose ready decisions can be done runs without a failure, and its counters are the preview. */
  lemma PreviewIsTheRun(w: World, plan: Plan, faults: Faults)
    requires DoablePlan(w, plan) && Clean(faults)
    ensures var saved := Students(Fresh(w), plan, faults, ReadyIds(plan.decisions)).saved;
            saved.failed == 0 && saved.skipped == 0 && Preview(plan.decisions) == TallyPreview(saved)
  {
    var saved := Students(Fresh(w), plan, faults, ReadyIds(plan.decisions)).saved;
    CleanCounter(w, plan, faults, ReadyIds(plan.decisions), Promote);
    forall a | Executable(a) ensures saved.Get(CounterOf(a)) == CountReady(plan.decisions, a) {
      CleanLine(w, plan, faults, a);
    }
    PreviewOf(saved, plan.decisions);
  }

  // ---------------------------------------------------------------- where each student ends up

  /** Row i, the student's in the source year on tables w, is closed on tables v, and the student has a live
      active row of the target year in section b, with the arrears carried over; the profile is in b. */
  ghost predicate MovedOn(w: World, v: World, p: Id, i: Id, target: Id, b: Option<Id>)
    requires p < |w.profiles| && i < |w.enrollments|
  {
    var e := ActiveEnrollment(v.enrollments, p, target);
    && i < |v.enrollments| && v.enrollments[i] == w.enrollments[i].(live := false)
    && p < |v.profiles| && v.profiles[p] == w.profiles[p].(batch := b)
    && e.Some?
    && var row := v.enrollments[e.value];
       row == Enrollment(p, target, b, Active, row.backlog, true) && CarriesOver(w, i, row.backlog)
  }

  /** Row i is closed with this status and the target year has no row more; the profile has the status too, no
      section, and a pointer at row i. */
  ghost predicate LeftAs(w: World, v: World, p: Id, i: Id, target: Id, status: Standing)
    requires p < |w.profiles| && i < |w.enrollments|
  {
    && i < |v.enrollments| && v.enrollments[i] == w.enrollments[i].(live := false, status := status)
    && ActiveEnrollment(v.enrollments, p, target) == ActiveEnrollment(w.enrollments, p, target)
    && p < |v.profiles|
    && v.profiles[p] == w.profiles[p].(status := status, batch := Option.None, enrollment := Some(i))
  }

  /** The decision, which tables w allowed, has been carried out on tables v. */
  ghost predicate CarriedOut(w: World, v: World, plan: Plan, d: Decision) {
    var i := ActiveEnrollment(w.enrollments, d.profile, plan.source);
    && d.profile < |w.profiles| && i.Some?
    && ActiveEnrollment(v.enrollments, d.profile, plan.source).None?
    && match d.final
       case Promote => MovedOn(w, v, d.profile, i.value, plan.target, d.targetBatch)
       case Retain => MovedOn(w, v, d.profile, i.value, plan.target, d.targetBatch)
       case Graduate => LeftAs(w, v, d.profile, i.value, plan.target, Graduated)
       case TransferOut => LeftAs(w, v, d.profile, i.value, plan.target, Transferred)
       case Withdraw => LeftAs(w, v, d.profile, i.value, plan.target, Withdrawn)
       case ManualReview => false
       case Pending => false
  }

  lemma CloseClears(es: seq<Enrollment>, i: nat, status: Standing)
    requires UniqueEnrollments(es) && i < |es| && es[i].live
    ensures var es' := es[i := es[i].(live := false, status := status)];
            UniqueEnrollments(es') && ActiveEnrollment(es', es[i].profile, es[i].year).None?
  {
    var es' := es[i := es[i].(live := false, status := status)];
    var r := ActiveEnrollment(es', es[i].profile, es[i].year);
  }

  lemma StepMoves(w: World, plan: Plan, d: Decision)
    requires Doable(w, plan, d) && UniqueEnrollments(w.enrollments) && plan.source != plan.target
    requires d.final == Promote || d.final == Retain
    ensures var w' := StepWorld(w, plan, d).value;
            UniqueEnrollments(w'.enrollments) && CarriedOut(w, w', plan, d)
  {
    var i := ActiveEnrollment(w.enrollments, d.profile, plan.source).value;
    var es := w.enrollments;
    var w' := StepWorld(w, plan, d).value;
    var row := Enrollment(d.profile, plan.target, d.targetBatch, Active, OpenArrears(w, i), true);
    AddKeepsUnique(es, row);
    CloseClears(es + [row], i, (es + [row])[i].status);
    assert w'.enrollments == (es + [row])[i := (es + [row])[i].(live := false, status := (es + [row])[i].status)];
    ActiveEnrollmentIs(w'.enrollments, |es|);
  }

  lemma CloseKeepsYear(es: seq<Enrollment>, i: nat, status: Standing, y: Id)
    requires i < |es| && es[i].year != y
    ensures var fs := es[i := es[i].(live := false, status := status)];
            ActiveEnrollment(fs, es[i].profile, y) == ActiveEnrollment(es, es[i].profile, y)
  {
    var p, fs := es[i].profile, es[i := es[i].(live := false, status := status)];
    var r, r' := ActiveEnrollment(es, p, y), ActiveEnrollment(fs, p, y);
    if r.Some? { assert ActiveIn(fs[r.value], p, y); }
    if r'.Some? { assert ActiveIn(es[r'.value], p, y); }
  }

  lemma StepExits(w: World, plan: Plan, d: Decision, status: Standing)
    requires Doable(w, plan, d) && UniqueEnrollments(w.enrollments) && plan.source != plan.target
    requires d.final in {Graduate, TransferOut, Withdraw}
    requires status == if d.final == Graduate then Graduated else if d.final == Withdraw then Withdrawn else Transferred
    ensures var w' := StepWorld(w, plan, d).value;
            UniqueEnrollments(w'.enrollments) && CarriedOut(w, w', plan, d)
  {
    var i := ActiveEnrollment(w.enrollments, d.profile, plan.source).value;
    CloseClears(w.enrollments, i, status);
    CloseKeepsYear(w.enrollments, i, status, plan.target);
  }

  /** A step that can be done carries its decision out. */
  lemma StepCarriesOut(w: World, plan: Plan, d: Decision)
    requires Doable(w, plan, d) && UniqueEnrollments(w.enrollments) && plan.source != plan.target
    ensures var w' := StepWorld(w, plan, d).value;
            UniqueEnrollments(w'.enrollments) && CarriedOut(w, w', plan, d)
  {
    match d.final
    case Graduate => StepExits(w, plan, d, Graduated);
    case TransferOut => StepExits(w, plan, d, Transferred);
    case Withdraw => StepExits(w, plan, d, Withdrawn);
    case _ => StepMoves(w, plan, d);
  }

  lemma CarriedOutKept(w: World, v: World, v': World, plan: Plan, d: Decision)
    requires CarriedOut(w, v, plan, d) && AsBefore(v, v', d.profile)
    ensures CarriedOut(w, v', plan, d)
  {
  }

  lemma CarriedOutFrom(w: World, u: World, v: World, plan: Plan, d: Decision)
    requires AsBefore(w, u, d.profile) && CarriedOut(u, v, plan, d)
    ensures CarriedOut(w, v, plan, d)
  {
  }

  ghost predicate AllCarriedOut(w: World, v: World, plan: Plan, ids: seq<Id>) {
    forall i :: 0 <= i < |ids| ==> ids[i] < |plan.decisions| && CarriedOut(w, v, plan, plan.decisions[ids[i]])
  }

  ghost predicate AllDoable(w: World, plan: Plan, ids: seq<Id>) {
    forall i :: 0 <= i < |ids| ==> ids[i] < |plan.decisions| && Doable(w, plan, plan.decisions[ids[i]])
  }

  lemma {:induction false} CleanLoopCarriesOut(w: World, plan: Plan, faults: Faults, ids: seq<Id>)
    requires AllDoable(w, plan, ids)
    requires DistinctProfiles(plan.decisions) && Distinct(ids) && Clean(faults)
    requires UniqueEnrollments(w.enrollments) && plan.source != plan.target
    ensures var v := Students(Fresh(w), plan, faults, ids).world;
            UniqueEnrollments(v.enrollments) && AllCarriedOut(w, v, plan, ids)
  {
    if ids != [] {
      var front, n := ids[..|ids| - 1], Last(ids);
      CleanLoopCarriesOut(w, plan, faults, front);
      CleanStep(w, plan, faults, ids);
      CleanLoop(w, plan, faults, front, n);
      OneMoreCarriedOut(w, Students(Fresh(w), plan, faults, front).world, plan, ids);
    }
  }

  lemma DoableKept(w: World, w': World, plan: Plan, d: Decision)
    requires Doable(w, plan, d) && SameFor(w, w', d.profile)
    ensures Doable(w', plan, d)
  {
  }

  lemma OneMoreCarriedOut(w: World, u: World, plan: Plan, ids: seq<Id>)
    requires ids != [] && Last(ids) < |plan.decisions| && Distinct(ids)
    requires DistinctProfiles(plan.decisions) && UniqueEnrollments(u.enrollments) && plan.source != plan.target
    requires Doable(w, plan, plan.decisions[Last(ids)]) && AsBefore(w, u, plan.decisions[Last(ids)].profile)
    requires StepWorld(u, plan, plan.decisions[Last(ids)]).Some?
    requires AllCarriedOut(w, u, plan, ids[..|ids| - 1])
    ensures var v := StepWorld(u, plan, plan.decisions[Last(ids)]).value;
            UniqueEnrollments(v.enrollments) && AllCarriedOut(w, v, plan, ids)
  {
    var front, n := ids[..|ids| - 1], Last(ids);
    var v := StepWorld(u, plan, plan.decisions[n]).value;
    LastCarriedOut(w, u, plan, plan.decisions[n]);
    forall i | 0 <= i < |ids| - 1 ensures ids[i] < |plan.decisions| && CarriedOut(w, v, plan, plan.decisions[ids[i]]) {
      assert front[i] == ids[i];
      OneMoreKeeps(w, u, plan, n, ids[i]);
    }
  }

  lemma LastCarriedOut(w: World, u: World, plan: Plan, d: Decision)
    requires Doable(w, plan, d) && AsBefore(w, u, d.profile) && StepWorld(u, plan, d).Some?
    requires UniqueEnrollments(u.enrollments) && plan.source != plan.target
    ensures var v := StepWorld(u, plan, d).value; UniqueEnrollments(v.enrollments) && CarriedOut(w, v, plan, d)
  {
    DoableKept(w, u, plan, d);
    StepCarriesOut(u, plan, d);
    CarriedOutFrom(w, u, StepWorld(u, plan, d).value, plan, d);
  }

  lemma OneMoreKeeps(w: World, u: World, plan: Plan, n: Id, k: Id)
    requires n < |plan.decisions| && k < |plan.decisions| && n != k && DistinctProfiles(plan.decisions)
    requires StepWorld(u, plan, plan.decisions[n]).Some?
    requires CarriedOut(w, u, plan, plan.decisions[k])
    ensures CarriedOut(w, StepWorld(u, plan, plan.decisions[n]).value, plan, plan.decisions[k])
  {
    var d, q := plan.decisions[n], plan.decisions[k].profile;
    StepLeavesOthers(u, plan, d, q);
    StepLeavesRows(u, plan, d, q);
    CarriedOutKept(w, u, StepWorld(u, plan, d).value, plan, plan.decisions[k]);
  }

  /** A validated plan executed on the tables it was validated on carries out every ready decision. */
  lemma ValidatedPlanIsCarriedOut(w: World, plan: Plan, faults: Faults)
    requires DoablePlan(w, plan) && Clean(faults)
    requires UniqueEnrollments(w.enrollments) && plan.source != plan.target
    ensures var v := Students(Fresh(w), plan, faults, ReadyIds(plan.decisions)).world;
            forall k :: 0 <= k < |plan.decisions| && plan.decisions[k].readiness == Some(Ready) ==>
              CarriedOut(w, v, plan, plan.decisions[k])
  {
    var ids := ReadyIds(plan.decisions);
    CleanLoopCarriesOut(w, plan, faults, ids);
    var v := Students(Fresh(w), plan, faults, ids).world;
    forall k | 0 <= k < |plan.decisions| && plan.decisions[k].readiness == Some(Ready)
      ensures CarriedOut(w, v, plan, plan.decisions[k])
    {
      var i :| 0 <= i < |ids| && ids[i] == k;
    }
  }
}
