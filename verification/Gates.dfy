/** When each operation on a promotion session is accepted, and what it then writes, told on the columns of
    the session and the rows of the tables. */
module Gates {
  import opened Records
  import opened Recommendations
  import opened Execution
  import opened Accounting
  import opened Validation
  import opened Staleness
  import opened Preparation
  import opened Sessions
  import opened Lifecycle
  import opened LockProtocol
  import opened Workspace

  // ---------------------------------------------------------------- starting a promotion

  /** Two rows of the year are current students' and of the same student. */
  ghost predicate AttendsTwice(w: World, y: Id) {
    exists e: Id, f: Id :: e < f && Attends(w, y, e) && Attends(w, y, f)
                   && w.enrollments[e].profile == w.enrollments[f].profile
  }

  /** The decision that a session starts with for the student of row e. */
  ghost predicate StartsFrom(w: World, e: Id, unpublished: set<Id>, d: Decision)
    requires e < |w.enrollments|
  {
    var row := w.enrollments[e];
    && d.profile == row.profile
    && d.recommended == d.final == Recommend(w, e, unpublished).action && !d.overridden
    && (if row.batch.Some? && row.batch.value < |w.batches|
        then d.batch == row.batch && d.course == Some(w.batches[row.batch.value].course)
             && d.section == w.batches[row.batch.value].name
        else d.batch.None? && d.course.None? && d.section == BLANK)
    && d.targetCourse.None? && d.targetBatch.None? && d.targetSection == BLANK && d.fee.None?
    && d.readiness.None? && d.reasons == []
  }

  /** The decisions are those of the year's current students, one each, in row order. */
  ghost predicate DecidesAll(w: World, y: Id, unpublished: set<Id>, ds: seq<Decision>, es: seq<Id>) {
    && |ds| == |es|
    && (forall i :: 0 <= i < |es| ==> Attends(w, y, es[i]) && StartsFrom(w, es[i], unpublished, ds[i]))
    && (forall e: Id :: Attends(w, y, e) ==> e in es)
    && (forall i, j :: 0 <= i < j < |es| ==> es[i] < es[j])
  }

  lemma RosterIs(w: World, y: Id)
    ensures forall e: Id :: e in Roster(w, y) <==> Attends(w, y, e)
  {
    forall e: Id ensures e in Roster(w, y) <==> Attends(w, y, e) {
      if Attends(w, y, e) { assert OnRoster(w, y, e); }
    }
  }

  lemma RosterDecides(w: World, y: Id, unpublished: set<Id>)
    ensures DecidesAll(w, y, unpublished, NewDecisions(w, Roster(w, y), unpublished), Roster(w, y))
  {
    var es := Roster(w, y);
    RosterIs(w, y);
    forall i | 0 <= i < |es|
      ensures Attends(w, y, es[i]) && StartsFrom(w, es[i], unpublished, NewDecisions(w, es, unpublished)[i])
    {
      assert es[i] in es;
    }
  }

  lemma RepeatsExactly(w: World, y: Id, unpublished: set<Id>)
    ensures RepeatsStudent(NewDecisions(w, Roster(w, y), unpublished)) <==> AttendsTwice(w, y)
  {
    var es := Roster(w, y);
    var ds := NewDecisions(w, es, unpublished);
    RosterIs(w, y);
    forall i: nat | i < |es| ensures Attends(w, y, es[i]) && ds[i].profile == w.enrollments[es[i]].profile {
      assert es[i] in es;
    }
    if AttendsTwice(w, y) {
      var e: Id, f: Id :| e < f && Attends(w, y, e) && Attends(w, y, f)
                          && w.enrollments[e].profile == w.enrollments[f].profile;
      assert e in es && f in es;
      var i :| 0 <= i < |es| && es[i] == e;
      var j :| 0 <= j < |es| && es[j] == f;
      assert ds[i].profile == ds[j].profile;
    }
  }

  /** A promotion can be started exactly from a live year without a session to another live year, when no
      student attends twice; the new session is a draft with one decision for every current student. */
  lemma StartGate(b: Branch, source: Id, target: Id, unpublished: set<Id>)
    ensures var r, w := StartPromotion(b, source, target, unpublished), b.world;
            && (r.Ok? <==>
                  && source < |w.years| && w.years[source].live && target < |w.years| && w.years[target].live
                  && source != target && (forall i :: 0 <= i < |b.sessions| ==> b.sessions[i].source != source)
                  && !AttendsTwice(w, source))
            && (forall i :: 0 <= i < |b.sessions| && source < |w.years| && w.years[source].live
                            && b.sessions[i].source == source ==>
                  r == Err(if exists j :: 0 <= j < |b.sessions| && b.sessions[j].source == source
                                          && b.sessions[j].status == Draft then Rejected else Denied))
            && (r.Ok? ==>
                  && r.value.world == w && |r.value.sessions| == |b.sessions| + 1
                  && r.value.sessions[..|b.sessions|] == b.sessions
                  && var s := r.value.sessions[|b.sessions|];
                     && s == Session(source, target, Draft, Untouched, NotStarted,
                                     Report(Option.None, Option.None, Option.None), Option.None, Option.None,
                                     s.decisions, [], [], [])
                     && exists es :: DecidesAll(w, source, unpublished, s.decisions, es))
  {
    RosterDecides(b.world, source, unpublished);
    RepeatsExactly(b.world, source, unpublished);
  }

  // ---------------------------------------------------------------- review

  lemma OverrideGate(s: Session, id: Id, a: Action, reason: nat)
    ensures var r := OverrideDecision(s, id, a, reason);
            && (r.Ok? <==> s.status == Draft && reason >= 10 && id < |s.decisions|)
            && (r.Ok? ==>
                  r.value == s.(overrides := s.overrides + [Override(id, s.decisions[id].final, a)],
                                decisions := s.decisions[id := s.decisions[id].(final := a, overridden := true)]))
  {
  }

  /** Whether a bulk override is meant for this decision. */
  ghost predicate Meant(sel: Selection, i: Id, d: Decision) {
    && (sel.ByIds? ==> i in sel.ids)
    && (sel.ByFilter? ==>
          && (sel.action == Option.None || sel.action == Some(d.final))
          && (sel.course == Option.None || sel.course == d.course)
          && (sel.batch == Option.None || sel.batch == d.batch))
  }

  lemma MeantAreSelected(sel: Selection, ds: seq<Decision>)
    ensures forall i: Id :: i < |ds| ==> (Meant(sel, i, ds[i]) <==> i in Selected(sel, ds))
    ensures Selected(sel, ds) != [] <==> exists i: Id :: i < |ds| && Meant(sel, i, ds[i])
  {
    forall i: Id | i < |ds| ensures Meant(sel, i, ds[i]) <==> i in Selected(sel, ds) {
      assert Meant(sel, i, ds[i]) <==> Selects(sel, i, ds[i]);
    }
    if Selected(sel, ds) != [] { assert Selected(sel, ds)[0] in Selected(sel, ds); }
  }

  /** A bulk override needs a draft, a reason, a selection that selects by something and somebody it is meant
      for. */
  lemma BulkGate(s: Session, sel: Selection, a: Action, reason: nat)
    ensures BulkOverride(s, sel, a, reason).Ok? <==>
            && s.status == Draft && reason >= 10
            && (sel.ByIds? ==> sel.ids != {})
            && (sel.ByFilter? ==> sel.action.Some? || sel.course.Some? || sel.batch.Some?)
            && exists i: Id :: i < |s.decisions| && Meant(sel, i, s.decisions[i])
  {
    MeantAreSelected(sel, s.decisions);
  }

  /** It sets exactly the decisions it is meant for. */
  lemma BulkSets(s: Session, sel: Selection, a: Action, reason: nat)
    requires BulkOverride(s, sel, a, reason).Ok?
    ensures var t := BulkOverride(s, sel, a, reason).value;
            && t == s.(decisions := t.decisions, overrides := t.overrides) && |t.decisions| == |s.decisions|
            && forall i: Id :: i < |s.decisions| ==>
                 t.decisions[i] == if Meant(sel, i, s.decisions[i]) then s.decisions[i].(final := a, overridden := true)
                                   else s.decisions[i]
  {
    var ids := Selected(sel, s.decisions);
    ManyOverridesRow(s, ids, a);
    forall i: Id | i < |s.decisions|
      ensures OverrideMany(s, ids, a).decisions[i] ==
              if Meant(sel, i, s.decisions[i]) then s.decisions[i].(final := a, overridden := true)
              else s.decisions[i]
    {
      BulkDecisions(s, ids, a, i);
      assert Meant(sel, i, s.decisions[i]) <==> Selects(sel, i, s.decisions[i]);
    }
  }

  /** Approval needs a draft in which every student has one of the five actions that can be executed. */
  lemma ApproveGate(s: Session)
    ensures var r := Approve(s);
            && (r.Ok? <==>
                  && s.status == Draft
                  && forall i :: 0 <= i < |s.decisions| ==>
                       s.decisions[i].final in {Promote, Retain, Graduate, TransferOut, Withdraw})
            && (r.Ok? ==> r.value == s.(status := Approved))
  {
    NoneLeft(s.decisions, Pending);
    NoneLeft(s.decisions, ManualReview);
  }

  /** Reopening needs an approved session never executed, and takes back everything preparation wrote. */
  lemma ReopenGate(s: Session, reason: nat)
    ensures var r := Reopen(s, reason);
            && (r.Ok? <==> s.status == Approved && s.execution == NotStarted && reason >= 10)
            && (r.Ok? ==>
                  && r.value == s.(status := Draft, preparation := Untouched, preview := Option.None,
                                   report := Report(Option.None, Option.None, Option.None),
                                   fingerprint := Option.None, decisions := r.value.decisions)
                  && |r.value.decisions| == |s.decisions|
                  && forall i :: 0 <= i < |s.decisions| ==>
                       r.value.decisions[i] == s.decisions[i].(
                         readiness := Option.None, reasons := [], targetCourse := Option.None,
                         targetBatch := Option.None, targetSection := BLANK, fee := Option.None))
  {
  }

  // ---------------------------------------------------------------- preparation

  /** Whether an operation is one that edits the plan of an approved session. */
  predicate EditsPlan(op: Op) {
    op.DoStartPreparation? || op.DoUpdateMappings? || op.DoAssign? || op.DoValidate? || op.DoLock?
  }

  lemma LockedRefuses(s: Session, w: World, op: Op)
    requires s.preparation == Locked && EditsPlan(op)
    ensures Apply(s, w, op).Err?
  {
  }

  /** The plan is the same. */
  ghost predicate SamePlan(s: Session, t: Session) {
    t.decisions == s.decisions && t.mappings == s.mappings
  }

  lemma LockedReview(s: Session, w: World, op: Op)
    requires s.status == Approved && (op.DoOverride? || op.DoBulkOverride? || op.DoApprove?)
    ensures Apply(s, w, op).Err?
  {
  }

  lemma LockedKeeps(s: Session, w: World, op: Op)
    requires s.preparation == Locked && Apply(s, w, op).Ok?
    requires op.DoListMappings? || op.DoReadState? || op.DoUnlock? || op.DoStart?
    ensures SamePlan(s, Apply(s, w, op).value.session)
  {
  }

  lemma LockedPerforms(s: Session, w: World, run: Id, faults: Faults)
    requires PerformRun(s, w, run, faults).Ok?
    ensures SamePlan(s, PerformRun(s, w, run, faults).value.session)
  {
    PerformedStatus(s, w, run, faults);
  }

  /** While a session is locked its plan cannot be edited: what edits is refused, and what is accepted, a
      reopening aside, leaves decisions and mappings alone. */
  lemma LockedPlanFixed(s: Session, w: World, op: Op)
    requires Invariant(s) && s.preparation == Locked
    ensures EditsPlan(op) ==> Apply(s, w, op).Err?
    ensures Apply(s, w, op).Ok? && !op.DoReopen? ==> SamePlan(s, Apply(s, w, op).value.session)
  {
    if EditsPlan(op) { LockedRefuses(s, w, op); }
    if op.DoOverride? || op.DoBulkOverride? || op.DoApprove? { LockedReview(s, w, op); }
    if Apply(s, w, op).Ok? {
      if op.DoPerformRun? { LockedPerforms(s, w, op.run, op.faults); }
      if op.DoListMappings? || op.DoReadState? || op.DoUnlock? || op.DoStart? { LockedKeeps(s, w, op); }
    }
  }

  lemma UnlockGate(s: Session, reason: nat)
    ensures var r := Unlock(s, reason);
            && (r.Ok? <==> s.status == Approved && s.execution == NotStarted && reason >= 10
                           && (s.preparation == Locked || s.preparation == Invalid))
            && (r.Ok? ==> r.value == s.(preparation := InProgress, fingerprint := Option.None))
  {
  }

  /** Starting preparation needs an approved session that is not locked, and fails otherwise only on a section
      that some decision asks for and a hidden one stands in for.  What it writes is preparation's. */
  lemma PreparationGate(s: Session, w: World)
    ensures var r, ms := StartPreparation(s, w), Seeded(w.courses, s.mappings, s.decisions);
            && (r.Ok? <==>
                  && s.status == Approved && s.preparation != Locked
                  && !(exists d, course: Id, name: Name ::
                         d in s.decisions && AsksFor(ms, d, course, name)
                         && Unmeetable(w, s.target, Need(course, name))))
            && (r.Ok? ==>
                  && Prepare(w, s.target, s.mappings, s.decisions).Ok?
                  && var p := Prepare(w, s.target, s.mappings, s.decisions).value;
                     && r.value.world == p.world
                     && r.value.session == s.(
                          preparation := if s.preparation == Untouched then InProgress else s.preparation,
                          mappings := p.mappings, decisions := p.decisions))
  {
    PlaceFailsExactly(w, s.target, Seeded(w.courses, s.mappings, s.decisions), s.decisions);
  }

  /** Mappings are stored in an approved session that is not locked exactly when every class they lead to exists
      and the placement with them goes through; what is written is that placement. */
  lemma StoreGate(s: Session, w: World, rows: seq<Mapping>)
    ensures var r, p := StoreMappings(s, w, rows), Place(w, s.target, UpsertAll(s.mappings, rows), s.decisions);
            && (r.Ok? <==>
                  && s.status == Approved && s.preparation != Locked
                  && (forall m :: m in rows ==> m.target < |w.courses|) && p.Ok?)
            && (r.Ok? ==> r.value == Both(s.(mappings := p.value.mappings, decisions := p.value.decisions),
                                          p.value.world))
            && (p.Ok? ==> p.value.mappings == UpsertAll(s.mappings, rows))
  {
  }

  /** Listing the class mappings of an approved session changes nothing when it is locked or every student to
      move has a section, and otherwise places once more with the mappings it has. */
  lemma ListingGate(s: Session, w: World)
    ensures var r := ListClassMappings(s, w);
            var placed := forall d :: d in s.decisions && (d.final == Promote || d.final == Retain) ==>
                            d.targetBatch.Some?;
            && (s.status != Approved ==> r == Err(NotFound))
            && (s.status == Approved && (s.preparation == Locked || placed) ==> r == Ok(Both(s, w)))
            && (s.status == Approved && s.preparation != Locked && !placed ==>
                  match Place(w, s.target, s.mappings, s.decisions)
                  case Err(e) => r == Err(e)
                  case Ok(p) => r == Ok(Both(s.(mappings := p.mappings, decisions := p.decisions), p.world)))
  {
    if d :| d in s.decisions && (d.final == Promote || d.final == Retain) && d.targetBatch.None? {
      assert Unplaced(s.decisions);
    }
  }

  ghost predicate GoodSection(w: World, year: Id, a: Assignment, n: nat) {
    a.decision < n && a.batch.Some? ==> OpenSection(w, a.batch.value, year)
  }

  lemma {:induction false} AssignFailsExactly(w: World, year: Id, ds: seq<Decision>, asg: seq<Assignment>)
    ensures Assign(w, year, ds, asg).Ok? <==> forall k :: 0 <= k < |asg| ==> GoodSection(w, year, asg[k], |ds|)
  {
    if asg != [] {
      var front := asg[..|asg| - 1];
      AssignFailsExactly(w, year, ds, front);
      assert forall k :: 0 <= k < |front| ==> front[k] == asg[k];
      assert GoodSection(w, year, asg[|asg| - 1], |ds|) || Assign(w, year, ds, asg).Err?;
    }
  }

  /** Sections can be assigned in an approved session that is not locked, exactly when each one named for one of
      its decisions is open in the target year. */
  lemma AssignGate(s: Session, w: World, asg: seq<Assignment>)
    ensures var r := UpdateSectionMappings(s, w, asg);
            && (r.Ok? <==>
                  && s.status == Approved && s.preparation != Locked
                  && forall k :: 0 <= k < |asg| ==> GoodSection(w, s.target, asg[k], |s.decisions|))
            && (r.Ok? ==> r.value == s.(decisions := r.value.decisions) && |r.value.decisions| == |s.decisions|)
  {
    AssignFailsExactly(w, s.target, s.decisions, asg);
  }

  // ---------------------------------------------------------------- validation and lock

  lemma {:induction false} CountsAddUp(ds: seq<Decision>)
    requires forall i :: 0 <= i < |ds| ==> ds[i].readiness.Some?
    ensures CountReadiness(ds, Ready) + CountReadiness(ds, Blocked) == |ds|
  {
    if ds != [] {
      CountsAddUp(ds[..|ds| - 1]);
      var r := ds[|ds| - 1].readiness.value;
      assert r == Ready || r == Blocked;
    }
  }

  /** Validation needs an approved session that is not locked.  It gives every decision its verdict and saves
      when it ran, how many are ready, that the others are blocked, and the preview. */
  lemma ValidateGate(s: Session, w: World, now: nat)
    ensures var r := Validate(s, w, now);
            && (r.Ok? <==> s.status == Approved && s.preparation != Locked)
            && (r.Ok? ==>
                  var t := r.value;
                  && |t.decisions| == |s.decisions|
                  && (forall i :: 0 <= i < |s.decisions| ==> Judged(w, PlanOf(s), s.decisions[i], t.decisions[i]))
                  && |ReadyIds(t.decisions)| <= |s.decisions|
                  && t == s.(decisions := t.decisions, preview := Some(Preview(t.decisions)),
                             preparation := if s.preparation == Untouched then InProgress else s.preparation,
                             report := Report(Some(now), Some(Counts(|ReadyIds(t.decisions)|,
                                                                     |s.decisions| - |ReadyIds(t.decisions)|)),
                                              Option.None)))
  {
    if s.status == Approved && s.preparation != Locked { AllJudged(w, PlanOf(s)); }
  }

  /** Every decision gets its verdict, and those not ready are blocked. */
  lemma AllJudged(w: World, plan: Plan)
    ensures var ds := ValidateAll(w, plan, plan.decisions);
            && (forall i :: 0 <= i < |ds| ==> Judged(w, plan, plan.decisions[i], ds[i]))
            && |ReadyIds(ds)| <= |ds| && CountsOf(ds) == Counts(|ReadyIds(ds)|, |ds| - |ReadyIds(ds)|)
  {
    var ds := ValidateAll(w, plan, plan.decisions);
    forall i | 0 <= i < |ds| ensures Judged(w, plan, plan.decisions[i], ds[i]) {
      VerdictExact(w, plan, plan.decisions[i]);
    }
    NoneBlocked(ds);
    CountsAddUp(ds);
  }

  /** Nothing stands in the way of the decision. */
  ghost predicate Unhindered(w: World, plan: Plan, d: Decision) {
    forall r: BlockReason :: !Obstacle(w, plan, d, r)
  }

  lemma AllReadyExactly(w: World, plan: Plan)
    ensures CountReadiness(ValidateAll(w, plan, plan.decisions), Blocked) == 0 <==>
            forall i :: 0 <= i < |plan.decisions| ==> Unhindered(w, plan, plan.decisions[i])
  {
    var ds := ValidateAll(w, plan, plan.decisions);
    NoneBlocked(ds);
    forall i | 0 <= i < |ds| ensures ds[i].readiness != Some(Blocked) <==> Unhindered(w, plan, plan.decisions[i]) {
      VerdictExact(w, plan, plan.decisions[i]);
    }
  }

  /** Both years are live, the source current, and the last rollover run is not their switch. */
  ghost predicate YearsReady(w: World, source: Id, target: Id) {
    && source < |w.years| && w.years[source].live && w.years[source].current
    && target < |w.years| && w.years[target].live
    && !(w.rollovers != [] && w.rollovers[|w.rollovers| - 1].status == RollSucceeded
         && w.rollovers[|w.rollovers| - 1].from == source && w.rollovers[|w.rollovers| - 1].to == Some(target))
  }

  /** A session can be locked exactly when it is approved and not yet locked, both its years are live and the
      source current, the last rollover run is not its own switch, it has decisions and nothing stands in the
      way of any of them. */
  lemma LockGate(s: Session, w: World, now: nat)
    requires Invariant(s)
    ensures Lock(s, w, now).Ok? <==>
            && s.status == Approved && s.preparation != Locked
            && YearsReady(w, s.source, s.target)
            && s.decisions != []
            && forall i :: 0 <= i < |s.decisions| ==> Unhindered(w, PlanOf(s), s.decisions[i])
  {
    if s.status == Approved && s.preparation != Locked {
      AllReadyExactly(w, PlanOf(s));
      var v := Validate(s, w, now).value;
      NoneBlocked(v.decisions);
      CountsAddUp(v.decisions);
      if CanLock(v, w) {
        LockedRowKeeps(s, w, now);
        LockedNeverRaises(LockedRow(s, v, Build(w, PlanOf(v), v.mappings)), w);
      }
    }
  }

  // ---------------------------------------------------------------- start

  /** A decision to be executed has its section open, its fee in force and no target row, if it moves. */
  ghost predicate FitToRun(w: World, plan: Plan, d: Decision) {
    d.readiness == Some(Ready) && (d.final == Promote || d.final == Retain) ==>
      && d.targetBatch.Some? && OpenSection(w, d.targetBatch.value, plan.target)
      && d.fee.Some? && d.fee.value < |w.fees| && w.fees[d.fee.value].live && w.fees[d.fee.value].published
      && !EnrolledIn(w, d.profile, plan.target)
  }

  lemma FitExactly(w: World, plan: Plan)
    ensures AllDestinationsStand(w, plan) <==> forall d :: d in plan.decisions ==> FitToRun(w, plan, d)
  {
    forall d | d in plan.decisions && d.readiness == Some(Ready)
      ensures DestinationStands(w, plan, d) <==> FitToRun(w, plan, d)
    {
      LookUps(w, d.profile, plan.target);
    }
  }

  /** The saved snapshot, or where it is silent the decisions, count nobody blocked; somebody is ready. */
  ghost predicate ReadyToGo(s: Session) {
    && (if s.report.students.Some? then s.report.students.value.blocked == 0
        else forall i :: 0 <= i < |s.decisions| ==> s.decisions[i].readiness != Some(Blocked))
    && exists i :: 0 <= i < |s.decisions| && s.decisions[i].readiness == Some(Ready)
  }

  lemma ReadyExactly(s: Session)
    ensures ReadyToGo(s) <==> BlockedCount(s) == 0 && ReadyIds(s.decisions) != []
  {
    NoneBlocked(s.decisions);
    var ids := ReadyIds(s.decisions);
    if ids != [] { assert s.decisions[ids[0]].readiness == Some(Ready); }
  }

  /** Nothing the fingerprint watches has changed. */
  ghost predicate Undrifted(s: Session, w: World) {
    s.fingerprint.Some? && Unchanged(w, s.fingerprint.value, Build(w, PlanOf(s), s.mappings))
  }

  lemma ChecksGate(s: Session, w: World)
    requires Invariant(s) && s.execution != Running
    ensures PreExecutionChecks(s, w).None? <==>
            && s.status == Approved && s.preparation == Locked && Undrifted(s, w)
            && YearsReady(w, s.source, s.target) && s.execution != Succeeded && ReadyToGo(s)
            && forall d :: d in s.decisions ==> FitToRun(w, PlanOf(s), d)
  {
    if s.status == Approved && s.preparation == Locked {
      ReadExactly(s, w);
      ReadyExactly(s);
      FitExactly(w, PlanOf(s));
      if Undrifted(s, w) {
        ChecksUndrifted(s, w);
        YearsExactly(w, s.source, s.target);
      } else {
        ChecksDrifted(s, w);
      }
    }
  }

  lemma ReadExactly(s: Session, w: World)
    requires Invariant(s) && s.status == Approved && s.preparation == Locked
    ensures ReadState(s, w) == Ok(if Undrifted(s, w) then s else s.(preparation := Invalid))
  {
    LockedNeverRaises(s, w);
    SilentMeansUnchanged(w, s.fingerprint, Build(w, PlanOf(s), s.mappings));
  }

  lemma YearsExactly(w: World, source: Id, target: Id)
    ensures CanProceed(w, source, target) <==> YearsReady(w, source, target)
  {
  }

  /** A session that is not running is started exactly when it is approved and locked, no other session of the
      branch runs, the phrase is typed, the token is the one saved, nothing watched has drifted, the years are
      ready, it has not succeeded, nobody is blocked and somebody ready, and every ready move is fit to run. */
  lemma StartAccepted(s: Session, w: World, me: Id, running: Option<Id>, phrase: bool, token: Option<Token>)
    requires Invariant(s) && s.execution != Running && running != Some(me)
    ensures StartExecution(s, w, me, running, phrase, token).Ok? <==>
            && s.status == Approved && s.preparation == Locked && running.None? && phrase
            && token.Some? && token == s.report.token
            && Undrifted(s, w) && YearsReady(w, s.source, s.target) && s.execution != Succeeded && ReadyToGo(s)
            && forall d :: d in s.decisions ==> FitToRun(w, PlanOf(s), d)
  {
    ChecksGate(s, w);
  }

  /** What a running session does to a start: its own returns as it is, another's is refused by name. */
  lemma StartWhileRunning(s: Session, w: World, me: Id, other: Id, phrase: bool, token: Option<Token>)
    requires s.status == Approved
    ensures other != me ==> StartExecution(s, w, me, Some(other), phrase, token) == Err(OtherRunning(other))
    ensures s.runs != [] ==> StartExecution(s, w, me, Some(me), phrase, token) == Ok(s)
  {
  }

  // ---------------------------------------------------------------- lock, start, run

  /** The session and the tables after a clean run of the last run row. */
  ghost predicate Completed(t: Session, w: World, r: Result<Effect>) {
    && r.Ok? && t.runs != []
    && var u, v, n := r.value.session, r.value.world, |t.runs| - 1;
       && u == t.(execution := Succeeded, runs := u.runs) && |u.runs| == |t.runs| && u.runs[..n] == t.runs[..n]
       && u.runs[n].status == Succeeded && u.runs[n].saved.failed == 0
       && t.preview == Some(TallyPreview(u.runs[n].saved)) && |u.runs[n].logs| == |t.decisions|
       && AllCarried(w, v, PlanOf(t))
       && (if t.preview.value.newEnrollments + t.preview.value.graduated > 0 then YearSwitched(w, v, PlanOf(t))
           else v.years == w.years && v.rollovers == w.rollovers)
  }

  /** From the lock to the end.  A session locked on tables w and started on tables v, on which nothing has
      drifted and the destinations are still open, is executed, and with no failure from outside its saved run
      counts the preview, every student of the plan has been carried out from v and the year is switched
      exactly when somebody moved on or graduated. */
  lemma LockStartRun(s: Session, w: World, v: World, now: nat, me: Id, faults: Faults)
    requires Invariant(s) && SectionsExist(s, w) && Lock(s, w, now).Ok? && DistinctProfiles(s.decisions)
    requires s.execution == NotStarted && (s.report.students.Some? ==> s.report.students.value.blocked == 0)
    requires var t := Lock(s, w, now).value; NoDriftSince(w, v, PlanOf(t)) && StillOpen(v, PlanOf(t))
    requires Clean(faults) && !faults.flip && s.source != s.target && UniqueEnrollments(v.enrollments)
    requires var t := Lock(s, w, now).value;
             forall i :: 0 <= i < |t.decisions| ==> EnrolledIn(v, t.decisions[i].profile, s.source)
    ensures var t := Lock(s, w, now).value;
            var started := StartExecution(t, v, me, Option.None, true, t.report.token);
            started.Ok? && Completed(started.value, v, PerformRun(started.value, v, |t.runs|, faults))
  {
    var t := Lock(s, w, now).value;
    LockThenStartLater(s, w, v, now, me);
    LockWrites(s, w, now);
    StartWrites(t, v, me, Option.None, true, t.report.token);
    LockedOpens(s, w, v, now);
    RunCompletes(t.(execution := Running, runs := t.runs + [RunRow(ZERO, [], Running)]), v, faults);
  }

  lemma LockedOpens(s: Session, w: World, v: World, now: nat)
    requires Invariant(s) && SectionsExist(s, w) && Lock(s, w, now).Ok? && DistinctProfiles(s.decisions)
    requires var t := Lock(s, w, now).value; NoDriftSince(w, v, PlanOf(t)) && StillOpen(v, PlanOf(t))
    requires var t := Lock(s, w, now).value;
             forall i :: 0 <= i < |t.decisions| ==> EnrolledIn(v, t.decisions[i].profile, s.source)
    ensures var t := Lock(s, w, now).value;
            Opened(t.(execution := Running, runs := t.runs + [RunRow(ZERO, [], Running)]), v)
  {
    var t := Lock(s, w, now).value;
    LockedPlanReady(s, w, now);
    LockedPlanIsDoable(s, w, now);
    LockedAllReady(s, w, now);
    forall i | 0 <= i < |t.decisions| ensures Doable(v, PlanOf(t), t.decisions[i]) {
      DoableStill(w, v, PlanOf(t), t.decisions[i]);
    }
  }

  /** An accepted start changes nothing when this session already runs, and otherwise opens one run. */
  lemma StartWrites(s: Session, w: World, me: Id, running: Option<Id>, phrase: bool, token: Option<Token>)
    requires StartExecution(s, w, me, running, phrase, token).Ok?
    ensures StartExecution(s, w, me, running, phrase, token).value ==
            if running == Some(me) && s.runs != [] then s
            else s.(execution := Running, runs := s.runs + [RunRow(ZERO, [], Running)])
  {
  }

  /** A run just opened, of a plan that is ready throughout and can be done. */
  ghost predicate Opened(u: Session, w: World) {
    && u.runs != [] && u.runs[|u.runs| - 1] == RunRow(ZERO, [], Running) && DoablePlan(w, PlanOf(u))
    && u.preview == Some(Preview(u.decisions)) && u.source < |w.years| && u.target < |w.years|
    && forall i :: 0 <= i < |u.decisions| ==> u.decisions[i].readiness == Some(Ready)
  }

  lemma RunCompletes(u: Session, w: World, faults: Faults)
    requires Opened(u, w) && Clean(faults) && !faults.flip && u.source != u.target && UniqueEnrollments(w.enrollments)
    ensures Completed(u, w, PerformRun(u, w, |u.runs| - 1, faults))
  {
    DoablePlanRunsClean(w, PlanOf(u), faults);
    RunIsLogged(w, PlanOf(u), faults);
  }

  lemma DoableStill(w: World, v: World, plan: Plan, d: Decision)
    requires Sound(w, plan, d) && SameRow(w, v, d) && SeatOpen(v, plan, d) && EnrolledIn(v, d.profile, plan.source)
    ensures Doable(v, plan, d)
  {
    LookUps(v, d.profile, plan.source);
    LookUps(v, d.profile, plan.target);
  }

  /** A clean run of a plan that is ready throughout logs every decision. */
  lemma RunIsLogged(w: World, plan: Plan, faults: Faults)
    requires Clean(faults) && forall i :: 0 <= i < |plan.decisions| ==> plan.decisions[i].readiness == Some(Ready)
    ensures RunTask(Fresh(w), plan, faults).Ok? ==>
              |RunTask(Fresh(w), plan, faults).value.progress.logs| == |plan.decisions|
  {
    var ids := ReadyIds(plan.decisions);
    CleanNeverCrashes(w, plan, faults, ids);
    RunLogs(w, plan, faults);
    TaskShape(Fresh(w), plan, faults);
    AllAreReady(plan.decisions);
  }

  lemma AllAreReady(ds: seq<Decision>)
    requires forall i :: 0 <= i < |ds| ==> ds[i].readiness == Some(Ready)
    ensures |ReadyIds(ds)| == |ds|
  {
    NoneBlocked(ds);
    CountsAddUp(ds);
  }
}
