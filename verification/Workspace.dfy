/** All promotion sessions of one branch, over any history of operations and of edits elsewhere. */
module Workspace {
  import opened Records
  import opened Recommendations
  import opened Execution
  import opened Accounting
  import opened Validation
  import opened Staleness
  import opened Preparation
  import opened Sessions
  import opened Lifecycle
  import opened LockProtocol

  datatype Branch = Branch(world: World, sessions: seq<Session>)

  // ---------------------------------------------------------------- starting a session

  function NewDecision(w: World, e: Id, unpublished: set<Id>): Decision
    requires e < |w.enrollments|
  {
    var row, action := w.enrollments[e], Recommend(w, e, unpublished).action;
    var b := if row.batch.Some? && row.batch.value < |w.batches| then row.batch else Option.None;
    Decision(
      row.profile, if b.Some? then Some(w.batches[b.value].course) else Option.None, b,
      if b.Some? then w.batches[b.value].name else BLANK,
      action, action, false, Option.None, Option.None, BLANK, Option.None, Option.None, [])
  }

  function NewDecisions(w: World, es: seq<Id>, unpublished: set<Id>): (ds: seq<Decision>)
    requires forall i :: 0 <= i < |es| ==> es[i] < |w.enrollments|
    ensures |ds| == |es|
    ensures forall i :: 0 <= i < |es| ==> ds[i] == NewDecision(w, es[i], unpublished)
  {
    seq(|es|, i requires 0 <= i < |es| => NewDecision(w, es[i], unpublished))
  }

  function NewSession(w: World, source: Id, target: Id, unpublished: set<Id>): Session {
    Session(source, target, Draft, Untouched, NotStarted, NO_REPORT, Option.None, Option.None,
            NewDecisions(w, Roster(w, source), unpublished), [], [], [])
  }

  predicate HasSession(ss: seq<Session>, source: Id) {
    exists i :: 0 <= i < |ss| && ss[i].source == source
  }

  predicate HasDraft(ss: seq<Session>, source: Id) {
    exists i :: 0 <= i < |ss| && ss[i].source == source && ss[i].status == Draft
  }

  /** One decision per student is a database constraint; a double enrollment makes the insert fail. */
  predicate RepeatsStudent(ds: seq<Decision>) {
    exists i, j :: 0 <= i < j < |ds| && ds[i].profile == ds[j].profile
  }

  function StartPromotion(b: Branch, source: Id, target: Id, unpublished: set<Id>): Result<Branch> {
    var w := b.world;
    if source >= |w.years| || !w.years[source].live then Err(Rejected)
    else if HasSession(b.sessions, source) then Err(if HasDraft(b.sessions, source) then Rejected else Denied)
    else if target >= |w.years| || !w.years[target].live || target == source then Err(Rejected)
    else
      var s := NewSession(w, source, target, unpublished);
      if RepeatsStudent(s.decisions) then Err(Integrity)
      else Ok(b.(sessions := b.sessions + [s]))
  }

  // ---------------------------------------------------------------- histories

  /** The session of the branch that is executing. */
  function RunningSession(ss: seq<Session>): (r: Option<Id>)
    ensures r.Some? ==> r.value < |ss| && ss[r.value].execution == Running
    ensures r.None? ==> forall i :: 0 <= i < |ss| ==> ss[i].execution != Running
  {
    if ss == [] then Option.None
    else if ss[|ss| - 1].execution == Running then Some(|ss| - 1)
    else RunningSession(ss[..|ss| - 1])
  }

  datatype Event =
    | New(source: Id, target: Id, unpublished: set<Id>)
    | On(session: Id, op: Op)
    | Edit(world: World)

  /** A start reads the running session and its own id from the branch, not from its caller. */
  function Resolve(b: Branch, id: Id, op: Op): Op {
    if op.DoStart? then op.(me := id, running := RunningSession(b.sessions)) else op
  }

  /** Rows are soft-deleted only, so an edit elsewhere never shortens the tables it edits. */
  predicate Grows(w: World, w': World) {
    |w.years| <= |w'.years| && |w.batches| <= |w'.batches|
  }

  /** One event; a refused one changes nothing. */
  function Step(b: Branch, e: Event): Branch {
    match e
    case New(source, target, unpublished) =>
      var r := StartPromotion(b, source, target, unpublished);
      if r.Ok? then r.value else b
    case On(id, op) =>
      if id >= |b.sessions| then b
      else
        var r := Apply(b.sessions[id], b.world, Resolve(b, id, op));
        if r.Ok? then Branch(r.value.world, b.sessions[id := r.value.session]) else b
    case Edit(w') => if Grows(b.world, w') then b.(world := w') else b
  }

  function History(b: Branch, es: seq<Event>): Branch {
    if es == [] then b else Step(History(b, es[..|es| - 1]), es[|es| - 1])
  }

  // ---------------------------------------------------------------- the branch invariant

  /** At most one session per source year, draft and approved together. */
  ghost predicate OneSessionPerYear(ss: seq<Session>) {
    forall i, j :: 0 <= i < j < |ss| ==> ss[i].source != ss[j].source
  }

  ghost predicate OneRunning(ss: seq<Session>) {
    forall i, j :: 0 <= i < j < |ss| ==> !(ss[i].execution == Running && ss[j].execution == Running)
  }

  ghost predicate WellFormed(s: Session, w: World) {
    Invariant(s) && SectionsExist(s, w) && DistinctProfiles(s.decisions) && s.source != s.target
  }

  ghost predicate BranchInvariant(b: Branch) {
    && OneSessionPerYear(b.sessions) && OneRunning(b.sessions)
    && forall i :: 0 <= i < |b.sessions| ==> WellFormed(b.sessions[i], b.world)
  }

  lemma NewSessionInvariant(w: World, source: Id, target: Id, unpublished: set<Id>)
    requires source != target && !RepeatsStudent(NewSession(w, source, target, unpublished).decisions)
    ensures WellFormed(NewSession(w, source, target, unpublished), w)
  {
    var s := NewSession(w, source, target, unpublished);
    forall i | 0 <= i < |s.decisions| ensures Replays(s, i) { assert EntriesOf([], i) == []; }
  }

  ghost predicate StillExist(s: Session, w: World, e: Effect) {
    SectionsExist(e.session, e.world) && Grows(w, e.world)
  }

  lemma ReviewSections(s: Session, w: World, op: Op)
    requires SectionsExist(s, w) && Apply(s, w, op).Ok?
    requires op.DoOverride? || op.DoBulkOverride? || op.DoApprove? || op.DoReopen?
    ensures StillExist(s, w, Apply(s, w, op).value)
  {
    if op.DoBulkOverride? { BulkTargets(s, Selected(op.selection, s.decisions), op.action); }
  }

  /** Preparation with some mappings leaves existing sections chosen. */
  lemma PlacedSections(s: Session, w: World, ms: seq<Mapping>, t: Session)
    requires SectionsExist(s, w) && Place(w, s.target, ms, s.decisions).Ok?
    requires t.decisions == Place(w, s.target, ms, s.decisions).value.decisions
    ensures StillExist(s, w, Both(t, Place(w, s.target, ms, s.decisions).value.world))
  {
    PlaceSections(w, s, ms);
  }

  lemma StartSections(s: Session, w: World)
    requires SectionsExist(s, w) && StartPreparation(s, w).Ok?
    ensures StillExist(s, w, StartPreparation(s, w).value)
  {
    PlacedSections(s, w, Seeded(w.courses, s.mappings, s.decisions), StartPreparation(s, w).value.session);
  }

  lemma MappingSections(s: Session, w: World, rows: seq<Mapping>)
    requires SectionsExist(s, w) && UpdateClassMappings(s, w, rows).Ok?
    ensures StillExist(s, w, UpdateClassMappings(s, w, rows).value)
  {
    var stored := StoreMappings(s, w, rows).value;
    PlacedSections(s, w, UpsertAll(s.mappings, rows), stored.session);
    ListSections(stored.session, stored.world);
  }

  lemma ListSections(s: Session, w: World)
    requires SectionsExist(s, w) && ListClassMappings(s, w).Ok?
    ensures StillExist(s, w, ListClassMappings(s, w).value)
  {
    if ListClassMappings(s, w).value != Both(s, w) {
      PlacedSections(s, w, s.mappings, ListClassMappings(s, w).value.session);
    }
  }

  lemma AssignedSections(s: Session, w: World, asg: seq<Assignment>)
    requires SectionsExist(s, w) && UpdateSectionMappings(s, w, asg).Ok?
    ensures SectionsExist(UpdateSectionMappings(s, w, asg).value, w)
  {
    AssignSections(w, s.target, s.decisions, asg);
  }

  lemma LockSections(s: Session, w: World, op: Op)
    requires SectionsExist(s, w) && Apply(s, w, op).Ok?
    requires op.DoValidate? || op.DoLock? || op.DoReadState? || op.DoUnlock? || op.DoStart?
    ensures StillExist(s, w, Apply(s, w, op).value)
  {
    if op.DoValidate? { ValidateSections(s, w, op.now); }
    if op.DoLock? {
      LockWrites(s, w, op.now);
      ValidateSections(s, w, op.now);
    }
  }

  /** Sections chosen by an operation exist after it. */
  lemma ApplySections(s: Session, w: World, op: Op)
    requires SectionsExist(s, w) && Apply(s, w, op).Ok?
    ensures StillExist(s, w, Apply(s, w, op).value)
  {
    match op
    case DoOverride(_, _, _) => ReviewSections(s, w, op);
    case DoBulkOverride(_, _, _) => ReviewSections(s, w, op);
    case DoApprove => ReviewSections(s, w, op);
    case DoReopen(_) => ReviewSections(s, w, op);
    case DoStartPreparation => StartSections(s, w);
    case DoUpdateMappings(rows) => MappingSections(s, w, rows);
    case DoListMappings => ListSections(s, w);
    case DoAssign(asg) => AssignedSections(s, w, asg);
    case DoPerformRun(run, faults) => TaskGrows(s, w, run, faults);
    case _ => LockSections(s, w, op);
  }

  lemma {:induction false} BulkTargets(s: Session, ids: seq<Id>, a: Action)
    requires forall k :: 0 <= k < |ids| ==> ids[k] < |s.decisions|
    ensures forall i :: 0 <= i < |s.decisions| ==>
              OverrideMany(s, ids, a).decisions[i].targetBatch == s.decisions[i].targetBatch
  {
    if ids != [] { BulkTargets(s, ids[..|ids| - 1], a); }
  }

  lemma PlaceSections(w: World, s: Session, ms: seq<Mapping>)
    requires SectionsExist(s, w) && Place(w, s.target, ms, s.decisions).Ok?
    ensures var p := Place(w, s.target, ms, s.decisions).value;
            && Grows(w, p.world)
            && forall i :: 0 <= i < |p.decisions| && p.decisions[i].targetBatch.Some? ==>
                 p.decisions[i].targetBatch.value < |p.world.batches|
  {
    ProvideAdds(w, s.target, Needs(ms, s.decisions));
    var v := Provide(w, s.target, Needs(ms, s.decisions)).value;
    forall i | 0 <= i < |s.decisions| && Destined(v, s.target, ms, s.decisions[i]).targetBatch.Some?
      ensures Destined(v, s.target, ms, s.decisions[i]).targetBatch.value < |v.batches|
    {
      DestinedTarget(v, s.target, ms, s.decisions[i]);
    }
  }

  lemma DestinedTarget(v: World, year: Id, ms: seq<Mapping>, d: Decision)
    requires d.targetBatch.Some? ==> d.targetBatch.value < |v.batches|
    ensures var t := Destined(v, year, ms, d).targetBatch; t.Some? ==> t.value < |v.batches|
  {
  }

  ghost predicate Targets(ds: seq<Decision>, w: World) {
    forall i :: 0 <= i < |ds| && ds[i].targetBatch.Some? ==> ds[i].targetBatch.value < |w.batches|
  }

  lemma {:induction false} AssignSections(w: World, year: Id, ds: seq<Decision>, asg: seq<Assignment>)
    requires Targets(ds, w) && Assign(w, year, ds, asg).Ok?
    ensures Targets(Assign(w, year, ds, asg).value, w)
  {
    if asg != [] { AssignSections(w, year, ds, asg[..|asg| - 1]); }
  }

  lemma ValidateSections(s: Session, w: World, now: nat)
    requires SectionsExist(s, w) && Validate(s, w, now).Ok?
    ensures SectionsExist(Validate(s, w, now).value, w)
  {
    var v := Validate(s, w, now).value;
    forall i | 0 <= i < |v.decisions| && v.decisions[i].targetBatch.Some?
      ensures v.decisions[i].targetBatch.value < |w.batches|
    {
      assert v.decisions[i].targetBatch == s.decisions[i].targetBatch;
    }
  }

  lemma TaskGrows(s: Session, w: World, run: Id, faults: Faults)
    requires PerformRun(s, w, run, faults).Ok?
    ensures var v := PerformRun(s, w, run, faults).value.world;
            v.batches == w.batches && |v.years| == |w.years|
  {
    var p := Progress(w, s.runs[run].saved, s.runs[run].saved, s.runs[run].logs, false);
    TaskKeepsRows(p, PlanOf(s), faults);
  }

  lemma TaskKeepsRows(p: Progress, plan: Plan, faults: Faults)
    requires RunTask(p, plan, faults).Ok?
    ensures var v := RunTask(p, plan, faults).value.progress.world;
            v.batches == p.world.batches && |v.years| == |p.world.years|
  {
    LoopKeepsTables(p, plan, faults, ReadyIds(plan.decisions));
    TaskShape(p, plan, faults);
  }

  lemma ApplyYears(s: Session, w: World, op: Op)
    requires Apply(s, w, op).Ok?
    ensures var t := Apply(s, w, op).value.session; t.source == s.source && t.target == s.target
  {
    if op.DoBulkOverride? { BulkIdentity(s, Selected(op.selection, s.decisions), op.action); }
  }

  lemma ApplyStudents(s: Session, w: World, op: Op)
    requires Apply(s, w, op).Ok?
    ensures SameStudents(s.decisions, Apply(s, w, op).value.session.decisions)
  {
    match op
    case DoOverride(_, _, _) =>
    case DoBulkOverride(sel, a, _) => BulkIdentity(s, Selected(sel, s.decisions), a);
    case DoApprove =>
    case DoReopen(_) =>
    case DoPerformRun(_, _) =>
    case _ => ApprovedKeepsReview(s, w, op);
  }

  ghost predicate SameStudents(ds: seq<Decision>, es: seq<Decision>) {
    |es| == |ds| && forall i :: 0 <= i < |ds| ==> es[i].profile == ds[i].profile
  }

  lemma {:induction false} BulkIdentity(s: Session, ids: seq<Id>, a: Action)
    requires forall k :: 0 <= k < |ids| ==> ids[k] < |s.decisions|
    ensures var t := OverrideMany(s, ids, a);
            && t == s.(decisions := t.decisions, overrides := t.overrides)
            && forall i :: 0 <= i < |s.decisions| ==> t.decisions[i].profile == s.decisions[i].profile
  {
    if ids != [] { BulkIdentity(s, ids[..|ids| - 1], a); }
  }

  /** Only a start makes a session run, and only when no other session of the branch does. */
  lemma ApplyRunning(s: Session, w: World, op: Op)
    requires Apply(s, w, op).Ok? && Apply(s, w, op).value.session.execution == Running && s.execution != Running
    ensures op.DoStart? && (op.running.Some? ==> op.running.value == op.me)
  {
    match op
    case DoBulkOverride(sel, a, _) => BulkIdentity(s, Selected(sel, s.decisions), a);
    case DoPerformRun(run, faults) => PerformedStatus(s, w, run, faults);
    case _ =>
  }

  lemma ApplyWellFormed(s: Session, w: World, op: Op)
    requires WellFormed(s, w) && Apply(s, w, op).Ok?
    ensures WellFormed(Apply(s, w, op).value.session, Apply(s, w, op).value.world)
  {
    ApplyKeeps(s, w, op);
    ApplySections(s, w, op);
    ApplyYears(s, w, op);
    ApplyStudents(s, w, op);
  }

  lemma GrowthKeeps(s: Session, w: World, w': World)
    requires WellFormed(s, w) && Grows(w, w')
    ensures WellFormed(s, w')
  {
  }

  lemma RunningKeeps(b: Branch, id: Id, op: Op)
    requires OneRunning(b.sessions) && id < |b.sessions|
    ensures OneRunning(Step(b, On(id, op)).sessions)
  {
    var s, op' := b.sessions[id], Resolve(b, id, op);
    var r := Apply(s, b.world, op');
    if r.Ok? && r.value.session.execution == Running && s.execution != Running {
      ApplyRunning(s, b.world, op');
      assert RunningSession(b.sessions).None?;
    }
  }

  lemma OnKeeps(b: Branch, id: Id, op: Op)
    requires BranchInvariant(b) && id < |b.sessions|
    ensures BranchInvariant(Step(b, On(id, op)))
  {
    var s, op' := b.sessions[id], Resolve(b, id, op);
    RunningKeeps(b, id, op);
    var r := Apply(s, b.world, op');
    if r.Ok? {
      ApplyWellFormed(s, b.world, op');
      ApplyYears(s, b.world, op');
      ApplySections(s, b.world, op');
      var b' := Step(b, On(id, op));
      forall i | 0 <= i < |b'.sessions| ensures WellFormed(b'.sessions[i], b'.world) {
        if i != id { GrowthKeeps(b.sessions[i], b.world, b'.world); }
      }
    }
  }

  lemma StepKeeps(b: Branch, e: Event)
    requires BranchInvariant(b)
    ensures BranchInvariant(Step(b, e))
  {
    match e
    case New(source, target, unpublished) =>
      if StartPromotion(b, source, target, unpublished).Ok? { NewKeeps(b, source, target, unpublished); }
    case On(id, op) => if id < |b.sessions| { OnKeeps(b, id, op); }
    case Edit(w') => if Grows(b.world, w') { EditKeepsAll(b, w'); }
  }

  lemma NewKeeps(b: Branch, source: Id, target: Id, unpublished: set<Id>)
    requires BranchInvariant(b) && StartPromotion(b, source, target, unpublished).Ok?
    ensures BranchInvariant(StartPromotion(b, source, target, unpublished).value)
  {
    NewSessionInvariant(b.world, source, target, unpublished);
    OneMoreSession(b, NewSession(b.world, source, target, unpublished));
  }

  lemma OneMoreSession(b: Branch, s: Session)
    requires BranchInvariant(b) && WellFormed(s, b.world) && !HasSession(b.sessions, s.source)
    requires s.execution != Running
    ensures BranchInvariant(b.(sessions := b.sessions + [s]))
  {
  }

  lemma EditKeepsAll(b: Branch, w': World)
    requires BranchInvariant(b) && Grows(b.world, w')
    ensures BranchInvariant(b.(world := w'))
  {
    forall i | 0 <= i < |b.sessions| ensures WellFormed(b.sessions[i], w') {
      GrowthKeeps(b.sessions[i], b.world, w');
    }
  }

  /** Every branch history keeps one session per source year, one running session, and every session's
      invariant, whatever edits the other tables undergo in between. */
  lemma {:induction false} EveryHistory(w: World, es: seq<Event>)
    ensures BranchInvariant(History(Branch(w, []), es))
  {
    if es != [] {
      EveryHistory(w, es[..|es| - 1]);
      StepKeeps(History(Branch(w, []), es[..|es| - 1]), es[|es| - 1]);
    }
  }

  // ---------------------------------------------------------------- no way back

  /** t comes after s, in which execution had started: nothing has been reopened, unlocked or overridden. */
  ghost predicate StillStarted(s: Session, t: Session) {
    && t.execution != NotStarted && t.status == Approved && t.preparation in {Locked, Invalid}
    && t.overrides == s.overrides && SameReview(s.decisions, t.decisions)
  }

  lemma StepStillStarted(b: Branch, e: Event, s: Session, id: Id)
    requires BranchInvariant(b) && id < |b.sessions| && StillStarted(s, b.sessions[id])
    ensures id < |Step(b, e).sessions| && StillStarted(s, Step(b, e).sessions[id])
  {
    if e.On? && e.session == id {
      assert WellFormed(b.sessions[id], b.world);
      StartedForever(b.sessions[id], b.world, Resolve(b, id, e.op));
    }
  }

  lemma {:induction false} StartedStays(b: Branch, more: seq<Event>, id: Id)
    requires BranchInvariant(b) && id < |b.sessions| && b.sessions[id].execution != NotStarted
    ensures BranchInvariant(History(b, more)) && id < |History(b, more).sessions|
    ensures StillStarted(b.sessions[id], History(b, more).sessions[id])
  {
    if more == [] {
      assert WellFormed(b.sessions[id], b.world);
    } else {
      var n := |more| - 1;
      StartedStays(b, more[..n], id);
      StepKeeps(History(b, more[..n]), more[n]);
      StepStillStarted(History(b, more[..n]), more[n], b.sessions[id], id);
    }
  }

  /** Whatever happens next in a branch, a session whose execution has started stays started, is never
      reopened or unlocked, and keeps its override log and its final actions. */
  lemma StartedInEveryHistory(w: World, es: seq<Event>, more: seq<Event>, id: Id)
    requires var ss := History(Branch(w, []), es).sessions; id < |ss| && ss[id].execution != NotStarted
    ensures var b := History(Branch(w, []), es);
            id < |History(b, more).sessions| && StillStarted(b.sessions[id], History(b, more).sessions[id])
  {
    EveryHistory(w, es);
    StartedStays(History(Branch(w, []), es), more, id);
  }
}
