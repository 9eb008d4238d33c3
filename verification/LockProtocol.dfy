/** The lock, the confirmation token and the staleness check: what they guarantee about a start. */
module LockProtocol {
  import opened Records
  import opened Calendar
  import opened Execution
  import opened Accounting
  import opened Validation
  import opened Staleness
  import opened Preparation
  import opened Sessions
  import opened Lifecycle

  // ---------------------------------------------------------------- no way back

  /** Once execution has started no operation resets it; the review cannot be reopened, preparation
      cannot be unlocked, and the final actions are fixed. */
  lemma StartedForever(s: Session, w: World, op: Op)
    requires Invariant(s) && s.execution != NotStarted
    ensures forall reason :: Reopen(s, reason).Err? && Unlock(s, reason).Err?
    ensures Apply(s, w, op).Ok? ==>
              var t := Apply(s, w, op).value.session;
              && t.execution != NotStarted && t.status == Approved && t.preparation in {Locked, Invalid}
              && t.overrides == s.overrides && SameReview(s.decisions, t.decisions)
  {
    if Apply(s, w, op).Ok? {
      ApplyKeeps(s, w, op);
      ApprovedKeepsReview(s, w, op);
      StaysStarted(s, w, op);
    }
  }

  lemma StaysStarted(s: Session, w: World, op: Op)
    requires s.execution != NotStarted && Apply(s, w, op).Ok?
    ensures Apply(s, w, op).value.session.execution != NotStarted
  {
    match op
    case DoBulkOverride(sel, a, _) => ManyOverridesRow(s, Selected(sel, s.decisions), a);
    case DoLock(now) => LockWrites(s, w, now);
    case DoPerformRun(run, faults) => PerformedStatus(s, w, run, faults);
    case _ =>
  }

  lemma {:induction false} ManyOverridesRow(s: Session, ids: seq<Id>, a: Action)
    requires forall k :: 0 <= k < |ids| ==> ids[k] < |s.decisions|
    ensures var t := OverrideMany(s, ids, a); t == s.(decisions := t.decisions, overrides := t.overrides)
  {
    if ids != [] { ManyOverridesRow(s, ids[..|ids| - 1], a); }
  }

  lemma ListingKeepsReview(s: Session, w: World)
    requires s.status == Approved && ListClassMappings(s, w).Ok?
    ensures KeptReview(s, ListClassMappings(s, w).value.session)
  {
    if ListClassMappings(s, w).value.session != s { PlaceReview(w, s.target, s.mappings, s.decisions); }
  }

  lemma MappingsKeepReview(s: Session, w: World, rows: seq<Mapping>)
    requires s.status == Approved && UpdateClassMappings(s, w, rows).Ok?
    ensures KeptReview(s, UpdateClassMappings(s, w, rows).value.session)
  {
    var stored := StoreMappings(s, w, rows).value;
    PlaceReview(w, s.target, UpsertAll(s.mappings, rows), s.decisions);
    ListingKeepsReview(stored.session, stored.world);
  }

  lemma PlacementKeepsReview(s: Session, w: World, op: Op)
    requires s.status == Approved && Apply(s, w, op).Ok?
    requires op.DoStartPreparation? || op.DoUpdateMappings? || op.DoListMappings? || op.DoAssign?
    ensures KeptReview(s, Apply(s, w, op).value.session)
  {
    match op
    case DoStartPreparation => PlaceReview(w, s.target, Seeded(w.courses, s.mappings, s.decisions), s.decisions);
    case DoUpdateMappings(rows) => MappingsKeepReview(s, w, rows);
    case DoListMappings => ListingKeepsReview(s, w);
    case DoAssign(asg) => AssignKeeps(w, s.target, s.decisions, asg);
  }

  ghost predicate KeptReview(s: Session, t: Session) {
    t.status == Approved && t.overrides == s.overrides && SameReview(s.decisions, t.decisions)
  }

  lemma ValidationKeepsReview(s: Session, w: World, op: Op)
    requires s.status == Approved && Apply(s, w, op).Ok?
    requires op.DoValidate? || op.DoLock?
    ensures KeptReview(s, Apply(s, w, op).value.session)
  {
    if op.DoLock? {
      LockWrites(s, w, op.now);
      assert SameReview(s.decisions, Validate(s, w, op.now).value.decisions);
    }
  }

  lemma RestKeepsReview(s: Session, w: World, op: Op)
    requires s.status == Approved && Apply(s, w, op).Ok?
    requires op.DoReadState? || op.DoUnlock? || op.DoStart? || op.DoPerformRun?
    ensures KeptReview(s, Apply(s, w, op).value.session)
  {
  }

  /** While a session stays approved its reviewed actions do not move. */
  lemma ApprovedKeepsReview(s: Session, w: World, op: Op)
    requires s.status == Approved && Apply(s, w, op).Ok? && !op.DoReopen?
    ensures KeptReview(s, Apply(s, w, op).value.session)
  {
    match op
    case DoOverride(_, _, _) =>
    case DoBulkOverride(_, _, _) =>
    case DoApprove =>
    case DoStartPreparation => PlacementKeepsReview(s, w, op);
    case DoUpdateMappings(_) => PlacementKeepsReview(s, w, op);
    case DoListMappings => PlacementKeepsReview(s, w, op);
    case DoAssign(_) => PlacementKeepsReview(s, w, op);
    case DoValidate(_) => ValidationKeepsReview(s, w, op);
    case DoLock(_) => ValidationKeepsReview(s, w, op);
    case DoReadState => RestKeepsReview(s, w, op);
    case DoUnlock(_) => RestKeepsReview(s, w, op);
    case DoStart(_, _, _, _) => RestKeepsReview(s, w, op);
    case DoPerformRun(_, _) => RestKeepsReview(s, w, op);
  }

  // ---------------------------------------------------------------- a start is bound to its lock

  ghost predicate ShowsYear(w: World, y: Id, p: Option<YearPrint>) {
    if y < |w.years|
    then p == Some(YearPrint(y, w.years[y].version, w.years[y].current, w.years[y].frozen, w.years[y].live))
    else p.None?
  }

  ghost predicate ShowsStudent(w: World, p: DecisionPrint) {
    if p.profile < |w.profiles|
    then p.status == Some(w.profiles[p.profile].status) && p.batch == w.profiles[p.profile].batch
    else p.status.None? && p.batch.None?
  }

  ghost predicate ShowsFee(w: World, p: FeePrint) {
    if p.id < |w.fees|
    then p == FeePrint(p.id, w.fees[p.id].version, w.fees[p.id].published, w.fees[p.id].live)
    else p == GoneFee(p.id)
  }

  /** What the fingerprint holds of the watched rows is what they hold now. */
  ghost predicate Shows(w: World, fp: Fingerprint, source: Id, target: Id) {
    && ShowsYear(w, source, fp.sourceYear) && ShowsYear(w, target, fp.targetYear)
    && (forall p <- fp.decisions :: ShowsStudent(w, p)) && forall p <- fp.fees :: ShowsFee(w, p)
  }

  lemma UnchangedShows(w: World, fp: Fingerprint, s: Session)
    requires Fingerprints(fp, s) && Unchanged(w, fp, Build(w, PlanOf(s), s.mappings))
    ensures Shows(w, fp, s.source, s.target)
  {
    var live := Build(w, PlanOf(s), s.mappings);
    forall p <- fp.decisions ensures ShowsStudent(w, p) {
      var i :| 0 <= i < |fp.decisions| && fp.decisions[i] == p;
      assert PrintOf(p, s.decisions[i], i);
      FindInOrder(live.decisions, i);
    }
    forall p <- fp.fees ensures ShowsFee(w, p) {
      assert p in live.fees;
      PrintedFees(w, s.decisions, p);
    }
  }

  /** A start that is newly accepted carries the digest of the locked fingerprint, which is of the very
      decisions and mappings it will execute, and what that fingerprint holds of the years, the students
      and the fees is what their rows hold at the start. */
  lemma StartBinds(s: Session, w: World, me: Id, running: Option<Id>, phrase: bool, token: Option<Token>)
    requires Invariant(s)
    requires StartExecution(s, w, me, running, phrase, token).Ok? && s.execution != Running
    requires running != Some(me)
    ensures phrase && running.None? && s.preparation == Locked && s.execution != Succeeded
    ensures var fp := s.fingerprint.value;
            && token == Some(Digest(fp, s.report.validatedAt, s.report.students))
            && Fingerprints(fp, s)
            && Unchanged(w, fp, Build(w, PlanOf(s), s.mappings)) && Shows(w, fp, s.source, s.target)
    ensures StartExecution(s, w, me, running, phrase, token).value.decisions == s.decisions
  {
    SilentMeansUnchanged(w, s.fingerprint, Build(w, PlanOf(s), s.mappings));
    UnchangedShows(w, s.fingerprint.value, s);
  }

  /** A token issued by one lock is accepted in another locked state only if both locked the same plan:
      the same mappings, and for every decision the same student, section, readiness and action. */
  lemma StaleTokenRefused(s: Session, t: Session, w: World, me: Id, phrase: bool)
    requires Invariant(s) && Invariant(t) && s.preparation == t.preparation == Locked
    requires t.execution != Running
    requires StartExecution(t, w, me, Option.None, phrase, s.report.token).Ok?
    ensures s.fingerprint == t.fingerprint && s.mappings == t.mappings && |s.decisions| == |t.decisions|
    ensures forall i :: 0 <= i < |s.decisions| ==>
              && s.decisions[i].profile == t.decisions[i].profile
              && s.decisions[i].targetBatch == t.decisions[i].targetBatch
              && s.decisions[i].readiness == t.decisions[i].readiness
              && s.decisions[i].final == t.decisions[i].final
  {
    var fp := s.fingerprint.value;
    forall i | 0 <= i < |s.decisions|
      ensures PrintOf(fp.decisions[i], s.decisions[i], i) && PrintOf(fp.decisions[i], t.decisions[i], i)
    {
    }
  }

  /** In a locked session the staleness comparison never raises. */
  lemma LockedNeverRaises(s: Session, w: World)
    requires Invariant(s) && s.preparation == Locked
    ensures ReadState(s, w).Ok?
  {
    var fp, live := s.fingerprint.value, Build(w, PlanOf(s), s.mappings);
    RaisesExactly(w, fp.decisions, live.decisions, YearChanges(fp, live));
    forall i | 0 <= i < |fp.decisions|
      ensures !OneSided(w, fp.decisions[i], Find(live.decisions, fp.decisions[i].decision))
    {
      BothSided(s, w, i);
    }
  }

  lemma BothSided(s: Session, w: World, i: nat)
    requires s.fingerprint.Some? && Fingerprints(s.fingerprint.value, s) && i < |s.decisions|
    ensures var sd, live := s.fingerprint.value.decisions[i], Build(w, PlanOf(s), s.mappings);
            !OneSided(w, sd, Find(live.decisions, sd.decision))
  {
    assert PrintOf(s.fingerprint.value.decisions[i], s.decisions[i], i);
    FindInOrder(Build(w, PlanOf(s), s.mappings).decisions, i);
  }

  // ---------------------------------------------------------------- from lock to start

  /** Chosen sections are rows of the table. */
  ghost predicate SectionsExist(s: Session, w: World) {
    forall i :: 0 <= i < |s.decisions| && s.decisions[i].targetBatch.Some? ==>
      s.decisions[i].targetBatch.value < |w.batches|
  }

  lemma FreshLock(s: Session, w: World, now: nat)
    requires Invariant(s) && SectionsExist(s, w) && Lock(s, w, now).Ok?
    ensures var v := Validate(s, w, now).value;
            && Lock(s, w, now).value == LockedRow(s, v, Build(w, PlanOf(v), v.mappings))
            && ReadState(Lock(s, w, now).value, w) == Lock(s, w, now)
  {
    var v := Validate(s, w, now).value;
    var t := LockedRow(s, v, Build(w, PlanOf(v), v.mappings));
    FreshFingerprint(w, PlanOf(v), v.mappings);
    forall i | 0 <= i < |v.decisions| && v.decisions[i].targetBatch.Some?
      ensures v.decisions[i].targetBatch.value < |w.batches|
    {
      assert v.decisions[i].targetBatch == s.decisions[i].targetBatch;
    }
    assert Build(w, PlanOf(t), t.mappings) == Build(w, PlanOf(v), v.mappings);
  }

  lemma LockedDestinationsStand(s: Session, w: World, now: nat)
    requires s.status == Approved && s.preparation != Locked
    ensures AllDestinationsStand(w, PlanOf(Validate(s, w, now).value))
  {
    var v := Validate(s, w, now).value;
    forall d | d in v.decisions && d.readiness == Some(Ready) ensures DestinationStands(w, PlanOf(v), d) {
      var i :| 0 <= i < |v.decisions| && v.decisions[i] == d;
      ReadyIsSound(w, PlanOf(s), s.decisions[i]);
    }
  }

  lemma ChecksAfterLock(s: Session, w: World, now: nat)
    requires Invariant(s) && SectionsExist(s, w) && s.execution != Running && Lock(s, w, now).Ok?
    ensures PreExecutionChecks(Lock(s, w, now).value, w).None? <==>
            s.execution != Succeeded && (s.report.students.Some? ==> s.report.students.value.blocked == 0)
  {
    LockedIsFit(s, w, now);
    ChecksOf(Lock(s, w, now).value, w);
  }

  /** What the checks look at in a locked session, other than its execution status and blocked count. */
  ghost predicate Fit(t: Session, w: World) {
    && t.status == Approved && t.preparation == Locked && ReadState(t, w) == Ok(t)
    && CanProceed(w, t.source, t.target) && ReadyIds(t.decisions) != [] && AllDestinationsStand(w, PlanOf(t))
  }

  lemma ChecksOf(t: Session, w: World)
    requires Fit(t, w) && t.execution != Running
    ensures PreExecutionChecks(t, w).None? <==> t.execution != Succeeded && BlockedCount(t) == 0
  {
  }

  lemma LockedIsFit(s: Session, w: World, now: nat)
    requires Invariant(s) && SectionsExist(s, w) && Lock(s, w, now).Ok?
    ensures var t := Lock(s, w, now).value;
            && Fit(t, w) && t.execution == s.execution
            && BlockedCount(t) == if s.report.students.Some? then s.report.students.value.blocked else 0
  {
    FreshLock(s, w, now);
    var v, t := Validate(s, w, now).value, Lock(s, w, now).value;
    LockedDestinationsStand(s, w, now);
    NoneBlocked(v.decisions);
    assert t.decisions == v.decisions;
  }

  /** Right after a lock, with nothing else running, the correct phrase and token start the execution
      exactly when the snapshot saved before the lock counted no blocked student and the promotion has
      not already succeeded.  The lock's own, fresh validation does not help: it is not the one stored. */
  lemma LockThenStart(s: Session, w: World, now: nat, me: Id)
    requires Invariant(s) && SectionsExist(s, w) && s.execution != Running && Lock(s, w, now).Ok?
    ensures var t := Lock(s, w, now).value;
            && t.preparation == Locked
            && (StartExecution(t, w, me, Option.None, true, t.report.token).Ok? <==>
                s.execution != Succeeded && (s.report.students.Some? ==> s.report.students.value.blocked == 0))
  {
    FreshLock(s, w, now);
    ChecksAfterLock(s, w, now);
  }

  /** One student to graduate out of the current year. */
  function SmallBranch(standing: Standing): World {
    World([Year(1, 1, true, false, true), Year(2, 1, false, false, true)], [], [],
          [Profile(standing, Option.None, Some(0), true)],
          [Enrollment(0, 0, Option.None, Active, [], true)], [], [], map[], false)
  }

  function SmallSession(): Session {
    var d := Decision(0, Option.None, Option.None, BLANK, Graduate, Graduate, false, Option.None, Option.None,
                      BLANK, Option.None, Option.None, []);
    Session(0, 1, Approved, InProgress, NotStarted, NO_REPORT, Option.None, Option.None, [d], [], [], [])
  }

  function SmallValidated(): Session {
    Validate(SmallSession(), SmallBranch(Withdrawn), 0).value
  }

  /** A session validated while its student was inactive, locked after the student was reactivated: the
      lock succeeds, and the start with the right phrase and token is refused. */
  lemma StaleSnapshotExample()
    ensures var s, w := SmallValidated(), SmallBranch(Active);
            && Invariant(s) && SectionsExist(s, w)
            && Lock(s, w, 1).Ok?
            && StartExecution(Lock(s, w, 1).value, w, 0, Option.None, true, Lock(s, w, 1).value.report.token).Err?
  {
    var s, w := SmallValidated(), SmallBranch(Active);
    SmallLocks();
    LockThenStart(s, w, 1, 0);
  }

  lemma SmallIsBlocked()
    ensures Invariant(SmallValidated()) && SmallValidated().report.students == Some(Counts(0, 1))
    ensures SectionsExist(SmallValidated(), SmallBranch(Active)) && SmallValidated().decisions[0].final == Graduate
  {
    assert Replays(SmallSession(), 0) by { assert EntriesOf([], 0) == []; }
    ValidateKeeps(SmallSession(), SmallBranch(Withdrawn), 0);
    OneBlocked(SmallValidated().decisions);
  }

  lemma SmallLocks()
    ensures Invariant(SmallValidated()) && SmallValidated().report.students == Some(Counts(0, 1))
    ensures SectionsExist(SmallValidated(), SmallBranch(Active)) && Lock(SmallValidated(), SmallBranch(Active), 1).Ok?
  {
    SmallIsBlocked();
    var s, w := SmallValidated(), SmallBranch(Active);
    var v := Validate(s, w, 1).value;
    OneReady(v.decisions);
    LockedRowKeeps(s, w, 1);
    LockedNeverRaises(LockedRow(s, v, Build(w, PlanOf(v), v.mappings)), w);
  }

  lemma OneBlocked(ds: seq<Decision>)
    requires |ds| == 1 && ds[0].readiness == Some(Blocked)
    ensures CountsOf(ds) == Counts(0, 1)
  {
    assert ds[..0] == [] && CountReadiness(ds[..0], Ready) == 0 && CountReadiness(ds[..0], Blocked) == 0;
  }

  lemma OneReady(ds: seq<Decision>)
    requires |ds| == 1 && ds[0].readiness == Some(Ready)
    ensures CountsOf(ds) == Counts(1, 0)
  {
    assert ds[..0] == [] && CountReadiness(ds[..0], Ready) == 0 && CountReadiness(ds[..0], Blocked) == 0;
  }

  /** Validating once more before the lock always clears the way. */
  lemma ValidateLockStart(s: Session, w: World, before: nat, now: nat, me: Id)
    requires Invariant(s) && SectionsExist(s, w) && s.execution != Running && s.execution != Succeeded
    requires Validate(s, w, before).Ok? && Lock(Validate(s, w, before).value, w, now).Ok?
    ensures var t := Lock(Validate(s, w, before).value, w, now).value;
            StartExecution(t, w, me, Option.None, true, t.report.token).Ok?
  {
    var v := Validate(s, w, before).value;
    ValidateKeeps(s, w, before);
    assert SectionsExist(v, w) by {
      forall i | 0 <= i < |v.decisions| && v.decisions[i].targetBatch.Some?
        ensures v.decisions[i].targetBatch.value < |w.batches|
      {
        assert v.decisions[i].targetBatch == s.decisions[i].targetBatch;
      }
    }
    LockThenStart(v, w, now, me);
    ValidatedAgain(w, PlanOf(s));
  }

  /** Validation of a validated decision gives the same verdict. */
  lemma ValidatedAgain(w: World, plan: Plan)
    ensures var ds := ValidateAll(w, plan, plan.decisions);
            ValidateAll(w, plan.(decisions := ds), ds) == ds
  {
    var ds := ValidateAll(w, plan, plan.decisions);
    var plan' := plan.(decisions := ds);
    forall i | 0 <= i < |ds| ensures Validated(w, plan', ds[i]) == ds[i] {
      ValidatedOnce(w, plan, plan', plan.decisions[i]);
    }
  }

  lemma ValidatedOnce(w: World, plan: Plan, plan': Plan, d: Decision)
    requires plan'.source == plan.source && plan'.target == plan.target
    ensures Validated(w, plan', Validated(w, plan, d)) == Validated(w, plan, d)
  {
  }

  // ---------------------------------------------------------------- from lock to a later start

  /** What a start asks of the tables besides that nothing watched has drifted: the last rollover run is not
      a success for this pair of years, and every student to move has an open section and no target row. */
  ghost predicate StillOpen(v: World, plan: Plan) {
    && !(v.rollovers != [] && v.rollovers[|v.rollovers| - 1].status == RollSucceeded
         && v.rollovers[|v.rollovers| - 1].from == plan.source
         && v.rollovers[|v.rollovers| - 1].to == Some(plan.target))
    && forall i :: 0 <= i < |plan.decisions| ==> SeatOpen(v, plan, plan.decisions[i])
  }

  ghost predicate SeatOpen(v: World, plan: Plan, d: Decision) {
    d.final == Promote || d.final == Retain ==>
      && d.targetBatch.Some? && OpenSection(v, d.targetBatch.value, plan.target)
      && !EnrolledIn(v, d.profile, plan.target)
  }

  lemma SeatStands(w: World, v: World, plan: Plan, d: Decision)
    requires Sound(w, plan, d) && (d.fee.Some? ==> SameFee(w, v, d.fee.value))
    ensures DestinationStands(v, plan, d) <==> SeatOpen(v, plan, d)
  {
    LookUps(v, d.profile, plan.target);
  }

  /** Of a locked session's tables: each decision is ready and sound. */
  ghost predicate ReadyPlan(w: World, plan: Plan) {
    forall i :: 0 <= i < |plan.decisions| ==>
      plan.decisions[i].readiness == Some(Ready) && Sound(w, plan, plan.decisions[i])
  }

  lemma SeatsStand(w: World, v: World, plan: Plan)
    requires ReadyPlan(w, plan) && NoDriftSince(w, v, plan)
    ensures AllDestinationsStand(v, plan) <==>
            forall i :: 0 <= i < |plan.decisions| ==> SeatOpen(v, plan, plan.decisions[i])
  {
    forall i | 0 <= i < |plan.decisions|
      ensures plan.decisions[i] in plan.decisions
      ensures DestinationStands(v, plan, plan.decisions[i]) <==> SeatOpen(v, plan, plan.decisions[i])
    {
      SeatStands(w, v, plan, plan.decisions[i]);
    }
  }

  lemma ProceedsStill(w: World, v: World, plan: Plan)
    requires CanProceed(w, plan.source, plan.target) && NoDriftSince(w, v, plan)
    ensures CanProceed(v, plan.source, plan.target) <==>
            !(v.rollovers != [] && v.rollovers[|v.rollovers| - 1].status == RollSucceeded
              && v.rollovers[|v.rollovers| - 1].from == plan.source
              && v.rollovers[|v.rollovers| - 1].to == Some(plan.target))
  {
  }

  /** The state of a locked session on other tables. */
  lemma ReadElsewhere(t: Session, w: World, v: World)
    requires Invariant(t) && t.status == Approved && t.preparation == Locked
    requires t.fingerprint == Some(Build(w, PlanOf(t), t.mappings))
    ensures ReadState(t, v) == Ok(if NoDriftSince(w, v, PlanOf(t)) then t else t.(preparation := Invalid))
  {
    LockedNeverRaises(t, v);
    DriftExact(w, v, PlanOf(t), t.mappings);
  }

  lemma ChecksElsewhere(t: Session, w: World, v: World)
    requires Invariant(t) && Fit(t, w) && t.execution != Running && ReadyPlan(w, PlanOf(t))
    requires t.fingerprint == Some(Build(w, PlanOf(t), t.mappings))
    ensures PreExecutionChecks(t, v).None? <==>
            && NoDriftSince(w, v, PlanOf(t)) && StillOpen(v, PlanOf(t))
            && t.execution != Succeeded && BlockedCount(t) == 0
  {
    ReadElsewhere(t, w, v);
    if NoDriftSince(w, v, PlanOf(t)) {
      SeatsStand(w, v, PlanOf(t));
      ProceedsStill(w, v, PlanOf(t));
      ChecksUndrifted(t, v);
    } else {
      ChecksDrifted(t, v);
    }
  }

  lemma ChecksUndrifted(t: Session, v: World)
    requires t.status == Approved && t.preparation == Locked && t.execution != Running && ReadState(t, v) == Ok(t)
    ensures PreExecutionChecks(t, v).None? <==>
            && CanProceed(v, t.source, t.target) && AllDestinationsStand(v, PlanOf(t))
            && t.execution != Succeeded && BlockedCount(t) == 0 && ReadyIds(t.decisions) != []
  {
  }

  lemma ChecksDrifted(t: Session, v: World)
    requires t.status == Approved && t.preparation == Locked
    requires ReadState(t, v) == Ok(t.(preparation := Invalid))
    ensures PreExecutionChecks(t, v).Some?
  {
  }

  /** A session locked on tables w starts on tables v, with the right phrase and token and nothing else
      running, exactly when no watched row differs, the destinations are still open, the promotion has not
      succeeded and the snapshot saved before the lock counted nobody blocked. */
  lemma LockThenStartLater(s: Session, w: World, v: World, now: nat, me: Id)
    requires Invariant(s) && SectionsExist(s, w) && s.execution != Running && Lock(s, w, now).Ok?
    ensures var t := Lock(s, w, now).value;
            StartExecution(t, v, me, Option.None, true, t.report.token).Ok? <==>
            && NoDriftSince(w, v, PlanOf(t)) && StillOpen(v, PlanOf(t)) && s.execution != Succeeded
            && (s.report.students.Some? ==> s.report.students.value.blocked == 0)
  {
    FreshLock(s, w, now);
    LockKeeps(s, w, now);
    LockedIsFit(s, w, now);
    LockedPlanReady(s, w, now);
    ChecksElsewhere(Lock(s, w, now).value, w, v);
  }

  lemma LockedPlanReady(s: Session, w: World, now: nat)
    requires Invariant(s) && SectionsExist(s, w) && Lock(s, w, now).Ok?
    ensures var t := Lock(s, w, now).value;
            && ReadyPlan(w, PlanOf(t)) && t.fingerprint == Some(Build(w, PlanOf(t), t.mappings))
  {
    FreshLock(s, w, now);
    LockedAllReady(s, w, now);
    var t := Lock(s, w, now).value;
    forall i | 0 <= i < |t.decisions| ensures Sound(w, PlanOf(t), t.decisions[i]) {
      ReadyIsSound(w, PlanOf(s), s.decisions[i]);
    }
  }

  // ---------------------------------------------------------------- from lock to the end of the run

  lemma LockedPlanIsDoable(s: Session, w: World, now: nat)
    requires Invariant(s) && SectionsExist(s, w) && Lock(s, w, now).Ok? && DistinctProfiles(s.decisions)
    ensures var t := Lock(s, w, now).value;
            && DoablePlan(w, PlanOf(t)) && t.preview == Some(Preview(t.decisions))
            && t.source == s.source && t.target == s.target
  {
    FreshLock(s, w, now);
    var t := Lock(s, w, now).value;
    forall i | 0 <= i < |t.decisions| && t.decisions[i].readiness == Some(Ready)
      ensures Doable(w, PlanOf(t), t.decisions[i])
    {
      ReadyIsSound(w, PlanOf(s), s.decisions[i]);
    }
  }

  /** The task of a run just started, when it runs inside the start's own transaction, never raises, so the
      start stands.  A later delivery of the run inside a transaction changes nothing. */
  lemma EagerStartStands(s: Session, w: World, me: Id, phrase: bool, token: Option<Token>, faults: Faults)
    requires StartExecution(s, w, me, Option.None, phrase, token).Ok? && faults.transactional
    ensures var t := StartExecution(s, w, me, Option.None, phrase, token).value;
            PerformRun(t, w, |s.runs|, faults).Ok?
  {
    var t := StartExecution(s, w, me, Option.None, phrase, token).value;
    RunLogs(w, PlanOf(t), faults);
    TaskShape(Fresh(w), PlanOf(t), faults);
  }

  ghost predicate AllCarried(w: World, v: World, plan: Plan) {
    forall i :: 0 <= i < |plan.decisions| ==> CarriedOut(w, v, plan, plan.decisions[i])
  }

  /** The target is the one current year, the source is frozen, and the run table says so. */
  ghost predicate YearSwitched(w: World, v: World, plan: Plan) {
    && |v.years| == |w.years|
    && (forall y :: 0 <= y < |w.years| ==>
          && (v.years[y].current <==> y == plan.target)
          && (v.years[y].frozen <==> w.years[y].frozen || y == plan.source)
          && v.years[y].live == w.years[y].live && v.years[y].name == w.years[y].name)
    && v.rollovers == w.rollovers +
         [RolloverRun(plan.source, Some(plan.target), RollSucceeded, Snapshot([], []), Option.None)]
  }

  /** The task, begun on tables w, succeeded, its counters are the preview, every decision has been carried
      out, and the year is switched exactly when somebody moved on or graduated. */
  ghost predicate EndsClean(w: World, r: Result<Finish>, plan: Plan) {
    && r.Ok? && r.value.status == Succeeded && r.value.progress.saved.failed == 0
    && Preview(plan.decisions) == TallyPreview(r.value.progress.saved)
    && AllCarried(w, r.value.progress.world, plan)
    && if Preview(plan.decisions).newEnrollments + Preview(plan.decisions).graduated > 0
       then YearSwitched(w, r.value.progress.world, plan)
       else r.value.progress.world.years == w.years && r.value.progress.world.rollovers == w.rollovers
  }

  /** A session locked and started on unchanged tables, with no outside step raising, succeeds: its
      counters are the preview the user saw, and every decision of the plan has been carried out. */
  lemma LockedPlanRunsClean(s: Session, w: World, now: nat, faults: Faults)
    requires Invariant(s) && SectionsExist(s, w) && Lock(s, w, now).Ok? && DistinctProfiles(s.decisions)
    requires Clean(faults) && !faults.flip && UniqueEnrollments(w.enrollments) && s.source != s.target
    ensures var t := Lock(s, w, now).value;
            t.preview == Some(Preview(t.decisions)) && EndsClean(w, RunTask(Fresh(w), PlanOf(t), faults), PlanOf(t))
  {
    LockedPlanIsDoable(s, w, now);
    LockedAllReady(s, w, now);
    var t := Lock(s, w, now).value;
    DoablePlanRunsClean(w, PlanOf(t), faults);
  }

  lemma LockedAllReady(s: Session, w: World, now: nat)
    requires Invariant(s) && SectionsExist(s, w) && Lock(s, w, now).Ok?
    ensures var t := Lock(s, w, now).value;
            && t.source < |w.years| && t.target < |w.years|
            && forall i :: 0 <= i < |t.decisions| ==> t.decisions[i].readiness == Some(Ready)
  {
    LockKeeps(s, w, now);
    FreshLock(s, w, now);
    var t := Lock(s, w, now).value;
    forall i | 0 <= i < |t.decisions| ensures t.decisions[i].readiness == Some(Ready) {
      assert LockReady(t.decisions[i]);
    }
  }

  lemma DoablePlanRunsClean(w: World, plan: Plan, faults: Faults)
    requires DoablePlan(w, plan) && Clean(faults) && FlipPossible(w, plan, faults)
    requires UniqueEnrollments(w.enrollments) && plan.source != plan.target
    requires forall i :: 0 <= i < |plan.decisions| ==> plan.decisions[i].readiness == Some(Ready)
    ensures EndsClean(w, RunTask(Fresh(w), plan, faults), plan)
  {
    PreviewIsTheRun(w, plan, faults);
    ValidatedPlanIsCarriedOut(w, plan, faults);
    CleanNeverCrashes(w, plan, faults, ReadyIds(plan.decisions));
    LoopKeepsTables(Fresh(w), plan, faults, ReadyIds(plan.decisions));
    TaskShape(Fresh(w), plan, faults);
    var q := Students(Fresh(w), plan, faults, ReadyIds(plan.decisions));
    CleanEnd(w, RunTask(Fresh(w), plan, faults), q, plan);
  }

  lemma {:induction false} LoopKeepsTables(p: Progress, plan: Plan, faults: Faults, ids: seq<Id>)
    requires forall i :: 0 <= i < |ids| ==> ids[i] < |plan.decisions|
    ensures var v := Students(p, plan, faults, ids).world;
            v.years == p.world.years && v.batches == p.world.batches && v.rollovers == p.world.rollovers
  {
    if ids != [] {
      LoopKeepsTables(p, plan, faults, ids[..|ids| - 1]);
      IterationKeepsTables(Students(p, plan, faults, ids[..|ids| - 1]), plan, faults, ids[|ids| - 1]);
    }
  }

  lemma StepKeepsTables(w: World, plan: Plan, d: Decision, cut: Option<Break>)
    ensures var v := Reached(StepOf(w, plan, d), cut).world;
            v.years == w.years && v.batches == w.batches && v.rollovers == w.rollovers
  {
    if Executable(d.final) && d.profile < |w.profiles| {
      if Moves(d.final) { MoveKeepsTables(w, plan, d, cut); }
      else { ExitKeepsTables(w, plan, d, cut); }
    }
  }

  ghost predicate SameTables(w: World, v: World) {
    v.years == w.years && v.batches == w.batches && v.rollovers == w.rollovers
  }

  lemma MoveKeepsTables(w: World, plan: Plan, d: Decision, cut: Option<Break>)
    ensures SameTables(w, Reached(MoveStep(w, plan, d), cut).world)
  {
    MoveStatesSame(w, plan, d);
    var s := MoveStep(w, plan, d);
    assert Reached(s, cut).world in s.before || s.done == Some(Reached(s, cut).world);
  }

  lemma MoveStatesSame(w: World, plan: Plan, d: Decision)
    ensures forall v <- MoveStep(w, plan, d).before :: SameTables(w, v)
    ensures MoveStep(w, plan, d).done.Some? ==> SameTables(w, MoveStep(w, plan, d).done.value)
  {
  }

  lemma ExitKeepsTables(w: World, plan: Plan, d: Decision, cut: Option<Break>)
    requires Executable(d.final) && !Moves(d.final) && d.profile < |w.profiles|
    ensures var v := Reached(ExitStep(w, plan, d, TerminalStatus(d.final)), cut).world;
            v.years == w.years && v.batches == w.batches && v.rollovers == w.rollovers
  {
  }

  lemma IterationKeepsTables(p: Progress, plan: Plan, faults: Faults, id: Id)
    requires id < |plan.decisions|
    ensures var v := Student(p, plan, faults, id).world;
            v.years == p.world.years && v.batches == p.world.batches && v.rollovers == p.world.rollovers
  {
    var d, cut := plan.decisions[id], BreakAt(faults, id);
    StepKeepsTables(p.world, plan, d, cut);
    SettledWorld(p, d.final, Reached(StepOf(p.world, plan, d), cut), id, faults.transactional);
  }

  lemma CleanEnd(w: World, r: Result<Finish>, q: Progress, plan: Plan)
    requires Ends(r, q, plan, true) && q.saved.failed == 0 && AllCarried(w, q.world, plan)
    requires q.world.years == w.years && q.world.rollovers == w.rollovers
    requires Preview(plan.decisions) == TallyPreview(q.saved)
    ensures EndsClean(w, r, plan)
  {
    FlipCarries(w, q.world, plan);
    FlipResult(w.years, plan.source, plan.target);
  }

  lemma FlipCarries(w: World, u: World, plan: Plan)
    requires AllCarried(w, u, plan) && plan.source < |u.years| && plan.target < |u.years|
    ensures AllCarried(w, Flipped(u, plan), plan)
  {
    forall i | 0 <= i < |plan.decisions| ensures CarriedOut(w, Flipped(u, plan), plan, plan.decisions[i]) {
      assert CarriedOut(w, u, plan, plan.decisions[i]);
    }
  }
}
