/** A promotion session: review, preparation, lock and execution, as functions on its row. */
module Sessions {
  import opened Records
  import opened Execution
  import opened Validation
  import opened Staleness
  import opened Preparation

  datatype ReviewStatus = Draft | Approved

  datatype PrepStatus = Untouched | InProgress | Locked | Invalid

  datatype Override = Override(decision: Id, from: Action, to: Action)

  datatype Counts = Counts(ready: nat, blocked: nat)

  /** The confirmation token: an injective digest of what it is computed from. */
  datatype Token = Digest(fingerprint: Fingerprint, validatedAt: Option<nat>, students: Option<Counts>)

  /** The saved validation snapshot; each part may be absent. */
  datatype Report = Report(validatedAt: Option<nat>, students: Option<Counts>, token: Option<Token>)

  const NO_REPORT := Report(Option.None, Option.None, Option.None)

  datatype RunRow = RunRow(saved: Tally, logs: seq<Log>, status: ExecStatus)

  datatype Session = Session(
    source: Id, target: Id, status: ReviewStatus, preparation: PrepStatus, execution: ExecStatus,
    report: Report, preview: Option<Impact>, fingerprint: Option<Fingerprint>,
    decisions: seq<Decision>, mappings: seq<Mapping>, overrides: seq<Override>, runs: seq<RunRow>)

  const MIN_REASON: nat := 10

  function PlanOf(s: Session): Plan {
    Plan(s.source, s.target, s.decisions)
  }

  // ---------------------------------------------------------------- review

  function ApplyOverride(s: Session, id: Id, a: Action): Session
    requires id < |s.decisions|
  {
    var d := s.decisions[id];
    s.(overrides := s.overrides + [Override(id, d.final, a)],
       decisions := s.decisions[id := d.(final := a, overridden := true)])
  }

  /** reason is the length of the stripped reason text. */
  function OverrideDecision(s: Session, id: Id, a: Action, reason: nat): Result<Session> {
    if s.status != Draft then Err(Denied)
    else if reason < MIN_REASON || id >= |s.decisions| then Err(Rejected)
    else Ok(ApplyOverride(s, id, a))
  }

  datatype Selection =
    | ByIds(ids: set<Id>)
    | ByFilter(action: Option<Action>, course: Option<Id>, batch: Option<Id>)

  predicate Selects(sel: Selection, id: Id, d: Decision) {
    match sel
    case ByIds(ids) => id in ids
    case ByFilter(action, course, batch) =>
      && (action.Some? ==> d.final == action.value)
      && (course.Some? ==> d.course == course)
      && (batch.Some? ==> d.batch == batch)
  }

  predicate EmptySelection(sel: Selection) {
    sel == ByIds({}) || sel == ByFilter(Option.None, Option.None, Option.None)
  }

  /** The selected decisions, in order. */
  function Selected(sel: Selection, ds: seq<Decision>): (r: seq<Id>)
    ensures forall i: Id :: i in r <==> i < |ds| && Selects(sel, i, ds[i])
    ensures forall k :: 0 <= k < |r| ==> r[k] < |ds|
    ensures forall j, k :: 0 <= j < k < |r| ==> r[j] < r[k]
  {
    if ds == [] then []
    else
      var n := |ds| - 1;
      var rest := Selected(sel, ds[..n]);
      if Selects(sel, n, ds[n]) then rest + [n] else rest
  }

  predicate AlreadySo(d: Decision, a: Action) {
    d.final == a && d.overridden
  }

  function OverrideMany(s: Session, ids: seq<Id>, a: Action): (r: Session)
    requires forall k :: 0 <= k < |ids| ==> ids[k] < |s.decisions|
    ensures |r.decisions| == |s.decisions|
  {
    if ids == [] then s
    else
      var n := ids[|ids| - 1];
      var t := OverrideMany(s, ids[..|ids| - 1], a);
      if AlreadySo(t.decisions[n], a) then t else ApplyOverride(t, n, a)
  }

  function BulkOverride(s: Session, sel: Selection, a: Action, reason: nat): Result<Session> {
    if s.status != Draft then Err(Denied)
    else if reason < MIN_REASON || EmptySelection(sel) || Selected(sel, s.decisions) == [] then Err(Rejected)
    else Ok(OverrideMany(s, Selected(sel, s.decisions), a))
  }

  function CountFinal(ds: seq<Decision>, a: Action): nat {
    if ds == [] then 0
    else CountFinal(ds[..|ds| - 1], a) + if ds[|ds| - 1].final == a then 1 else 0
  }

  function Approve(s: Session): Result<Session> {
    if s.status == Approved then Err(Rejected)
    else if CountFinal(s.decisions, Pending) + CountFinal(s.decisions, ManualReview) > 0 then Err(Rejected)
    else Ok(s.(status := Approved))
  }

  function Cleared(d: Decision): Decision {
    d.(readiness := Option.None, reasons := [], targetCourse := Option.None, targetBatch := Option.None,
       targetSection := BLANK, fee := Option.None)
  }

  function ClearAll(ds: seq<Decision>): (r: seq<Decision>)
    ensures |r| == |ds|
    ensures forall i :: 0 <= i < |ds| ==> r[i] == Cleared(ds[i])
  {
    seq(|ds|, i requires 0 <= i < |ds| => Cleared(ds[i]))
  }

  function Reopen(s: Session, reason: nat): Result<Session> {
    if s.status != Approved then Err(Rejected)
    else if s.execution != NotStarted then Err(Denied)
    else if reason < MIN_REASON then Err(Rejected)
    else Ok(s.(status := Draft, preparation := Untouched, report := NO_REPORT, preview := Option.None,
               fingerprint := Option.None, decisions := ClearAll(s.decisions)))
  }

  // ---------------------------------------------------------------- preparation

  predicate Editable(s: Session) {
    s.preparation != Locked
  }

  datatype Effect = Both(session: Session, world: World)

  function WithPlacement(s: Session, p: Prepared): Effect {
    Both(s.(mappings := p.mappings, decisions := p.decisions), p.world)
  }

  function StartPreparation(s: Session, w: World): Result<Effect> {
    if s.status != Approved then Err(NotFound)
    else if !Editable(s) then Err(Denied)
    else
      match Prepare(w, s.target, s.mappings, s.decisions)
      case Err(e) => Err(e)
      case Ok(p) =>
        Ok(WithPlacement(s.(preparation := if s.preparation == Untouched then InProgress else s.preparation), p))
  }

  /** Upserts the rows, then provisions sections and applies destinations. */
  function StoreMappings(s: Session, w: World, rows: seq<Mapping>): Result<Effect> {
    if s.status != Approved then Err(NotFound)
    else if !Editable(s) then Err(Denied)
    else if exists m :: m in rows && m.target >= |w.courses| then Err(Rejected)
    else
      match Place(w, s.target, UpsertAll(s.mappings, rows), s.decisions)
      case Err(e) => Err(e)
      case Ok(p) => Ok(WithPlacement(s, p))
  }

  /** The update answers with the listing, which may place once more. */
  function UpdateClassMappings(s: Session, w: World, rows: seq<Mapping>): Result<Effect> {
    match StoreMappings(s, w, rows)
    case Err(e) => Err(e)
    case Ok(stored) => ListClassMappings(stored.session, stored.world)
  }

  /** Some moved student has no section yet. */
  predicate Unplaced(ds: seq<Decision>) {
    exists d :: d in ds && Moves(d.final) && d.targetBatch.None?
  }

  /** Listing the mappings fills in missing destinations while they may be edited. */
  function ListClassMappings(s: Session, w: World): Result<Effect> {
    if s.status != Approved then Err(NotFound)
    else if !Editable(s) || !Unplaced(s.decisions) then Ok(Both(s, w))
    else
      match Place(w, s.target, s.mappings, s.decisions)
      case Err(e) => Err(e)
      case Ok(p) => Ok(WithPlacement(s, p))
  }

  datatype Assignment = Assignment(decision: Id, batch: Option<Id>)

  function AssignOne(w: World, year: Id, ds: seq<Decision>, a: Assignment): (r: Result<seq<Decision>>)
    ensures r.Ok? ==> |r.value| == |ds|
  {
    if a.decision >= |ds| then Ok(ds)
    else if a.batch.None? then
      Ok(ds[a.decision := ds[a.decision].(targetBatch := Option.None, targetSection := BLANK)])
    else
      var b := GetBatch(w, a.batch);
      if b.None? || w.batches[b.value].year != year then Err(Rejected)
      else Ok(ds[a.decision := ds[a.decision].(
        targetBatch := b, targetSection := w.batches[b.value].name, targetCourse := Some(w.batches[b.value].course))])
  }

  function Assign(w: World, year: Id, ds: seq<Decision>, asg: seq<Assignment>): (r: Result<seq<Decision>>)
    ensures r.Ok? ==> |r.value| == |ds|
  {
    if asg == [] then Ok(ds)
    else
      match Assign(w, year, ds, asg[..|asg| - 1])
      case Err(e) => Err(e)
      case Ok(es) => AssignOne(w, year, es, asg[|asg| - 1])
  }

  function UpdateSectionMappings(s: Session, w: World, asg: seq<Assignment>): Result<Session> {
    if s.status != Approved then Err(NotFound)
    else if !Editable(s) then Err(Denied)
    else
      match Assign(w, s.target, s.decisions, asg)
      case Err(e) => Err(e)
      case Ok(ds) => Ok(s.(decisions := ds))
  }

  // ---------------------------------------------------------------- validation, lock, staleness

  predicate AlreadyRolledOver(w: World, source: Id, target: Id) {
    w.rollovers != [] &&
    var r := w.rollovers[|w.rollovers| - 1];
    r.status == RollSucceeded && r.from == source && r.to == Some(target)
  }

  /** The session-level audit: both years live, the source current, the switch not yet made. */
  predicate CanProceed(w: World, source: Id, target: Id) {
    && source < |w.years| && w.years[source].live && w.years[source].current
    && target < |w.years| && w.years[target].live
    && !AlreadyRolledOver(w, source, target)
  }

  function CountsOf(ds: seq<Decision>): Counts {
    Counts(CountReadiness(ds, Ready), CountReadiness(ds, Blocked))
  }

  function CanLock(s: Session, w: World): bool {
    CanProceed(w, s.source, s.target) && CountsOf(s.decisions).ready > 0 && CountsOf(s.decisions).blocked == 0
  }

  /** Validation replaces the whole snapshot, the token included. */
  function Validate(s: Session, w: World, now: nat): Result<Session> {
    if s.status != Approved then Err(NotFound)
    else if s.preparation == Locked then Err(Denied)
    else
      var ds := ValidateAll(w, PlanOf(s), s.decisions);
      Ok(s.(decisions := ds, report := Report(Some(now), Some(CountsOf(ds)), Option.None),
            preview := Some(Preview(ds)),
            preparation := if s.preparation == Untouched then InProgress else s.preparation))
  }

  /** Reading the state of a locked session marks it invalid when the live fingerprint has drifted. */
  function ReadState(s: Session, w: World): Result<Session> {
    if s.status != Approved then Err(NotFound)
    else if s.preparation != Locked then Ok(s)
    else
      match Compare(w, s.fingerprint, Build(w, PlanOf(s), s.mappings))
      case Err(e) => Err(e)
      case Ok(changes) => if changes == [] then Ok(s) else Ok(s.(preparation := Invalid))
  }

  /** The row that locking writes.  Decisions and preview come from the validation it runs; the
      snapshot is the one loaded before that validation, plus the token. */
  function LockedRow(s: Session, v: Session, fp: Fingerprint): Session {
    v.(preparation := Locked, fingerprint := Some(fp),
       report := s.report.(token := Some(Digest(fp, s.report.validatedAt, s.report.students))))
  }

  function Lock(s: Session, w: World, now: nat): Result<Session> {
    if s.status != Approved then Err(NotFound)
    else if s.preparation == Locked then Err(Rejected)
    else
      match Validate(s, w, now)
      case Err(e) => Err(e)
      case Ok(v) =>
        if !CanLock(v, w) then Err(Rejected)
        else ReadState(LockedRow(s, v, Build(w, PlanOf(v), v.mappings)), w)
  }

  function Unlock(s: Session, reason: nat): Result<Session> {
    if s.status != Approved then Err(NotFound)
    else if s.execution != NotStarted then Err(Denied)
    else if s.preparation != Locked && s.preparation != Invalid then Err(Rejected)
    else if reason < MIN_REASON then Err(Rejected)
    else Ok(s.(preparation := InProgress, fingerprint := Option.None))
  }

  // ---------------------------------------------------------------- execution

  /** The count that blocks execution: from the saved snapshot when it has one, else live. */
  function BlockedCount(s: Session): nat {
    if s.report.students.Some? then s.report.students.value.blocked else CountReadiness(s.decisions, Blocked)
  }

  predicate DestinationStands(w: World, plan: Plan, d: Decision) {
    Moves(d.final) ==>
      && GetBatch(w, d.targetBatch).Some? && w.batches[d.targetBatch.value].year == plan.target
      && d.fee.Some? && d.fee.value < |w.fees| && w.fees[d.fee.value].live && w.fees[d.fee.value].published
      && ActiveEnrollment(w.enrollments, d.profile, plan.target).None?
  }

  predicate AllDestinationsStand(w: World, plan: Plan) {
    forall d :: d in plan.decisions && d.readiness == Some(Ready) ==> DestinationStands(w, plan, d)
  }

  /** The checks before execution; None means that they pass. */
  function PreExecutionChecks(s: Session, w: World): Option<Error> {
    if s.status != Approved || s.preparation != Locked then Some(Denied)
    else
      var read := ReadState(s, w);
      if read.Err? then Some(read.error)
      else if read.value.preparation == Invalid then Some(Rejected)
      else if !CanProceed(w, s.source, s.target) then Some(Rejected)
      else if s.execution == Succeeded then Some(Rejected)
      else if s.execution == Running && s.runs != [] then Option.None
      else if ReadyIds(s.decisions) == [] then Some(Rejected)
      else if BlockedCount(s) > 0 then Some(Rejected)
      else if !AllDestinationsStand(w, PlanOf(s)) then Some(Rejected)
      else Option.None
  }

  /** running is the session of this branch that is now executing, me is this session's id; phrase says
      that the typed phrase matched.  A refused start rolls back, the invalid mark included. */
  function StartExecution(s: Session, w: World, me: Id, running: Option<Id>, phrase: bool, token: Option<Token>)
    : Result<Session>
  {
    if s.status != Approved then Err(NotFound)
    else if running.Some? && running.value != me then Err(OtherRunning(running.value))
    else if running.Some? && s.runs != [] then Ok(s)
    else if !phrase then Err(Rejected)
    else
      var refused := PreExecutionChecks(s, w);
      if refused.Some? then Err(refused.value)
      else if s.report.token.None? || token != s.report.token then Err(Rejected)
      else Ok(s.(execution := Running, runs := s.runs + [RunRow(ZERO, [], Running)]))
  }

  /** The task of one run; it may be delivered again for a run that already ended.  Inside its caller's
      transaction an exception out of it undoes everything, its marks included. */
  function PerformRun(s: Session, w: World, run: Id, faults: Faults): Result<Effect> {
    if run >= |s.runs| then Err(NotFound)
    else
      var row := s.runs[run];
      match RunTask(Progress(w, row.saved, row.saved, row.logs, false), PlanOf(s), faults)
      case Err(e) => Err(e)
      case Ok(f) =>
        Ok(Both(s.(execution := f.status, runs := s.runs[run := RunRow(f.progress.saved, f.progress.logs, f.status)]),
                f.progress.world))
  }
}
