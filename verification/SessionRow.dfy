/** The promotion session as a mutable row.  Every method is one transaction: it either makes the
    change that the function of Sessions describes, or raises and leaves everything as it was. */
module SessionRow {
  import opened Records
  import opened Tables
  import opened Execution
  import opened Validation
  import opened Staleness
  import opened Preparation
  import opened Sessions
  import opened Lifecycle

  function ErrorOf<T>(r: Result<T>): Option<Error> {
    match r
    case Ok(_) => Option.None
    case Err(e) => Some(e)
  }

  /** The row after a transaction that may have failed. */
  function RowAfter(r: Result<Session>, before: Session): Session {
    if r.Ok? then r.value else before
  }

  function EffectAfter(r: Result<Effect>, s: Session, w: World): Effect {
    if r.Ok? then r.value else Both(s, w)
  }

  /** Loads a saved run, executes it and gives the row it ends as; none when everything is undone. */
  method ResumeRow(db: Database, row: RunRow, plan: Plan, faults: Faults) returns (r: Option<RunRow>)
    modifies db
    ensures match RunTask(Progress(old(db.Rows()), row.saved, row.saved, row.logs, false), plan, faults)
            case Ok(f) =>
              db.Rows() == f.progress.world && r == Some(RunRow(f.progress.saved, f.progress.logs, f.status))
            case Err(_) => db.Rows() == old(db.Rows()) && r.None?
  {
    var run := new ExecutionRun();
    run.memory, run.saved, run.logs := row.saved, row.saved, row.logs;
    var ended := ExecuteRun(db, run, plan, faults);
    r := if ended.None? then Option.None else Some(RunRow(run.saved, run.logs, ended.value));
  }

  class PromotionSession {
    const source: Id
    const target: Id
    var status: ReviewStatus
    var preparation: PrepStatus
    var execution: ExecStatus
    var report: Report
    var preview: Option<Impact>
    var fingerprint: Option<Fingerprint>
    var decisions: seq<Decision>
    var mappings: seq<Mapping>
    var overrides: seq<Override>
    var runs: seq<RunRow>

    constructor (source: Id, target: Id, decisions: seq<Decision>)
      ensures Row() == Session(source, target, Draft, Untouched, NotStarted, NO_REPORT, Option.None,
                               Option.None, decisions, [], [], [])
    {
      this.source, this.target, this.decisions := source, target, decisions;
      status, preparation, execution := Draft, Untouched, NotStarted;
      report, preview, fingerprint := NO_REPORT, Option.None, Option.None;
      mappings, overrides, runs := [], [], [];
    }

    function Row(): Session
      reads this
    {
      Session(source, target, status, preparation, execution, report, preview, fingerprint,
              decisions, mappings, overrides, runs)
    }

    // -------------------------------------------------------------- review

    /** Logs one override, then rewrites the decision. */
    method Record(id: Id, a: Action)
      requires id < |decisions|
      modifies this
      ensures Row() == ApplyOverride(old(Row()), id, a)
    {
      overrides := overrides + [Override(id, decisions[id].final, a)];
      decisions := decisions[id := decisions[id].(final := a, overridden := true)];
    }

    method OverrideDecision(id: Id, a: Action, reason: nat) returns (e: Option<Error>)
      modifies this
      ensures e == ErrorOf(Sessions.OverrideDecision(old(Row()), id, a, reason))
      ensures Row() == RowAfter(Sessions.OverrideDecision(old(Row()), id, a, reason), old(Row()))
    {
      if status != Draft { return Some(Denied); }
      if reason < MIN_REASON || id >= |decisions| { return Some(Rejected); }
      Record(id, a);
      e := Option.None;
    }

    /** Records the override for each listed decision that does not have it yet. */
    method RecordEach(ids: seq<Id>, a: Action) returns (updated: nat)
      requires forall k :: 0 <= k < |ids| ==> ids[k] < |decisions|
      modifies this
      ensures Row() == OverrideMany(old(Row()), ids, a)
      ensures |overrides| == |old(overrides)| + updated
    {
      updated := 0;
      for i := 0 to |ids|
        invariant |decisions| == |old(decisions)|
        invariant Row() == OverrideMany(old(Row()), ids[..i], a)
        invariant |overrides| == |old(overrides)| + updated
      {
        assert ids[..i + 1][..i] == ids[..i];
        if !AlreadySo(decisions[ids[i]], a) {
          Record(ids[i], a);
          updated := updated + 1;
        }
      }
      assert ids[..|ids|] == ids;
    }

    /** Also reports how many log rows it wrote. */
    method BulkOverride(sel: Selection, a: Action, reason: nat) returns (e: Option<Error>, updated: nat)
      modifies this
      ensures e == ErrorOf(Sessions.BulkOverride(old(Row()), sel, a, reason))
      ensures Row() == RowAfter(Sessions.BulkOverride(old(Row()), sel, a, reason), old(Row()))
      ensures |overrides| == |old(overrides)| + updated
    {
      updated := 0;
      if status != Draft { return Some(Denied), 0; }
      if reason < MIN_REASON || EmptySelection(sel) { return Some(Rejected), 0; }
      var ids := Selected(sel, decisions);
      if ids == [] { return Some(Rejected), 0; }
      updated := RecordEach(ids, a);
      e := Option.None;
    }

    method Approve() returns (e: Option<Error>)
      modifies this
      ensures e == ErrorOf(Sessions.Approve(old(Row())))
      ensures Row() == RowAfter(Sessions.Approve(old(Row())), old(Row()))
    {
      if status == Approved { return Some(Rejected); }
      if CountFinal(decisions, Pending) + CountFinal(decisions, ManualReview) > 0 { return Some(Rejected); }
      status := Approved;
      e := Option.None;
    }

    method Reopen(reason: nat) returns (e: Option<Error>)
      modifies this
      ensures e == ErrorOf(Sessions.Reopen(old(Row()), reason))
      ensures Row() == RowAfter(Sessions.Reopen(old(Row()), reason), old(Row()))
    {
      if status != Approved { return Some(Rejected); }
      if execution != NotStarted { return Some(Denied); }
      if reason < MIN_REASON { return Some(Rejected); }
      decisions := ClearAll(decisions);
      status, preparation := Draft, Untouched;
      report, preview, fingerprint := NO_REPORT, Option.None, Option.None;
      e := Option.None;
    }

    // -------------------------------------------------------------- preparation

    /** Provisions sections and applies destinations for the given mappings. */
    method PlaceAll(db: Database, ms: seq<Mapping>) returns (ok: bool)
      modifies this, db
      ensures var r := Place(old(db.Rows()), target, ms, old(decisions));
              && (ok <==> r.Ok?) && (!ok ==> r == Err(Integrity))
              && (ok ==> Row() == WithPlacement(old(Row()), r.value).session && db.Rows() == r.value.world)
              && (!ok ==> Row() == old(Row()) && db.Rows() == old(db.Rows()))
    {
      var savepoint := db.Rows();
      ProvideRaises(savepoint, target, Needs(ms, decisions));
      ok := ProvisionTargetBatches(db, target, ms, decisions);
      if !ok {
        db.RollbackTo(savepoint);
        return;
      }
      decisions := ApplyDestinations(db.Rows(), target, ms, decisions);
      mappings := ms;
    }

    method StartPreparation(db: Database) returns (e: Option<Error>)
      modifies this, db
      ensures var r := Sessions.StartPreparation(old(Row()), old(db.Rows()));
              && e == ErrorOf(r)
              && Both(Row(), db.Rows()) == EffectAfter(r, old(Row()), old(db.Rows()))
    {
      if status != Approved { return Some(NotFound); }
      if !Editable(Row()) { return Some(Denied); }
      var seeded := SeedClassMappings(db.courses, mappings, decisions);
      var ok := PlaceAll(db, seeded);
      if !ok { return Some(Integrity); }
      if preparation == Untouched { preparation := InProgress; }
      e := Option.None;
    }

    method UpdateClassMappings(db: Database, rows: seq<Mapping>) returns (e: Option<Error>)
      modifies this, db
      ensures var r := Sessions.UpdateClassMappings(old(Row()), old(db.Rows()), rows);
              && e == ErrorOf(r)
              && Both(Row(), db.Rows()) == EffectAfter(r, old(Row()), old(db.Rows()))
    {
      var before, savepoint := Row(), db.Rows();
      e := StoreMappings(db, rows);
      if e.None? {
        e := ListClassMappings(db);
        if e.Some? {
          RollbackTo(before);
          db.RollbackTo(savepoint);
        }
      }
    }

    method StoreMappings(db: Database, rows: seq<Mapping>) returns (e: Option<Error>)
      modifies this, db
      ensures var r := Sessions.StoreMappings(old(Row()), old(db.Rows()), rows);
              && e == ErrorOf(r)
              && Both(Row(), db.Rows()) == EffectAfter(r, old(Row()), old(db.Rows()))
    {
      if status != Approved { return Some(NotFound); }
      if !Editable(Row()) { return Some(Denied); }
      var ms := mappings;
      for i := 0 to |rows|
        invariant forall k :: 0 <= k < i ==> rows[k].target < |db.courses|
        invariant ms == UpsertAll(mappings, rows[..i])
        invariant Row() == old(Row()) && db.Rows() == old(db.Rows())
      {
        if rows[i].target >= |db.courses| {
          assert rows[i] in rows;
          return Some(Rejected);
        }
        ms := Upsert(ms, rows[i]);
        assert rows[..i + 1][..i] == rows[..i];
      }
      assert rows[..|rows|] == rows;
      var ok := PlaceAll(db, ms);
      e := if ok then Option.None else Some(Integrity);
    }

    method ListClassMappings(db: Database) returns (e: Option<Error>)
      modifies this, db
      ensures var r := Sessions.ListClassMappings(old(Row()), old(db.Rows()));
              && e == ErrorOf(r)
              && Both(Row(), db.Rows()) == EffectAfter(r, old(Row()), old(db.Rows()))
    {
      if status != Approved { return Some(NotFound); }
      e := Option.None;
      if Editable(Row()) && Unplaced(decisions) {
        var ok := PlaceAll(db, mappings);
        e := if ok then Option.None else Some(Integrity);
      }
    }

    method UpdateSectionMappings(db: Database, asg: seq<Assignment>) returns (e: Option<Error>)
      modifies this
      ensures e == ErrorOf(Sessions.UpdateSectionMappings(old(Row()), db.Rows(), asg))
      ensures Row() == RowAfter(Sessions.UpdateSectionMappings(old(Row()), db.Rows(), asg), old(Row()))
    {
      if status != Approved { return Some(NotFound); }
      if !Editable(Row()) { return Some(Denied); }
      var savepoint := decisions;
      for i := 0 to |asg|
        invariant Row() == old(Row()).(decisions := decisions)
        invariant Assign(db.Rows(), target, savepoint, asg[..i]) == Ok(decisions)
      {
        assert asg[..i + 1][..i] == asg[..i];
        var next := AssignOne(db.Rows(), target, decisions, asg[i]);
        if next.Err? {
          decisions := savepoint;
          AssignFails(db.Rows(), target, savepoint, asg, i + 1);
          return Some(next.error);
        }
        decisions := next.value;
      }
      assert asg[..|asg|] == asg;
      e := Option.None;
    }

    // -------------------------------------------------------------- validation, lock, staleness

    method ValidateEach(w: World, plan: Plan)
      modifies this`decisions
      ensures decisions == ValidateAll(w, plan, old(decisions))
    {
      for i := 0 to |decisions|
        invariant |decisions| == |old(decisions)|
        invariant forall k :: 0 <= k < i ==> decisions[k] == Validated(w, plan, old(decisions)[k])
        invariant forall k :: i <= k < |decisions| ==> decisions[k] == old(decisions)[k]
      {
        var v := ValidateDecision(w, plan, decisions[i]);
        var fee := if v.fee.Some? then v.fee else decisions[i].fee;
        decisions := decisions[i := decisions[i].(readiness := Some(v.readiness), reasons := v.reasons, fee := fee)];
      }
    }

    method RunValidation(db: Database, now: nat) returns (e: Option<Error>)
      modifies this
      ensures e == ErrorOf(Validate(old(Row()), db.Rows(), now))
      ensures Row() == RowAfter(Validate(old(Row()), db.Rows(), now), old(Row()))
    {
      if status != Approved { return Some(NotFound); }
      if preparation == Locked { return Some(Denied); }
      ValidateEach(db.Rows(), PlanOf(Row()));
      SaveReport(now);
      e := Option.None;
    }

    /** Replaces the snapshot and the preview by those of the decisions as they are now. */
    method SaveReport(now: nat)
      modifies this`report, this`preview, this`preparation
      ensures report == Report(Some(now), Some(CountsOf(decisions)), Option.None)
      ensures preview == Some(Preview(decisions))
      ensures preparation == if old(preparation) == Untouched then InProgress else old(preparation)
    {
      report := Report(Some(now), Some(CountsOf(decisions)), Option.None);
      preview := Some(Preview(decisions));
      if preparation == Untouched { preparation := InProgress; }
    }

    method ReadState(db: Database) returns (e: Option<Error>)
      modifies this
      ensures e == ErrorOf(Sessions.ReadState(old(Row()), db.Rows()))
      ensures Row() == RowAfter(Sessions.ReadState(old(Row()), db.Rows()), old(Row()))
    {
      if status != Approved { return Some(NotFound); }
      e := Option.None;
      if preparation == Locked {
        var live := BuildFingerprint(db.Rows(), PlanOf(Row()), mappings);
        var changes := CompareFingerprints(db.Rows(), fingerprint, live);
        if changes.Err? { return Some(changes.error); }
        if changes.value != [] { preparation := Invalid; }
      }
    }

    /** Puts a row back, as the end of a failed transaction does. */
    method RollbackTo(s: Session)
      requires s.source == source && s.target == target
      modifies this
      ensures Row() == s
    {
      status, preparation, execution, report := s.status, s.preparation, s.execution, s.report;
      preview, fingerprint, decisions := s.preview, s.fingerprint, s.decisions;
      mappings, overrides, runs := s.mappings, s.overrides, s.runs;
    }

    /** Saves the lock, then writes the given snapshot back with the confirmation token in it. */
    method SaveLock(snapshot: Report, fp: Fingerprint)
      modifies this`preparation, this`fingerprint, this`report
      ensures preparation == Locked && fingerprint == Some(fp)
      ensures report == snapshot.(token := Some(Digest(fp, snapshot.validatedAt, snapshot.students)))
    {
      preparation, fingerprint := Locked, Some(fp);
      var token := Digest(fp, snapshot.validatedAt, snapshot.students);
      report := snapshot.(token := Some(token));
    }

    /** The snapshot read before validation is the one saved with the token. */
    method LockPreparation(db: Database, now: nat) returns (e: Option<Error>)
      modifies this
      ensures e == ErrorOf(Lock(old(Row()), db.Rows(), now))
      ensures Row() == RowAfter(Lock(old(Row()), db.Rows(), now), old(Row()))
    {
      if status != Approved { return Some(NotFound); }
      if preparation == Locked { return Some(Rejected); }
      var before := Row();
      e := RunValidation(db, now);
      if !CanLock(Row(), db.Rows()) {
        RollbackTo(before);
        return Some(Rejected);
      }
      var fp := BuildFingerprint(db.Rows(), PlanOf(Row()), mappings);
      SaveLock(before.report, fp);
      e := ReadState(db);
      if e.Some? { RollbackTo(before); }
    }

    method UnlockPreparation(reason: nat) returns (e: Option<Error>)
      modifies this
      ensures e == ErrorOf(Unlock(old(Row()), reason))
      ensures Row() == RowAfter(Unlock(old(Row()), reason), old(Row()))
    {
      if status != Approved { return Some(NotFound); }
      if execution != NotStarted { return Some(Denied); }
      if preparation != Locked && preparation != Invalid { return Some(Rejected); }
      if reason < MIN_REASON { return Some(Rejected); }
      preparation, fingerprint := InProgress, Option.None;
      e := Option.None;
    }

    // -------------------------------------------------------------- execution

    method StartExecution(db: Database, me: Id, running: Option<Id>, phrase: bool, token: Option<Token>)
      returns (e: Option<Error>)
      modifies this
      ensures e == ErrorOf(Sessions.StartExecution(old(Row()), db.Rows(), me, running, phrase, token))
      ensures Row() ==
              RowAfter(Sessions.StartExecution(old(Row()), db.Rows(), me, running, phrase, token), old(Row()))
    {
      if status != Approved { return Some(NotFound); }
      if running.Some? && running.value != me { return Some(OtherRunning(running.value)); }
      if running.Some? && runs != [] { return Option.None; }
      if !phrase { return Some(Rejected); }
      var refused := PreExecutionChecks(Row(), db.Rows());
      if refused.Some? { return refused; }
      if report.token.None? || token != report.token { return Some(Rejected); }
      runs := runs + [RunRow(ZERO, [], Running)];
      execution := Running;
      e := Option.None;
    }

    /** Runs the task of one run and saves its row and the session's status. */
    method PerformRun(db: Database, id: Id, faults: Faults) returns (e: Option<Error>)
      modifies this, db
      ensures var r := Sessions.PerformRun(old(Row()), old(db.Rows()), id, faults);
              e == ErrorOf(r) && Both(Row(), db.Rows()) == EffectAfter(r, old(Row()), old(db.Rows()))
    {
      if id >= |runs| { return Some(NotFound); }
      var row := ResumeRow(db, runs[id], PlanOf(Row()), faults);
      if row.None? { return Some(Crash); }
      runs := runs[id := row.value];
      execution := row.value.status;
      e := Option.None;
    }

    // -------------------------------------------------------------- every operation

    ghost predicate Valid()
      reads this
    {
      Invariant(Row())
    }

    /** Any operation on the row: it does in place what Apply says, error included, and keeps Valid. */
    method Perform(db: Database, op: Op) returns (e: Option<Error>)
      requires Valid()
      modifies this, db
      ensures Valid()
      ensures var r := Apply(old(Row()), old(db.Rows()), op);
              e == ErrorOf(r) && Both(Row(), db.Rows()) == EffectAfter(r, old(Row()), old(db.Rows()))
    {
      ghost var s, w := Row(), db.Rows();
      match op {
        case DoOverride(_, _, _) => e := ReviewOp(op);
        case DoBulkOverride(_, _, _) => e := ReviewOp(op);
        case DoApprove => e := ReviewOp(op);
        case DoReopen(_) => e := ReviewOp(op);
        case DoStartPreparation => e := PrepareOp(db, op);
        case DoUpdateMappings(_) => e := PrepareOp(db, op);
        case DoListMappings => e := PrepareOp(db, op);
        case DoPerformRun(run, faults) => e := PerformRun(db, run, faults);
        case DoAssign(_) => e := CheckOp(db, op);
        case DoValidate(_) => e := CheckOp(db, op);
        case DoReadState => e := CheckOp(db, op);
        case _ => e := LockOp(db, op);
      }
      if Apply(s, w, op).Ok? { ApplyKeeps(s, w, op); }
    }

    method ReviewOp(op: Op) returns (e: Option<Error>)
      requires op.DoOverride? || op.DoBulkOverride? || op.DoApprove? || op.DoReopen?
      modifies this
      ensures forall w :: var r := Apply(old(Row()), w, op);
                e == ErrorOf(r) && Both(Row(), w) == EffectAfter(r, old(Row()), w)
    {
      var updated;
      match op {
        case DoOverride(id, a, reason) => e := OverrideDecision(id, a, reason);
        case DoBulkOverride(sel, a, reason) => e, updated := BulkOverride(sel, a, reason);
        case DoApprove => e := Approve();
        case DoReopen(reason) => e := Reopen(reason);
      }
    }

    method PrepareOp(db: Database, op: Op) returns (e: Option<Error>)
      requires op.DoStartPreparation? || op.DoUpdateMappings? || op.DoListMappings?
      modifies this, db
      ensures var r := Apply(old(Row()), old(db.Rows()), op);
              e == ErrorOf(r) && Both(Row(), db.Rows()) == EffectAfter(r, old(Row()), old(db.Rows()))
    {
      match op {
        case DoStartPreparation => e := StartPreparation(db);
        case DoUpdateMappings(rows) => e := UpdateClassMappings(db, rows);
        case DoListMappings => e := ListClassMappings(db);
      }
    }

    method CheckOp(db: Database, op: Op) returns (e: Option<Error>)
      requires op.DoAssign? || op.DoValidate? || op.DoReadState?
      modifies this
      ensures var r := Apply(old(Row()), db.Rows(), op);
              e == ErrorOf(r) && Both(Row(), db.Rows()) == EffectAfter(r, old(Row()), db.Rows())
    {
      match op {
        case DoAssign(asg) => e := UpdateSectionMappings(db, asg);
        case DoValidate(now) => e := RunValidation(db, now);
        case DoReadState => e := ReadState(db);
      }
    }

    method LockOp(db: Database, op: Op) returns (e: Option<Error>)
      requires op.DoLock? || op.DoUnlock? || op.DoStart?
      modifies this
      ensures var r := Apply(old(Row()), db.Rows(), op);
              e == ErrorOf(r) && Both(Row(), db.Rows()) == EffectAfter(r, old(Row()), db.Rows())
    {
      match op {
        case DoLock(now) => e := LockPreparation(db, now);
        case DoUnlock(reason) => e := UnlockPreparation(reason);
        case DoStart(me, running, phrase, token) => e := StartExecution(db, me, running, phrase, token);
      }
    }
  }

  lemma {:induction false} ProvideRaises(w: World, year: Id, ns: seq<Need>)
    ensures Provide(w, year, ns).Err? ==> Provide(w, year, ns) == Err(Integrity)
  {
    if ns != [] { ProvideRaises(w, year, ns[..|ns| - 1]); }
  }

  lemma {:induction false} AssignFails(w: World, year: Id, ds: seq<Decision>, asg: seq<Assignment>, n: nat)
    requires n <= |asg| && Assign(w, year, ds, asg[..n]).Err?
    ensures Assign(w, year, ds, asg) == Assign(w, year, ds, asg[..n])
  {
    if n < |asg| {
      assert asg[..|asg| - 1][..n] == asg[..n];
      AssignFails(w, year, ds, asg[..|asg| - 1], n);
    } else {
      assert asg[..n] == asg;
    }
  }
}
