/** What every reachable promotion session satisfies, whatever happens to the other tables meanwhile. */
module Lifecycle {
  import opened Records
  import opened Execution
  import opened Accounting
  import opened Validation
  import opened Staleness
  import opened Preparation
  import opened Sessions

  // ---------------------------------------------------------------- operations on one session

  datatype Op =
    | DoOverride(decision: Id, action: Action, reason: nat)
    | DoBulkOverride(selection: Selection, action: Action, reason: nat)
    | DoApprove
    | DoReopen(reason: nat)
    | DoStartPreparation
    | DoUpdateMappings(rows: seq<Mapping>)
    | DoListMappings
    | DoAssign(assignments: seq<Assignment>)
    | DoValidate(now: nat)
    | DoReadState
    | DoLock(now: nat)
    | DoUnlock(reason: nat)
    | DoStart(me: Id, running: Option<Id>, phrase: bool, token: Option<Token>)
    | DoPerformRun(run: Id, faults: Faults)

  function Beside(r: Result<Session>, w: World): Result<Effect> {
    match r
    case Err(e) => Err(e)
    case Ok(s) => Ok(Both(s, w))
  }

  function Apply(s: Session, w: World, op: Op): Result<Effect> {
    match op
    case DoOverride(id, a, reason) => Beside(OverrideDecision(s, id, a, reason), w)
    case DoBulkOverride(sel, a, reason) => Beside(BulkOverride(s, sel, a, reason), w)
    case DoApprove => Beside(Approve(s), w)
    case DoReopen(reason) => Beside(Reopen(s, reason), w)
    case DoStartPreparation => StartPreparation(s, w)
    case DoUpdateMappings(rows) => UpdateClassMappings(s, w, rows)
    case DoListMappings => ListClassMappings(s, w)
    case DoAssign(asg) => Beside(UpdateSectionMappings(s, w, asg), w)
    case DoValidate(now) => Beside(Validate(s, w, now), w)
    case DoReadState => Beside(ReadState(s, w), w)
    case DoLock(now) => Beside(Lock(s, w, now), w)
    case DoUnlock(reason) => Beside(Unlock(s, reason), w)
    case DoStart(me, running, phrase, token) => Beside(StartExecution(s, w, me, running, phrase, token), w)
    case DoPerformRun(run, faults) => PerformRun(s, w, run, faults)
  }

  // ---------------------------------------------------------------- the invariant

  /** The override entries of one decision, in order. */
  function EntriesOf(os: seq<Override>, id: Id): seq<Override> {
    if os == [] then []
    else EntriesOf(os[..|os| - 1], id) + if os[|os| - 1].decision == id then [os[|os| - 1]] else []
  }

  /** Follows a chain of entries from an action; None when an entry does not start where the last ended. */
  function Replay(start: Action, es: seq<Override>): Option<Action> {
    if es == [] then Some(start)
    else if Replay(start, es[..|es| - 1]) == Some(es[|es| - 1].from) then Some(es[|es| - 1].to)
    else Option.None
  }

  ghost predicate Replays(s: Session, i: Id)
    requires i < |s.decisions|
  {
    var d, es := s.decisions[i], EntriesOf(s.overrides, i);
    Replay(d.recommended, es) == Some(d.final) && (d.overridden <==> es != [])
  }

  ghost predicate Chained(s: Session) {
    forall i :: 0 <= i < |s.decisions| ==> Replays(s, i)
  }

  ghost predicate Reviewed(s: Session) {
    && (s.status == Draft ==>
          && s.preparation == Untouched && s.execution == NotStarted && s.report == NO_REPORT
          && s.preview.None? && s.fingerprint.None?
          && forall i :: 0 <= i < |s.decisions| ==> s.decisions[i] == Cleared(s.decisions[i]))
    && (s.status == Approved ==> forall i :: 0 <= i < |s.decisions| ==> Executable(s.decisions[i].final))
  }

  ghost predicate Executed(s: Session) {
    && (s.execution == NotStarted <==> s.runs == [])
    && (s.execution != NotStarted ==> s.status == Approved && s.preparation in {Locked, Invalid})
    && s.execution != Partial
  }

  predicate LockReady(d: Decision) {
    && d.readiness == Some(Ready) && Executable(d.final)
    && (Moves(d.final) ==> d.targetCourse.Some? && d.targetBatch.Some? && d.fee.Some?)
  }

  /** The print agrees with the decision in every column that the session itself holds. */
  predicate PrintOf(p: DecisionPrint, d: Decision, i: Id) {
    && p.decision == i && p.profile == d.profile && p.target == d.targetBatch
    && p.readiness == d.readiness && p.final == d.final
  }

  /** The stored fingerprint is of the decisions and mappings the session now has. */
  ghost predicate Fingerprints(fp: Fingerprint, s: Session) {
    && fp.mappings == s.mappings && |fp.decisions| == |s.decisions|
    && forall i :: 0 <= i < |s.decisions| ==> PrintOf(fp.decisions[i], s.decisions[i], i)
  }

  ghost predicate LockBound(s: Session) {
    s.preparation == Locked ==>
      && s.status == Approved && s.decisions != []
      && (forall i :: 0 <= i < |s.decisions| ==> LockReady(s.decisions[i]))
      && s.fingerprint.Some? && Fingerprints(s.fingerprint.value, s)
      && s.report.token == Some(Digest(s.fingerprint.value, s.report.validatedAt, s.report.students))
  }

  ghost predicate Invariant(s: Session) {
    Chained(s) && Reviewed(s) && Executed(s) && LockBound(s)
  }

  // ---------------------------------------------------------------- overrides

  lemma ReplayMore(start: Action, es: seq<Override>, o: Override)
    requires Replay(start, es) == Some(o.from)
    ensures Replay(start, es + [o]) == Some(o.to)
  {
    assert (es + [o])[..|es|] == es;
  }

  lemma EntriesMore(os: seq<Override>, o: Override, id: Id)
    ensures EntriesOf(os + [o], id) == EntriesOf(os, id) + if o.decision == id then [o] else []
  {
    assert (os + [o])[..|os|] == os;
  }

  lemma OneOverride(s: Session, id: Id, a: Action)
    requires Chained(s) && id < |s.decisions|
    ensures Chained(ApplyOverride(s, id, a))
  {
    var t := ApplyOverride(s, id, a);
    var o := Override(id, s.decisions[id].final, a);
    forall i | 0 <= i < |t.decisions| ensures Replays(t, i) {
      assert Replays(s, i);
      EntriesMore(s.overrides, o, i);
      assert EntriesOf(s.overrides, i) + [] == EntriesOf(s.overrides, i);
      if i == id { ReplayMore(s.decisions[i].recommended, EntriesOf(s.overrides, i), o); }
    }
  }

  /** Overrides touch the final action and the flag of a decision, and nothing else of the session. */
  ghost predicate OnlyOverrides(s: Session, t: Session) {
    && t == s.(decisions := t.decisions, overrides := t.overrides) && |t.decisions| == |s.decisions|
    && forall i :: 0 <= i < |s.decisions| ==>
         t.decisions[i] == s.decisions[i].(final := t.decisions[i].final, overridden := t.decisions[i].overridden)
  }

  lemma {:induction false} ManyOverrides(s: Session, ids: seq<Id>, a: Action)
    requires Chained(s) && forall k :: 0 <= k < |ids| ==> ids[k] < |s.decisions|
    ensures Chained(OverrideMany(s, ids, a)) && OnlyOverrides(s, OverrideMany(s, ids, a))
  {
    if ids != [] {
      var front, n := ids[..|ids| - 1], ids[|ids| - 1];
      ManyOverrides(s, front, a);
      OneOverride(OverrideMany(s, front, a), n, a);
    }
  }

  lemma {:induction false} CountFinalMoves(ds: seq<Decision>, i: Id, d: Decision, a: Action)
    requires i < |ds|
    ensures CountFinal(ds[i := d], a) + (if ds[i].final == a then 1 else 0) ==
            CountFinal(ds, a) + if d.final == a then 1 else 0
  {
    var n := |ds| - 1;
    if i == n {
      assert ds[i := d][..n] == ds[..n];
    } else {
      assert ds[i := d][..n] == ds[..n][i := d];
      CountFinalMoves(ds[..n], i, d, a);
    }
  }

  function CountAll(ds: seq<Decision>): nat {
    CountFinal(ds, Promote) + CountFinal(ds, Retain) + CountFinal(ds, Graduate) + CountFinal(ds, TransferOut) +
    CountFinal(ds, Withdraw) + CountFinal(ds, ManualReview) + CountFinal(ds, Pending)
  }

  lemma {:induction false} CountAllDecisions(ds: seq<Decision>)
    ensures CountAll(ds) == |ds|
  {
    if ds != [] { CountAllDecisions(ds[..|ds| - 1]); }
  }

  /** An override takes one decision from its old action to the new one; no other count moves, and the
      counts over all actions still add up to the number of decisions. */
  lemma OverrideConserves(s: Session, id: Id, a: Action, c: Action)
    requires id < |s.decisions|
    ensures var t := ApplyOverride(s, id, a);
            && CountFinal(t.decisions, c) + (if s.decisions[id].final == c then 1 else 0) ==
               CountFinal(s.decisions, c) + (if a == c then 1 else 0)
            && CountAll(t.decisions) == |s.decisions| == CountAll(s.decisions)
  {
    CountFinalMoves(s.decisions, id, ApplyOverride(s, id, a).decisions[id], c);
    CountAllDecisions(s.decisions);
    CountAllDecisions(ApplyOverride(s, id, a).decisions);
  }

  /** The entries that setting the listed decisions to an action adds to the log. */
  function NewEntries(ds: seq<Decision>, ids: seq<Id>, a: Action): seq<Override>
    requires forall k :: 0 <= k < |ids| ==> ids[k] < |ds|
  {
    if ids == [] then []
    else
      var n := ids[|ids| - 1];
      NewEntries(ds, ids[..|ids| - 1], a) + if AlreadySo(ds[n], a) then [] else [Override(n, ds[n].final, a)]
  }

  function Set(d: Decision, a: Action): Decision {
    d.(final := a, overridden := true)
  }

  lemma {:induction false} BulkDecisions(s: Session, ids: seq<Id>, a: Action, i: Id)
    requires forall k :: 0 <= k < |ids| ==> ids[k] < |s.decisions|
    requires i < |s.decisions|
    ensures OverrideMany(s, ids, a).decisions[i] == if i in ids then Set(s.decisions[i], a) else s.decisions[i]
  {
    if ids != [] {
      var front, n := ids[..|ids| - 1], ids[|ids| - 1];
      BulkDecisions(s, front, a, i);
      assert ids == front + [n];
    }
  }

  lemma {:induction false} BulkEntries(s: Session, ids: seq<Id>, a: Action)
    requires forall k :: 0 <= k < |ids| ==> ids[k] < |s.decisions|
    requires forall j, k :: 0 <= j < k < |ids| ==> ids[j] != ids[k]
    ensures OverrideMany(s, ids, a).overrides == s.overrides + NewEntries(s.decisions, ids, a)
  {
    if ids != [] {
      var front, n := ids[..|ids| - 1], ids[|ids| - 1];
      BulkEntries(s, front, a);
      BulkDecisions(s, front, a, n);
    }
  }

  /** A bulk override sets exactly the selected decisions, and logs one entry for each of them that did
      not already carry the action as an override. */
  lemma BulkOverrideExact(s: Session, sel: Selection, a: Action, reason: nat)
    requires BulkOverride(s, sel, a, reason).Ok?
    ensures var t := BulkOverride(s, sel, a, reason).value;
            && |t.decisions| == |s.decisions|
            && (forall i: Id :: i < |s.decisions| ==>
                  t.decisions[i] == if Selects(sel, i, s.decisions[i]) then Set(s.decisions[i], a) else s.decisions[i])
            && t.overrides == s.overrides + NewEntries(s.decisions, Selected(sel, s.decisions), a)
  {
    var ids := Selected(sel, s.decisions);
    BulkEntries(s, ids, a);
    forall i: Id | i < |s.decisions|
      ensures BulkOverride(s, sel, a, reason).value.decisions[i] ==
              if Selects(sel, i, s.decisions[i]) then Set(s.decisions[i], a) else s.decisions[i]
    {
      BulkDecisions(s, ids, a, i);
    }
  }

  lemma KeepsChains(s: Session, t: Session)
    requires Chained(s) && t.overrides == s.overrides && |t.decisions| == |s.decisions|
    requires forall i :: 0 <= i < |s.decisions| ==>
               && t.decisions[i].recommended == s.decisions[i].recommended
               && t.decisions[i].final == s.decisions[i].final
               && t.decisions[i].overridden == s.decisions[i].overridden
    ensures Chained(t)
  {
    forall i | 0 <= i < |t.decisions| ensures Replays(t, i) { assert Replays(s, i); }
  }

  // ---------------------------------------------------------------- each operation keeps the invariant

  lemma ReviewKeeps(s: Session, w: World, op: Op)
    requires Invariant(s) && Apply(s, w, op).Ok?
    requires op.DoOverride? || op.DoBulkOverride?
    ensures Invariant(Apply(s, w, op).value.session)
  {
    match op
    case DoOverride(id, a, _) => OneOverride(s, id, a);
    case DoBulkOverride(sel, a, _) => ManyOverrides(s, Selected(sel, s.decisions), a);
  }

  lemma {:induction false} NoneLeft(ds: seq<Decision>, a: Action)
    ensures CountFinal(ds, a) == 0 <==> forall i :: 0 <= i < |ds| ==> ds[i].final != a
  {
    if ds != [] {
      var front := ds[..|ds| - 1];
      NoneLeft(front, a);
      assert forall i :: 0 <= i < |front| ==> front[i] == ds[i];
    }
  }

  lemma ApproveKeeps(s: Session)
    requires Invariant(s) && Approve(s).Ok?
    ensures Invariant(Approve(s).value)
  {
    NoneLeft(s.decisions, Pending);
    NoneLeft(s.decisions, ManualReview);
    KeepsChains(s, Approve(s).value);
  }

  lemma ReopenKeeps(s: Session, reason: nat)
    requires Invariant(s) && Reopen(s, reason).Ok?
    ensures Invariant(Reopen(s, reason).value)
  {
    KeepsChains(s, Reopen(s, reason).value);
  }

  /** Destinations, readiness and block reasons may differ; identity, actions and flags may not. */
  ghost predicate SameReview(ds: seq<Decision>, es: seq<Decision>) {
    |es| == |ds| && forall i :: 0 <= i < |ds| ==>
      && es[i].profile == ds[i].profile && es[i].recommended == ds[i].recommended
      && es[i].final == ds[i].final && es[i].overridden == ds[i].overridden
  }

  lemma EditKeeps(s: Session, t: Session)
    requires Invariant(s) && s.status == Approved && s.preparation != Locked
    requires SameReview(s.decisions, t.decisions)
    requires t.status == Approved && t.overrides == s.overrides && t.runs == s.runs && t.execution == s.execution
    requires t.preparation == s.preparation || (s.preparation == Untouched && t.preparation == InProgress)
    ensures Invariant(t)
  {
    KeepsChains(s, t);
  }

  lemma {:induction false} AssignKeeps(w: World, year: Id, ds: seq<Decision>, asg: seq<Assignment>)
    requires Assign(w, year, ds, asg).Ok?
    ensures SameReview(ds, Assign(w, year, ds, asg).value)
  {
    if asg != [] { AssignKeeps(w, year, ds, asg[..|asg| - 1]); }
  }

  /** The last assignment to a decision. */
  function LastFor(asg: seq<Assignment>, id: Id): Option<Assignment> {
    if asg == [] then Option.None
    else if asg[|asg| - 1].decision == id then Some(asg[|asg| - 1])
    else LastFor(asg[..|asg| - 1], id)
  }

  /** An accepted assignment gives each decision named the section last asked for, a section of this
      branch in the target year, or none, and leaves the other decisions alone. */
  lemma {:induction false} AssignEffect(w: World, year: Id, ds: seq<Decision>, asg: seq<Assignment>, i: Id)
    requires Assign(w, year, ds, asg).Ok? && i < |ds|
    ensures var d, last := Assign(w, year, ds, asg).value[i], LastFor(asg, i);
            && (last.None? ==> d == ds[i])
            && d == ds[i].(targetCourse := d.targetCourse, targetBatch := d.targetBatch,
                           targetSection := d.targetSection)
            && (last.Some? ==> d.targetBatch == last.value.batch)
            && (last.Some? && last.value.batch.Some? ==>
                  var b := last.value.batch.value;
                  && OpenSection(w, b, year)
                  && d.targetCourse == Some(w.batches[b].course) && d.targetSection == w.batches[b].name)
            && (last.Some? && last.value.batch.None? ==> d.targetSection == BLANK)
  {
    if asg != [] { AssignEffect(w, year, ds, asg[..|asg| - 1], i); }
  }

  lemma DestinedReview(w: World, year: Id, ms: seq<Mapping>, ds: seq<Decision>)
    ensures SameReview(ds, DestineAll(w, year, ms, ds))
  {
  }

  lemma PlaceReview(w: World, year: Id, ms: seq<Mapping>, ds: seq<Decision>)
    requires Place(w, year, ms, ds).Ok?
    ensures SameReview(ds, Place(w, year, ms, ds).value.decisions)
  {
    DestinedReview(Provide(w, year, Needs(ms, ds)).value, year, ms, ds);
  }

  lemma StartPreparationKeeps(s: Session, w: World)
    requires Invariant(s) && StartPreparation(s, w).Ok?
    ensures Invariant(StartPreparation(s, w).value.session)
  {
    PlaceReview(w, s.target, Seeded(w.courses, s.mappings, s.decisions), s.decisions);
    EditKeeps(s, StartPreparation(s, w).value.session);
  }

  lemma ListingKeeps(s: Session, w: World)
    requires Invariant(s) && ListClassMappings(s, w).Ok?
    ensures Invariant(ListClassMappings(s, w).value.session)
  {
    if ListClassMappings(s, w).value.session != s {
      PlaceReview(w, s.target, s.mappings, s.decisions);
      EditKeeps(s, ListClassMappings(s, w).value.session);
    }
  }

  lemma MappingsKeep(s: Session, w: World, rows: seq<Mapping>)
    requires Invariant(s) && UpdateClassMappings(s, w, rows).Ok?
    ensures Invariant(UpdateClassMappings(s, w, rows).value.session)
  {
    var stored := StoreMappings(s, w, rows).value;
    PlaceReview(w, s.target, UpsertAll(s.mappings, rows), s.decisions);
    EditKeeps(s, stored.session);
    ListingKeeps(stored.session, stored.world);
  }

  /** An update of the class mappings, once stored, goes through exactly when every moved student has got a
      section or every needed class is of this branch, and then the closing listing has changed nothing;
      otherwise the listing's own provisioning raises and the whole update is undone. */
  lemma MappingsUpdatedExactly(s: Session, w: World, rows: seq<Mapping>)
    requires StoreMappings(s, w, rows).Ok?
    ensures var stored := StoreMappings(s, w, rows).value;
            var settled := !Unplaced(stored.session.decisions) ||
                           LocalNeeds(w, Needs(UpsertAll(s.mappings, rows), s.decisions));
            && (UpdateClassMappings(s, w, rows) == Ok(stored) <==> settled)
            && (UpdateClassMappings(s, w, rows).Err? <==> !settled)
  {
    PlaceTwice(w, s.target, UpsertAll(s.mappings, rows), s.decisions);
  }

  lemma AssignmentKeeps(s: Session, w: World, asg: seq<Assignment>)
    requires Invariant(s) && UpdateSectionMappings(s, w, asg).Ok?
    ensures Invariant(UpdateSectionMappings(s, w, asg).value)
  {
    AssignKeeps(w, s.target, s.decisions, asg);
    EditKeeps(s, UpdateSectionMappings(s, w, asg).value);
  }

  lemma ValidateKeeps(s: Session, w: World, now: nat)
    requires Invariant(s) && Validate(s, w, now).Ok?
    ensures Invariant(Validate(s, w, now).value)
  {
    EditKeeps(s, Validate(s, w, now).value);
  }

  lemma ReadKeeps(s: Session, w: World)
    requires Invariant(s) && ReadState(s, w).Ok?
    ensures Invariant(ReadState(s, w).value)
  {
    KeepsChains(s, ReadState(s, w).value);
  }

  /** Every validated decision carries a verdict, and a ready one is fit to lock. */
  lemma VerdictGiven(w: World, plan: Plan, d: Decision)
    ensures var v := Validated(w, plan, d);
            && (v.readiness == Some(Ready) || v.readiness == Some(Blocked))
            && (v.readiness == Some(Ready) ==> LockReady(v))
  {
  }

  lemma AllReady(w: World, plan: Plan)
    requires CountsOf(ValidateAll(w, plan, plan.decisions)).blocked == 0
    ensures forall i :: 0 <= i < |plan.decisions| ==> LockReady(ValidateAll(w, plan, plan.decisions)[i])
  {
    var ds := ValidateAll(w, plan, plan.decisions);
    NoneBlocked(ds);
    forall i | 0 <= i < |ds| ensures LockReady(ds[i]) {
      VerdictGiven(w, plan, plan.decisions[i]);
    }
  }

  lemma BuildFingerprints(w: World, s: Session)
    ensures Fingerprints(Build(w, PlanOf(s), s.mappings), s)
  {
  }

  lemma LockedRowKeeps(s: Session, w: World, now: nat)
    requires Invariant(s) && s.status == Approved && s.preparation != Locked
    requires var v := Validate(s, w, now).value; CanLock(v, w)
    ensures var v := Validate(s, w, now).value;
            Invariant(LockedRow(s, v, Build(w, PlanOf(v), v.mappings)))
  {
    var v := Validate(s, w, now).value;
    var t := LockedRow(s, v, Build(w, PlanOf(v), v.mappings));
    KeepsChains(s, t);
    AllReady(w, PlanOf(s));
    BuildFingerprints(w, v);
  }

  /** A lock writes the validated decisions and nothing else of the plan. */
  lemma LockWrites(s: Session, w: World, now: nat)
    requires Lock(s, w, now).Ok?
    ensures var v, t := Validate(s, w, now), Lock(s, w, now).value;
            && v.Ok? && t.decisions == v.value.decisions && t.mappings == s.mappings && t.overrides == s.overrides
            && t.status == s.status && t.source == s.source && t.target == s.target
            && t.execution == s.execution && t.runs == s.runs && t.preparation in {Locked, Invalid}
  {
  }

  lemma LockKeeps(s: Session, w: World, now: nat)
    requires Invariant(s) && Lock(s, w, now).Ok?
    ensures Invariant(Lock(s, w, now).value)
  {
    var v := Validate(s, w, now).value;
    LockedRowKeeps(s, w, now);
    ReadKeeps(LockedRow(s, v, Build(w, PlanOf(v), v.mappings)), w);
  }

  lemma UnlockKeeps(s: Session, reason: nat)
    requires Invariant(s) && Unlock(s, reason).Ok?
    ensures Invariant(Unlock(s, reason).value)
  {
    KeepsChains(s, Unlock(s, reason).value);
  }

  lemma StartKeeps(s: Session, w: World, me: Id, running: Option<Id>, phrase: bool, token: Option<Token>)
    requires Invariant(s) && StartExecution(s, w, me, running, phrase, token).Ok?
    ensures Invariant(StartExecution(s, w, me, running, phrase, token).value)
  {
    KeepsChains(s, StartExecution(s, w, me, running, phrase, token).value);
  }

  /** A task that is saved ends in Succeeded or Failed. */
  lemma PerformedStatus(s: Session, w: World, run: Id, faults: Faults)
    requires PerformRun(s, w, run, faults).Ok?
    ensures var t := PerformRun(s, w, run, faults).value.session;
            && t == s.(execution := t.execution, runs := t.runs) && |t.runs| == |s.runs| > 0
            && t.execution in {Succeeded, Failed}
  {
    var row := s.runs[run];
    NeverPartial(Progress(w, row.saved, row.saved, row.logs, false), PlanOf(s), faults);
  }

  lemma PerformKeeps(s: Session, w: World, run: Id, faults: Faults)
    requires Invariant(s) && PerformRun(s, w, run, faults).Ok?
    ensures Invariant(PerformRun(s, w, run, faults).value.session)
  {
    PerformedStatus(s, w, run, faults);
    KeepsChains(s, PerformRun(s, w, run, faults).value.session);
  }

  lemma ApplyKeeps(s: Session, w: World, op: Op)
    requires Invariant(s) && Apply(s, w, op).Ok?
    ensures Invariant(Apply(s, w, op).value.session)
  {
    match op
    case DoOverride(_, _, _) => ReviewKeeps(s, w, op);
    case DoBulkOverride(_, _, _) => ReviewKeeps(s, w, op);
    case DoApprove => ApproveKeeps(s);
    case DoReopen(reason) => ReopenKeeps(s, reason);
    case DoStartPreparation => StartPreparationKeeps(s, w);
    case DoUpdateMappings(rows) => MappingsKeep(s, w, rows);
    case DoListMappings => ListingKeeps(s, w);
    case DoAssign(asg) => AssignmentKeeps(s, w, asg);
    case DoValidate(now) => ValidateKeeps(s, w, now);
    case DoReadState => ReadKeeps(s, w);
    case DoLock(now) => LockKeeps(s, w, now);
    case DoUnlock(reason) => UnlockKeeps(s, reason);
    case DoStart(me, running, phrase, token) => StartKeeps(s, w, me, running, phrase, token);
    case DoPerformRun(run, faults) => PerformKeeps(s, w, run, faults);
  }
}
