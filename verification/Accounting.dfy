/** What a run's counters, logs and status say about what happened to the students. */
module Accounting {
  import opened Records
  import opened Execution

  /** Done(c): the attempt succeeded.  Early: it raised before the counter was written.  Late(c): it raised
      after counter c was written and is logged as a failure.  Broken(c): it raised after its own log was
      saved for good, and the exception leaves the loop.  Skip: there was no executable action. */
  datatype Outcome =
    | Skip | Done(counter: Counter) | Early | Late(counter: Counter) | Broken(counter: Counter)

  /** Only a student step's own counter can be written before the step fails. */
  predicate Sensible(o: Outcome) {
    (o.Done? || o.Late? || o.Broken?) ==> o.counter != Failures && o.counter != Skips
  }

  function OutcomeFrom(action: Action, reach: Reach, transactional: bool): (o: Outcome)
    ensures Sensible(o)
    ensures o == Skip <==> !Executable(action)
    ensures o.Broken? ==> !transactional
  {
    if !Executable(action) then Skip
    else
      match reach
      case InTables => Early
      case Through => Done(CounterOf(action))
      case PastCounter => Late(CounterOf(action))
      case PastLog => if transactional then Late(CounterOf(action)) else Broken(CounterOf(action))
  }

  /** A sensible outcome, and Skip exactly where there is nothing to execute. */
  predicate Suits(plan: Plan, id: Id, o: Outcome)
    requires id < |plan.decisions|
  {
    Sensible(o) && (o == Skip <==> !Executable(plan.decisions[id].final))
  }

  function OutcomeOf(w: World, plan: Plan, faults: Faults, id: Id): (o: Outcome)
    requires id < |plan.decisions|
    ensures Suits(plan, id, o) && (o.Broken? ==> !faults.transactional)
  {
    var d := plan.decisions[id];
    OutcomeFrom(d.final, Reached(StepOf(w, plan, d), BreakAt(faults, id)).reach, faults.transactional)
  }

  ghost predicate AllSuit(plan: Plan, ids: seq<Id>, os: seq<Outcome>) {
    |os| <= |ids| && forall i :: 0 <= i < |os| ==> ids[i] < |plan.decisions| && Suits(plan, ids[i], os[i])
  }

  lemma SuitMore(plan: Plan, ids: seq<Id>, os: seq<Outcome>, id: Id, o: Outcome)
    requires AllSuit(plan, ids, os) && |os| == |ids| && id < |plan.decisions| && Suits(plan, id, o)
    ensures AllSuit(plan, ids + [id], os + [o])
  {
  }

  /** The outcomes of the decisions that the loop processes: all of them, or those up to the one at which
      an exception leaves it. */
  function Outcomes(p: Progress, plan: Plan, faults: Faults, ids: seq<Id>): (os: seq<Outcome>)
    requires forall i :: 0 <= i < |ids| ==> ids[i] < |plan.decisions|
    ensures AllSuit(plan, ids, os)
    ensures !Students(p, plan, faults, ids).crashed ==> |os| == |ids|
  {
    if ids == [] then []
    else
      var front, n := ids[..|ids| - 1], ids[|ids| - 1];
      var q, os := Students(p, plan, faults, front), Outcomes(p, plan, faults, front);
      if q.crashed then os
      else
        var o := OutcomeOf(q.world, plan, faults, n);
        SuitMore(plan, front, os, n, o);
        assert ids == front + [n];
        os + [o]
  }

  /** The counter that agrees with the log row of an outcome. */
  function Credit(o: Outcome): Counter {
    match o
    case Skip => Skips
    case Done(c) => c
    case Broken(c) => c
    case Early => Failures
    case Late(_) => Failures
  }

  function Credits(os: seq<Outcome>, c: Counter): nat {
    if os == [] then 0
    else Credits(os[..|os| - 1], c) + if Credit(os[|os| - 1]) == c then 1 else 0
  }

  function Lates(os: seq<Outcome>, c: Counter): nat {
    if os == [] then 0
    else Lates(os[..|os| - 1], c) + if os[|os| - 1] == Late(c) then 1 else 0
  }

  /** The value that stays saved for a counter.  Without a transaction it is the in-memory value; in one it
      is the in-memory value at the last outcome credited to the counter. */
  function LastSaved(os: seq<Outcome>, c: Counter, transactional: bool): nat {
    if os == [] then 0
    else if !transactional || Credit(os[|os| - 1]) == c then Credits(os, c) + Lates(os, c)
    else LastSaved(os[..|os| - 1], c, transactional)
  }

  /** A late failure of counter c is followed by a success of counter c. */
  ghost predicate Overcount(os: seq<Outcome>, c: Counter) {
    exists i, j :: 0 <= i < j < |os| && os[i] == Late(c) && Credit(os[j]) == c
  }

  /** What makes a saved counter exceed its logs: in a transaction an overcount, elsewhere any late failure. */
  ghost predicate Inflated(os: seq<Outcome>, c: Counter, transactional: bool) {
    if transactional then Overcount(os, c) else Late(c) in os
  }

  function CounterOfLog(log: Log): Counter {
    match log.status
    case LogFailed => Failures
    case LogSkipped => Skips
    case LogSucceeded => if Executable(log.action) then CounterOf(log.action) else Skips
  }

  function LogCount(logs: seq<Log>, c: Counter): nat {
    if logs == [] then 0
    else LogCount(logs[..|logs| - 1], c) + if CounterOfLog(logs[|logs| - 1]) == c then 1 else 0
  }

  ghost predicate Distinct(ids: seq<Id>) {
    forall i, j :: 0 <= i < j < |ids| ==> ids[i] != ids[j]
  }

  ghost predicate Unlogged(logs: seq<Log>, ids: seq<Id>) {
    forall i :: 0 <= i < |ids| ==> !Logged(logs, ids[i])
  }

  function Fresh(w: World): Progress {
    Progress(w, ZERO, ZERO, [], false)
  }

  function Last<T>(s: seq<T>): T
    requires s != []
  {
    s[|s| - 1]
  }

  // ---------------------------------------------------------------- the loop, outcome by outcome

  function LogFrom(id: Id, action: Action, o: Outcome): Log {
    Log(id, action,
        match o
        case Done(_) => LogSucceeded
        case Broken(_) => LogSucceeded
        case Skip => LogSkipped
        case _ => LogFailed)
  }

  function LogsOf(plan: Plan, ids: seq<Id>, os: seq<Outcome>): (logs: seq<Log>)
    requires |os| == |ids|
    requires forall i :: 0 <= i < |ids| ==> ids[i] < |plan.decisions|
    ensures |logs| == |ids|
    ensures forall i :: 0 <= i < |ids| ==> logs[i].decision == ids[i]
  {
    if ids == [] then []
    else
      LogsOf(plan, ids[..|ids| - 1], os[..|os| - 1]) +
      [LogFrom(Last(ids), plan.decisions[Last(ids)].final, Last(os))]
  }

  /** q is p after one more outcome, told for one counter. */
  ghost predicate Extends(p: Progress, q: Progress, o: Outcome, log: Log, c: Counter, transactional: bool) {
    && (q.crashed <==> o.Broken?)
    && q.logs == p.logs + [log] && CounterOfLog(log) == Credit(o)
    && q.memory.Get(c) == p.memory.Get(c) + (if Credit(o) == c then 1 else 0) + (if o == Late(c) then 1 else 0)
    && q.saved.Get(c) ==
       if Credit(o) == c || (!transactional && o == Late(c)) then q.memory.Get(c) else p.saved.Get(c)
  }

  /** The attempt's writes stay: always in a worker, and in a transaction when it ends well and its log is
      accepted. */
  predicate Stays(p: Progress, action: Action, t: Attempted, id: Id, transactional: bool) {
    && !p.crashed && Executable(action)
    && (transactional ==> t.reach == Through && !Logged(p.logs, id))
  }

  /** The tables after one attempt are those it reached, or, rolled back or never begun, those before. */
  lemma SettledWorld(p: Progress, action: Action, t: Attempted, id: Id, transactional: bool)
    ensures Settle(p, action, t, id, transactional).world ==
            if Stays(p, action, t, id, transactional) then t.world else p.world
  {
  }

  lemma CountExtends(p: Progress, own: Counter, log: Log, o: Outcome, c: Counter, transactional: bool)
    requires !p.crashed && Credit(o) == own == CounterOfLog(log) && !o.Late? && !o.Broken?
    ensures Extends(p, Count(p, own, log), o, log, c, transactional)
  {
  }

  lemma RaiseExtends(p: Progress, action: Action, t: Attempted, id: Id, transactional: bool, c: Counter)
    requires !p.crashed && !Logged(p.logs, id) && Executable(action) && t.reach != Through
    ensures var o := OutcomeFrom(action, t.reach, transactional);
            Extends(p, Settle(p, action, t, id, transactional), o, LogFrom(id, action, o), c, transactional)
  {
    RaisedCounters(p, CounterOf(action), t, transactional, c);
  }

  /** One iteration without an earlier log, told by its outcome. */
  lemma SettleByOutcome(p: Progress, action: Action, t: Attempted, id: Id, transactional: bool, c: Counter)
    requires !p.crashed && !Logged(p.logs, id)
    ensures var o := OutcomeFrom(action, t.reach, transactional);
            Extends(p, Settle(p, action, t, id, transactional), o, LogFrom(id, action, o), c, transactional)
  {
    if !Executable(action) {
      CountExtends(p, Skips, Log(id, action, LogSkipped), Skip, c, transactional);
    } else if t.reach == Through {
      var own := CounterOf(action);
      CountExtends(p.(world := t.world), own, Log(id, action, LogSucceeded), Done(own), c, transactional);
    } else {
      RaiseExtends(p, action, t, id, transactional, c);
    }
  }

  /** A raise has written the step's counter past the tables only, and saved it outside a transaction. */
  lemma RaisedCounters(p: Progress, own: Counter, t: Attempted, transactional: bool, c: Counter)
    ensures var q, counted := Raised(p, own, t, transactional), t.reach != InTables && own == c;
            && q.logs == p.logs && q.crashed == p.crashed
            && q.memory.Get(c) == p.memory.Get(c) + (if counted then 1 else 0)
            && q.saved.Get(c) == if counted && !transactional then q.memory.Get(c) else p.saved.Get(c)
  {
  }

  lemma IterationByOutcome(p: Progress, plan: Plan, faults: Faults, id: Id, c: Counter)
    requires id < |plan.decisions|
    requires !p.crashed && !Logged(p.logs, id)
    ensures var o := OutcomeOf(p.world, plan, faults, id);
            Extends(p, Student(p, plan, faults, id), o, LogFrom(id, plan.decisions[id].final, o), c,
                    faults.transactional)
  {
    var d := plan.decisions[id];
    SettleByOutcome(p, d.final, Reached(StepOf(p.world, plan, d), BreakAt(faults, id)), id, faults.transactional, c);
  }

  /** The loop has logged the processed decisions in order, and left early exactly at a broken one. */
  ghost predicate Recorded(p: Progress, q: Progress, plan: Plan, ids: seq<Id>, os: seq<Outcome>) {
    && |os| <= |ids| && (forall i :: 0 <= i < |ids| ==> ids[i] < |plan.decisions|)
    && q.logs == p.logs + LogsOf(plan, ids[..|os|], os)
    && (q.crashed <==> os != [] && Last(os).Broken?)
    && (!q.crashed ==> |os| == |ids|)
  }

  lemma RecordedMore(p: Progress, q: Progress, r: Progress, plan: Plan, ids: seq<Id>, os: seq<Outcome>, o: Outcome)
    requires ids != [] && Last(ids) < |plan.decisions|
    requires Recorded(p, q, plan, ids[..|ids| - 1], os) && !q.crashed
    requires Extends(q, r, o, LogFrom(Last(ids), plan.decisions[Last(ids)].final, o), Skips, true) ||
             Extends(q, r, o, LogFrom(Last(ids), plan.decisions[Last(ids)].final, o), Skips, false)
    ensures Recorded(p, r, plan, ids, os + [o])
  {
    var front, all := ids[..|ids| - 1], os + [o];
    assert front[..|os|] == front && ids[..|all|] == ids && all[..|all| - 1] == os;
  }

  /** Where no decision has a log yet the loop appends one log per processed decision. */
  lemma {:induction false} LoopLogs(p: Progress, plan: Plan, faults: Faults, ids: seq<Id>)
    requires forall i :: 0 <= i < |ids| ==> ids[i] < |plan.decisions|
    requires !p.crashed && Distinct(ids) && Unlogged(p.logs, ids)
    ensures Recorded(p, Students(p, plan, faults, ids), plan, ids, Outcomes(p, plan, faults, ids))
  {
    if ids != [] {
      var front := ids[..|ids| - 1];
      LoopLogs(p, plan, faults, front);
      var q, os := Students(p, plan, faults, front), Outcomes(p, plan, faults, front);
      if q.crashed {
        assert ids[..|os|] == front[..|os|];
      } else {
        assert front[..|os|] == front;
        LastUnlogged(p.logs, plan, ids, os);
        IterationByOutcome(q, plan, faults, Last(ids), Skips);
        RecordedMore(p, q, Student(q, plan, faults, Last(ids)), plan, ids, os,
                     OutcomeOf(q.world, plan, faults, Last(ids)));
      }
    }
  }

  lemma LastUnlogged(logs: seq<Log>, plan: Plan, ids: seq<Id>, os: seq<Outcome>)
    requires ids != [] && |os| == |ids| - 1
    requires forall i :: 0 <= i < |ids| ==> ids[i] < |plan.decisions|
    requires Distinct(ids)
    ensures Logged(logs + LogsOf(plan, ids[..|ids| - 1], os), Last(ids)) <==> Logged(logs, Last(ids))
  {
    var front := ids[..|ids| - 1];
    var more := LogsOf(plan, front, os);
    assert forall i :: 0 <= i < |more| ==> more[i].decision == ids[i];
    if Logged(logs, Last(ids)) {
      var i :| 0 <= i < |logs| && logs[i].decision == Last(ids);
      assert (logs + more)[i].decision == Last(ids);
    }
  }

  /** A fresh run, started without logs. */
  lemma FreshLogs(w: World, plan: Plan, faults: Faults, ids: seq<Id>)
    requires forall i :: 0 <= i < |ids| ==> ids[i] < |plan.decisions|
    requires Distinct(ids)
    ensures var q, os := Students(Fresh(w), plan, faults, ids), Outcomes(Fresh(w), plan, faults, ids);
            && Recorded(Fresh(w), q, plan, ids, os)
            && q.logs == LogsOf(plan, ids[..|os|], os)
  {
    LoopLogs(Fresh(w), plan, faults, ids);
    RecordedAlone(Fresh(w), Students(Fresh(w), plan, faults, ids), plan, ids, Outcomes(Fresh(w), plan, faults, ids));
  }

  lemma RecordedAlone(p: Progress, q: Progress, plan: Plan, ids: seq<Id>, os: seq<Outcome>)
    requires Recorded(p, q, plan, ids, os) && p.logs == []
    ensures q.logs == LogsOf(plan, ids[..|os|], os)
  {
    assert [] + LogsOf(plan, ids[..|os|], os) == LogsOf(plan, ids[..|os|], os);
  }

  /** The two counters and the logs, in terms of the outcomes so far. */
  ghost predicate Tallied(q: Progress, os: seq<Outcome>, c: Counter, transactional: bool) {
    && q.memory.Get(c) == Credits(os, c) + Lates(os, c)
    && q.saved.Get(c) == LastSaved(os, c, transactional)
    && LogCount(q.logs, c) == Credits(os, c)
  }

  lemma CreditsMore(os: seq<Outcome>, o: Outcome, c: Counter, transactional: bool)
    ensures Credits(os + [o], c) == Credits(os, c) + if Credit(o) == c then 1 else 0
    ensures Lates(os + [o], c) == Lates(os, c) + if o == Late(c) then 1 else 0
    ensures LastSaved(os + [o], c, transactional) ==
            if !transactional || Credit(o) == c then Credits(os + [o], c) + Lates(os + [o], c)
            else LastSaved(os, c, transactional)
  {
    assert (os + [o])[..|os|] == os;
  }

  lemma LogCountMore(logs: seq<Log>, log: Log, c: Counter)
    ensures LogCount(logs + [log], c) == LogCount(logs, c) + if CounterOfLog(log) == c then 1 else 0
  {
    assert (logs + [log])[..|logs|] == logs;
  }

  lemma TalliedMore(q: Progress, r: Progress, os: seq<Outcome>, o: Outcome, log: Log, c: Counter, transactional: bool)
    requires Tallied(q, os, c, transactional) && Extends(q, r, o, log, c, transactional)
    ensures Tallied(r, os + [o], c, transactional)
  {
    CreditsMore(os, o, c, transactional);
    LogCountMore(q.logs, log, c);
    if !transactional { SavedIsMemory(os, c); }
  }

  lemma SavedIsMemory(os: seq<Outcome>, c: Counter)
    ensures LastSaved(os, c, false) == Credits(os, c) + Lates(os, c)
  {
  }

  lemma {:induction false} LoopCounters(w: World, plan: Plan, faults: Faults, ids: seq<Id>, c: Counter)
    requires forall i :: 0 <= i < |ids| ==> ids[i] < |plan.decisions|
    requires Distinct(ids)
    ensures Tallied(Students(Fresh(w), plan, faults, ids), Outcomes(Fresh(w), plan, faults, ids), c,
                    faults.transactional)
  {
    if ids != [] {
      var front := ids[..|ids| - 1];
      LoopCounters(w, plan, faults, front, c);
      var q, os := Students(Fresh(w), plan, faults, front), Outcomes(Fresh(w), plan, faults, front);
      if !q.crashed {
        NotYetLogged(w, plan, faults, ids);
        IterationByOutcome(q, plan, faults, Last(ids), c);
        var o := OutcomeOf(q.world, plan, faults, Last(ids));
        TalliedMore(q, Student(q, plan, faults, Last(ids)), os, o,
                    LogFrom(Last(ids), plan.decisions[Last(ids)].final, o), c, faults.transactional);
      }
    }
  }

  /** A fresh loop comes to each decision before that has a log. */
  lemma NotYetLogged(w: World, plan: Plan, faults: Faults, ids: seq<Id>)
    requires forall i :: 0 <= i < |ids| ==> ids[i] < |plan.decisions|
    requires ids != [] && Distinct(ids) && !Students(Fresh(w), plan, faults, ids[..|ids| - 1]).crashed
    ensures !Logged(Students(Fresh(w), plan, faults, ids[..|ids| - 1]).logs, Last(ids))
  {
    var front := ids[..|ids| - 1];
    FreshLogs(w, plan, faults, front);
    var os := Outcomes(Fresh(w), plan, faults, front);
    assert front[..|os|] == front;
    LastUnlogged([], plan, ids, os);
    assert [] + LogsOf(plan, front, os) == LogsOf(plan, front, os);
  }

  // ---------------------------------------------------------------- when a run reaches its end

  /** The k-th decision breaks the loop: its attempt, at the tables reached before it, succeeds, and then
      something raises after the log was saved. */
  ghost predicate BreaksLoop(p: Progress, plan: Plan, faults: Faults, ids: seq<Id>, k: nat)
    requires forall i :: 0 <= i < |ids| ==> ids[i] < |plan.decisions|
  {
    && k < |ids| && !faults.transactional && BreakAt(faults, ids[k]) == Some(AfterLog)
    && StepWorld(Students(p, plan, faults, ids[..k]).world, plan, plan.decisions[ids[k]]).Some?
  }

  lemma BrokenExactly(w: World, plan: Plan, faults: Faults, id: Id)
    requires id < |plan.decisions|
    ensures OutcomeOf(w, plan, faults, id).Broken? <==>
            && !faults.transactional && BreakAt(faults, id) == Some(AfterLog)
            && StepWorld(w, plan, plan.decisions[id]).Some?
  {
  }

  lemma BreaksInFront(p: Progress, plan: Plan, faults: Faults, ids: seq<Id>, k: nat)
    requires forall i :: 0 <= i < |ids| ==> ids[i] < |plan.decisions|
    requires k + 1 < |ids|
    ensures BreaksLoop(p, plan, faults, ids, k) <==> BreaksLoop(p, plan, faults, ids[..|ids| - 1], k)
  {
    assert ids[..k] == ids[..|ids| - 1][..k];
  }

  lemma LastBreaks(p: Progress, plan: Plan, faults: Faults, ids: seq<Id>)
    requires forall i :: 0 <= i < |ids| ==> ids[i] < |plan.decisions|
    requires ids != [] && !Students(p, plan, faults, ids[..|ids| - 1]).crashed
    requires Recorded(p, Students(p, plan, faults, ids), plan, ids, Outcomes(p, plan, faults, ids))
    ensures Students(p, plan, faults, ids).crashed <==> BreaksLoop(p, plan, faults, ids, |ids| - 1)
  {
    BrokenExactly(Students(p, plan, faults, ids[..|ids| - 1]).world, plan, faults, Last(ids));
  }

  ghost predicate SomeBreaks(p: Progress, plan: Plan, faults: Faults, ids: seq<Id>)
    requires forall i :: 0 <= i < |ids| ==> ids[i] < |plan.decisions|
  {
    exists k: nat :: BreaksLoop(p, plan, faults, ids, k)
  }

  lemma SomeBreaksMore(p: Progress, plan: Plan, faults: Faults, ids: seq<Id>)
    requires forall i :: 0 <= i < |ids| ==> ids[i] < |plan.decisions|
    requires ids != []
    ensures SomeBreaks(p, plan, faults, ids) <==>
            SomeBreaks(p, plan, faults, ids[..|ids| - 1]) || BreaksLoop(p, plan, faults, ids, |ids| - 1)
  {
    var front := ids[..|ids| - 1];
    if SomeBreaks(p, plan, faults, ids) {
      var k: nat :| BreaksLoop(p, plan, faults, ids, k);
      if k + 1 < |ids| { BreaksInFront(p, plan, faults, ids, k); }
    }
    if SomeBreaks(p, plan, faults, front) {
      var k: nat :| BreaksLoop(p, plan, faults, front, k);
      BreaksInFront(p, plan, faults, ids, k);
    }
  }

  /** An exception leaves the loop exactly when some decision breaks it. */
  lemma {:induction false} LoopBreaks(p: Progress, plan: Plan, faults: Faults, ids: seq<Id>)
    requires forall i :: 0 <= i < |ids| ==> ids[i] < |plan.decisions|
    requires !p.crashed && Distinct(ids) && Unlogged(p.logs, ids)
    ensures Students(p, plan, faults, ids).crashed <==> SomeBreaks(p, plan, faults, ids)
  {
    if ids != [] {
      var front := ids[..|ids| - 1];
      LoopBreaks(p, plan, faults, front);
      SomeBreaksMore(p, plan, faults, ids);
      LoopLogs(p, plan, faults, ids);
      if Students(p, plan, faults, front).crashed {
        StaysCrashed(p, plan, faults, ids);
      } else {
        LastBreaks(p, plan, faults, ids);
      }
    }
  }

  lemma StaysCrashed(p: Progress, plan: Plan, faults: Faults, ids: seq<Id>)
    requires forall i :: 0 <= i < |ids| ==> ids[i] < |plan.decisions|
    requires ids != [] && Students(p, plan, faults, ids[..|ids| - 1]).crashed
    ensures Students(p, plan, faults, ids).crashed
  {
  }

  /** The logs are those of the first ids, in order, one each. */
  ghost predicate LogsFollow(logs: seq<Log>, ids: seq<Id>) {
    |logs| <= |ids| && forall k :: 0 <= k < |logs| ==> logs[k].decision == ids[k]
  }

  /** A fresh run logs each processed decision once, in order.  It reaches the end, with one log for every
      ready decision, exactly when no decision breaks the loop; in a transaction none does. */
  lemma RunLogs(w: World, plan: Plan, faults: Faults)
    ensures var ids := ReadyIds(plan.decisions);
            var q := Students(Fresh(w), plan, faults, ids);
            && LogsFollow(q.logs, ids) && (!q.crashed ==> |q.logs| == |ids|)
            && (q.crashed <==> SomeBreaks(Fresh(w), plan, faults, ids))
  {
    var ids := ReadyIds(plan.decisions);
    FreshLogs(w, plan, faults, ids);
    LoopBreaks(Fresh(w), plan, faults, ids);
    RecordedFollow(Students(Fresh(w), plan, faults, ids), plan, ids, Outcomes(Fresh(w), plan, faults, ids), w);
  }

  lemma RecordedFollow(q: Progress, plan: Plan, ids: seq<Id>, os: seq<Outcome>, w: World)
    requires Recorded(Fresh(w), q, plan, ids, os)
    ensures LogsFollow(q.logs, ids) && (!q.crashed ==> |q.logs| == |ids|)
  {
    assert q.logs == LogsOf(plan, ids[..|os|], os);
  }

  // ---------------------------------------------------------------- counters against logs

  lemma {:induction false} LatesOccur(os: seq<Outcome>, c: Counter)
    ensures Lates(os, c) > 0 <==> Late(c) in os
  {
    if os != [] {
      LatesOccur(os[..|os| - 1], c);
      assert os == os[..|os| - 1] + [Last(os)];
    }
  }

  lemma OvercountMore(front: seq<Outcome>, o: Outcome, c: Counter)
    ensures Overcount(front + [o], c) <==> Overcount(front, c) || (Late(c) in front && Credit(o) == c)
  {
    var os := front + [o];
    if Overcount(front, c) {
      var i, j :| 0 <= i < j < |front| && front[i] == Late(c) && Credit(front[j]) == c;
      assert os[i] == Late(c) && Credit(os[j]) == c;
    }
    if Late(c) in front && Credit(o) == c {
      var i :| 0 <= i < |front| && front[i] == Late(c);
      assert os[i] == Late(c) && Credit(os[|front|]) == c;
    }
    if Overcount(os, c) {
      var i, j :| 0 <= i < j < |os| && os[i] == Late(c) && Credit(os[j]) == c;
      assert front[i] == Late(c) && (j < |front| ==> Credit(front[j]) == c);
    }
  }

  ghost predicate AllSensible(os: seq<Outcome>) {
    forall i :: 0 <= i < |os| ==> Sensible(os[i])
  }

  /** A saved counter never falls short of its logs and equals their number exactly when nothing inflated
      it; in a transaction it is also zero exactly when they are. */
  lemma {:induction false} SavedExact(os: seq<Outcome>, c: Counter, transactional: bool)
    requires AllSensible(os)
    ensures LastSaved(os, c, transactional) >= Credits(os, c)
    ensures LastSaved(os, c, transactional) == Credits(os, c) <==> !Inflated(os, c, transactional)
    ensures transactional ==> (LastSaved(os, c, transactional) > 0 <==> Credits(os, c) > 0)
  {
    if !transactional {
      SavedIsMemory(os, c);
      LatesOccur(os, c);
    } else if os != [] {
      var front := os[..|os| - 1];
      SavedExact(front, c, transactional);
      LatesOccur(front, c);
      OvercountMore(front, Last(os), c);
      assert os == front + [Last(os)];
      assert Credit(Last(os)) == c ==> Last(os) != Late(c);
    }
  }

  lemma {:induction false} CreditsTotal(os: seq<Outcome>)
    ensures Credits(os, Promotions) + Credits(os, Retentions) + Credits(os, Graduations) +
            Credits(os, Transfers) + Credits(os, Withdrawals) + Credits(os, Failures) +
            Credits(os, Skips) == |os|
  {
    if os != [] { CreditsTotal(os[..|os| - 1]); }
  }

  ghost predicate SavedFacts(q: Progress, os: seq<Outcome>, c: Counter, transactional: bool) {
    && LogCount(q.logs, c) == Credits(os, c) <= q.saved.Get(c)
    && (q.saved.Get(c) == Credits(os, c) <==> !Inflated(os, c, transactional))
    && (transactional ==> (q.saved.Get(c) > 0 <==> Credits(os, c) > 0))
  }

  lemma AllSaved(w: World, plan: Plan, faults: Faults, ids: seq<Id>)
    requires forall i :: 0 <= i < |ids| ==> ids[i] < |plan.decisions|
    requires Distinct(ids)
    ensures forall c :: SavedFacts(Students(Fresh(w), plan, faults, ids), Outcomes(Fresh(w), plan, faults, ids), c,
                                   faults.transactional)
  {
    var os := Outcomes(Fresh(w), plan, faults, ids);
    forall c ensures SavedFacts(Students(Fresh(w), plan, faults, ids), os, c, faults.transactional) {
      LoopCounters(w, plan, faults, ids, c);
      SavedExact(os, c, faults.transactional);
    }
  }

  /** Each counter equals its logs, and all of them add up to the logs, exactly where nothing inflates. */
  ghost predicate Accounted(q: Progress, os: seq<Outcome>, transactional: bool) {
    && |q.logs| == |os|
    && (forall c :: q.saved.Get(c) == LogCount(q.logs, c) <==> !Inflated(os, c, transactional))
    && (q.saved.Total() == |q.logs| <==> forall c :: !Inflated(os, c, transactional))
  }

  lemma TotalFacts(q: Progress, os: seq<Outcome>, transactional: bool)
    requires |q.logs| == |os| && forall c :: SavedFacts(q, os, c, transactional)
    ensures Accounted(q, os, transactional)
  {
    forall c ensures q.saved.Get(c) == LogCount(q.logs, c) <==> !Inflated(os, c, transactional) {
      assert SavedFacts(q, os, c, transactional);
    }
    CreditsTotal(os);
    var credits := Tally(Credits(os, Promotions), Credits(os, Retentions), Credits(os, Graduations),
      Credits(os, Transfers), Credits(os, Withdrawals), Credits(os, Failures), Credits(os, Skips));
    forall c ensures q.saved.Get(c) >= credits.Get(c) &&
                     (q.saved.Get(c) == credits.Get(c) <==> !Inflated(os, c, transactional)) {
      assert SavedFacts(q, os, c, transactional);
    }
    TotalTight(q.saved, credits);
  }

  lemma TotalTight(t: Tally, u: Tally)
    requires forall c :: t.Get(c) >= u.Get(c)
    ensures t.Total() == u.Total() <==> forall c :: t.Get(c) == u.Get(c)
  {
    assert t.Get(Promotions) >= u.Get(Promotions) && t.Get(Retentions) >= u.Get(Retentions);
    assert t.Get(Graduations) >= u.Get(Graduations) && t.Get(Transfers) >= u.Get(Transfers);
    assert t.Get(Withdrawals) >= u.Get(Withdrawals) && t.Get(Failures) >= u.Get(Failures);
    assert t.Get(Skips) >= u.Get(Skips);
  }

  /** Each saved counter of a fresh run equals its log count, and the counters add up to the logs, exactly
      when nothing inflates them: in a transaction, when no late failure of a counter precedes a success of
      it; elsewhere, when there is no late failure at all. */
  lemma RunAccounting(w: World, plan: Plan, faults: Faults)
    ensures var ids := ReadyIds(plan.decisions);
            Accounted(Students(Fresh(w), plan, faults, ids), Outcomes(Fresh(w), plan, faults, ids),
                      faults.transactional)
  {
    var ids := ReadyIds(plan.decisions);
    AllSaved(w, plan, faults, ids);
    FreshLogs(w, plan, faults, ids);
    TotalFacts(Students(Fresh(w), plan, faults, ids), Outcomes(Fresh(w), plan, faults, ids), faults.transactional);
  }

  /** Outside exceptions strike only inside the writes of a step, if at all. */
  predicate InStepsOnly(faults: Faults) {
    forall id <- faults.breaks :: faults.breaks[id].InStep?
  }

  /** With failures only inside the student step the counters are exact, in a transaction or not. */
  lemma EarlyFailuresOnly(w: World, plan: Plan, faults: Faults, ids: seq<Id>, c: Counter)
    requires forall i :: 0 <= i < |ids| ==> ids[i] < |plan.decisions|
    requires Distinct(ids) && InStepsOnly(faults)
    ensures Students(Fresh(w), plan, faults, ids).saved.Get(c) == Credits(Outcomes(Fresh(w), plan, faults, ids), c)
  {
    NoLates(Fresh(w), plan, faults, ids, c);
    AllSaved(w, plan, faults, ids);
    assert SavedFacts(Students(Fresh(w), plan, faults, ids), Outcomes(Fresh(w), plan, faults, ids), c,
                      faults.transactional);
  }

  lemma NotLate(w: World, plan: Plan, faults: Faults, id: Id)
    requires id < |plan.decisions| && InStepsOnly(faults)
    ensures !OutcomeOf(w, plan, faults, id).Late?
  {
  }

  lemma {:induction false} NoLates(p: Progress, plan: Plan, faults: Faults, ids: seq<Id>, c: Counter)
    requires forall i :: 0 <= i < |ids| ==> ids[i] < |plan.decisions|
    requires InStepsOnly(faults)
    ensures Late(c) !in Outcomes(p, plan, faults, ids)
  {
    if ids != [] {
      NoLates(p, plan, faults, ids[..|ids| - 1], c);
      NotLate(Students(p, plan, faults, ids[..|ids| - 1]).world, plan, faults, Last(ids));
    }
  }

  // ---------------------------------------------------------------- the status

  /** The status as a function of how many students ended how. */
  function StatusFrom(moved: nat, graduated: nat, failed: nat, possible: bool): ExecStatus {
    if (failed == 0 || moved > 0) && moved + graduated > 0 then (if possible then Succeeded else Failed)
    else if failed > 0 then Failed
    else Succeeded
  }

  predicate SwitchesYear(moved: nat, graduated: nat, failed: nat, possible: bool) {
    (failed == 0 || moved > 0) && moved + graduated > 0 && possible
  }

  /** f is how a task ends whose loop left q: its status and its year switch follow from the logs. */
  ghost predicate EndsByLogs(f: Finish, q: Progress, plan: Plan, possible: bool) {
    var moved := LogCount(q.logs, Promotions) + LogCount(q.logs, Retentions);
    var graduated, failed := LogCount(q.logs, Graduations), LogCount(q.logs, Failures);
    && f.status == StatusFrom(moved, graduated, failed, possible)
    && (SwitchesYear(moved, graduated, failed, possible) ==>
          plan.source < |q.world.years| && plan.target < |q.world.years|)
    && f.progress.world ==
       if SwitchesYear(moved, graduated, failed, possible) then Flipped(q.world, plan) else q.world
  }

  /** r is how a task ends whose loop left q without an exception. */
  ghost predicate Ends(r: Result<Finish>, q: Progress, plan: Plan, possible: bool) {
    && r.Ok? && r.value.status == FinalStatus(q.saved, possible) && r.value.progress.saved == q.saved
    && (possible ==> plan.source < |q.world.years| && plan.target < |q.world.years|)
    && r.value.progress.logs == q.logs
    && r.value.progress.world == if FlipAttempted(q.saved) && possible then Flipped(q.world, plan) else q.world
  }

  lemma TaskShape(p: Progress, plan: Plan, faults: Faults)
    ensures var q, r := Students(p, plan, faults, ReadyIds(plan.decisions)), RunTask(p, plan, faults);
            if !q.crashed then Ends(r, q, plan, FlipPossible(q.world, plan, faults))
            else if faults.transactional then r.Err?
            else r == Ok(Finish(q, Failed))
  {
  }

  /** Some attempt raised, in a worker, after counter c was written and without a log of its success. */
  ghost predicate LeftOver(os: seq<Outcome>, c: Counter, transactional: bool) {
    !transactional && Late(c) in os
  }

  /** A saved counter is positive when a log credits it or a late attempt left it behind, and only then. */
  ghost predicate Signs(saved: Tally, logs: seq<Log>, os: seq<Outcome>, transactional: bool) {
    && (forall c :: saved.Get(c) > 0 <==> LogCount(logs, c) > 0 || LeftOver(os, c, transactional))
    && (forall c :: Late(c) in os ==> LogCount(logs, Failures) > 0)
    && Late(Failures) !in os
  }

  lemma {:induction false} LateFails(os: seq<Outcome>, c: Counter)
    requires Late(c) in os
    ensures Credits(os, Failures) > 0
  {
    var front := os[..|os| - 1];
    assert os == front + [Last(os)];
    if Late(c) in front { LateFails(front, c); }
  }

  lemma SavedSigns(w: World, plan: Plan, faults: Faults, ids: seq<Id>)
    requires forall i :: 0 <= i < |ids| ==> ids[i] < |plan.decisions|
    requires Distinct(ids)
    ensures var q := Students(Fresh(w), plan, faults, ids);
            Signs(q.saved, q.logs, Outcomes(Fresh(w), plan, faults, ids), faults.transactional)
  {
    var q, os := Students(Fresh(w), plan, faults, ids), Outcomes(Fresh(w), plan, faults, ids);
    AllSaved(w, plan, faults, ids);
    FactsSign(q, os, faults.transactional);
    forall c | Late(c) in os ensures LogCount(q.logs, Failures) > 0 {
      LateFails(os, c);
      assert SavedFacts(q, os, Failures, faults.transactional);
    }
  }

  lemma FactsSign(q: Progress, os: seq<Outcome>, transactional: bool)
    requires forall c :: SavedFacts(q, os, c, transactional)
    ensures forall c :: q.saved.Get(c) > 0 <==> LogCount(q.logs, c) > 0 || LeftOver(os, c, transactional)
  {
    forall c ensures q.saved.Get(c) > 0 <==> LogCount(q.logs, c) > 0 || LeftOver(os, c, transactional) {
      assert SavedFacts(q, os, c, transactional);
    }
  }

  /** The logs tell the outcome of the task: in a transaction, or when the year cannot be switched, or when
      some move is logged as a success, or when no move was left behind by a late attempt. */
  ghost predicate LogsTell(logs: seq<Log>, os: seq<Outcome>, transactional: bool, possible: bool) {
    || transactional || !possible
    || LogCount(logs, Promotions) + LogCount(logs, Retentions) > 0
    || (Late(Promotions) !in os && Late(Retentions) !in os)
  }

  lemma SignsDecide(saved: Tally, logs: seq<Log>, os: seq<Outcome>, transactional: bool, possible: bool)
    requires Signs(saved, logs, os, transactional)
    ensures var moved := LogCount(logs, Promotions) + LogCount(logs, Retentions);
            var graduated, failed := LogCount(logs, Graduations), LogCount(logs, Failures);
            && (FinalStatus(saved, possible) == StatusFrom(moved, graduated, failed, possible) <==>
                LogsTell(logs, os, transactional, possible))
            && (LogsTell(logs, os, transactional, possible) ==>
                  (FlipAttempted(saved) && possible <==> SwitchesYear(moved, graduated, failed, possible)))
  {
    var p, r := LogCount(logs, Promotions), LogCount(logs, Retentions);
    var g, f := LogCount(logs, Graduations), LogCount(logs, Failures);
    assert saved.Get(Promotions) > 0 <==> p > 0 || LeftOver(os, Promotions, transactional);
    assert saved.Get(Retentions) > 0 <==> r > 0 || LeftOver(os, Retentions, transactional);
    assert saved.Get(Graduations) > 0 <==> g > 0 || LeftOver(os, Graduations, transactional);
    assert saved.Get(Failures) > 0 <==> f > 0;
  }

  lemma SignsEnd(r: Result<Finish>, q: Progress, plan: Plan, os: seq<Outcome>, transactional: bool, possible: bool)
    requires Ends(r, q, plan, possible) && Signs(q.saved, q.logs, os, transactional)
    ensures EndsByLogs(r.value, q, plan, possible) <==> LogsTell(q.logs, os, transactional, possible)
  {
    SignsDecide(q.saved, q.logs, os, transactional, possible);
  }

  /** The status and the year switch of a fresh run that reaches its end follow from its logs exactly when
      the logs tell: always in a transaction, and in a worker unless the year can be switched, no move is
      logged as a success and some move was left behind by an attempt struck between counter and log. */
  lemma StatusFollowsLogs(w: World, plan: Plan, faults: Faults)
    requires !Students(Fresh(w), plan, faults, ReadyIds(plan.decisions)).crashed
    ensures var ids := ReadyIds(plan.decisions);
            var q, os := Students(Fresh(w), plan, faults, ids), Outcomes(Fresh(w), plan, faults, ids);
            var possible := FlipPossible(q.world, plan, faults);
            && RunTask(Fresh(w), plan, faults).Ok?
            && (EndsByLogs(RunTask(Fresh(w), plan, faults).value, q, plan, possible) <==>
                LogsTell(q.logs, os, faults.transactional, possible))
  {
    var ids := ReadyIds(plan.decisions);
    SavedSigns(w, plan, faults, ids);
    TaskShape(Fresh(w), plan, faults);
    var q, os := Students(Fresh(w), plan, faults, ids), Outcomes(Fresh(w), plan, faults, ids);
    SignsEnd(RunTask(Fresh(w), plan, faults), q, plan, os, faults.transactional, FlipPossible(q.world, plan, faults));
  }

  /** No task, new or resumed, ends with the status Partial. */
  lemma NeverPartial(p: Progress, plan: Plan, faults: Faults)
    requires RunTask(p, plan, faults).Ok?
    ensures RunTask(p, plan, faults).value.status in {Succeeded, Failed}
  {
    TaskShape(p, plan, faults);
  }
}
