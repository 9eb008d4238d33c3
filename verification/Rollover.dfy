/** The standalone year rollover and its undo. */
module Rollover {
  import opened Records
  import opened Calendar
  import opened Courses
  import opened Recommendations
  import opened Tables
  import opened Preparation

  const UNDO_HOURS: nat := 24

  /** The roster as it stands before anyone moves. */
  function Capture(w: World, es: seq<Id>): (r: seq<Placement>)
    requires forall i :: 0 <= i < |es| ==> es[i] < |w.enrollments| && w.enrollments[es[i]].profile < |w.profiles|
    ensures |r| == |es|
    ensures forall i :: 0 <= i < |es| ==>
              var e := w.enrollments[es[i]];
              r[i] == Placement(e.profile, e.batch, w.profiles[e.profile].status)
  {
    seq(|es|, i requires 0 <= i < |es| =>
      var e := w.enrollments[es[i]];
      Placement(e.profile, e.batch, w.profiles[e.profile].status))
  }

  // ---------------------------------------------------------------- execute, on values

  /** Old section to its copy in the new year. */
  type BatchMap = map<Id, Id>

  datatype Copied = Copied(world: World, copies: BatchMap)

  /** Copies the listed sections of a year, the first n rows of the table considered. */
  function CopyBatches(w: World, from: Id, to: Id, n: nat): Result<Copied>
    requires n <= |w.batches|
  {
    if n == 0 then Ok(Copied(w, map[]))
    else
      match CopyBatches(w, from, to, n - 1)
      case Err(e) => Err(e)
      case Ok(c) =>
        if !IsLocalBatch(w, n - 1) || w.batches[n - 1].year != from then Ok(c)
        else
          match AddBatch(c.world, w.batches[n - 1].course, to, w.batches[n - 1].name)
          case Err(e) => Err(e)
          case Ok(v) => Ok(Copied(v, c.copies[n - 1 := |c.world.batches|]))
  }

  datatype Rolling = Rolling(world: World, movements: seq<Movement>)

  /** Closes the old row, opens one in the new year and points the profile at it. */
  function MoveTo(r: Rolling, e: Id, to: Id, dest: Id): Result<Rolling>
    requires e < |r.world.enrollments| && r.world.enrollments[e].profile < |r.world.profiles|
  {
    var w := r.world;
    var p := w.enrollments[e].profile;
    match AddEnrollment(Deactivate(w, e, Option.None), p, to, Some(dest), OpenArrears(w, e))
    case Err(x) => Err(x)
    case Ok(v) =>
      Ok(Rolling(PlaceStudent(SyncEnrollment(v, p, |w.enrollments|), p, dest),
                 r.movements + [Movement(p, e, Some(|w.enrollments|))]))
  }

  function GraduateNow(r: Rolling, e: Id): Rolling
    requires e < |r.world.enrollments| && r.world.enrollments[e].profile < |r.world.profiles|
  {
    var p := r.world.enrollments[e].profile;
    Rolling(CloseStudent(SyncEnrollment(Deactivate(r.world, e, Some(Graduated)), p, e), p, Graduated),
            r.movements + [Movement(p, e, Option.None)])
  }

  /** The section of the next course with the same name, created when missing. */
  function Destination(w: World, course: Id, to: Id, name: Name): Result<(World, Id)> {
    var found := FindExact(w, |w.batches|, course, to, name);
    if found.Some? then Ok((w, found.value))
    else
      match AddBatch(w, course, to, name)
      case Err(x) => Err(x)
      case Ok(v) => Ok((v, |w.batches|))
  }

  function RollStudent(r: Rolling, copies: BatchMap, to: Id, e: Id): Result<Rolling> {
    var w := r.world;
    if e >= |w.enrollments| || w.enrollments[e].profile >= |w.profiles| then Err(Crash)
    else
      var b := w.enrollments[e].batch;
      if b.None? then Ok(r)
      else if b.value >= |w.batches| || w.batches[b.value].course >= |w.courses| then Err(Crash)
      else
        var c, name := w.batches[b.value].course, w.batches[b.value].name;
        var next := NextCourse(w.courses, w.courses[c].department, c);
        if next.Some? then
          match Destination(w, next.value, to, name)
          case Err(x) => Err(x)
          case Ok(d) => MoveTo(r.(world := d.0), e, to, d.1)
        else if OpenArrears(w, e) == [] then Ok(GraduateNow(r, e))
        else if b.value !in copies then Err(Crash)
        else MoveTo(r, e, to, copies[b.value])
  }

  function RollStudents(r: Rolling, copies: BatchMap, to: Id, es: seq<Id>): Result<Rolling> {
    if es == [] then Ok(r)
    else
      match RollStudents(r, copies, to, es[..|es| - 1])
      case Err(x) => Err(x)
      case Ok(q) => RollStudent(q, copies, to, es[|es| - 1])
  }

  /** Everything after the year switch. */
  function RollAll(w: World, from: Id, to: Id): Result<Rolling> {
    match CopyBatches(w, from, to, |w.batches|)
    case Err(x) => Err(x)
    case Ok(c) => RollStudents(Rolling(c.world, []), c.copies, to, Roster(w, from))
  }

  function SwitchYears(w: World, from: Id, name: Name): Result<World>
    requires from < |w.years|
  {
    match CreateYear(w.years, name, true)
    case Err(x) => Err(x)
    case Ok(ys) => Ok(w.(years := SetCurrentYear(FreezeYear(ys, from), |w.years|)))
  }

  /** following derives the next year's name; now is in hours. */
  function ExecuteRollover(w: World, following: Name -> Name, now: nat): Result<World> {
    var from := CurrentYear(w.years);
    if from.None? then Err(Rejected)
    else if LiveNameTaken(w.years, following(w.years[from.value].name)) then Err(Rejected)
    else
      var placements := Capture(w, Roster(w, from.value));
      match SwitchYears(w, from.value, following(w.years[from.value].name))
      case Err(x) => Err(x)
      case Ok(v) =>
        match RollAll(v, from.value, |w.years|)
        case Err(x) => Err(x)
        case Ok(r) =>
          Ok(r.world.(rollovers := w.rollovers + [RolloverRun(
            from.value, Some(|w.years|), RollSucceeded, Snapshot(placements, r.movements), Some(now + UNDO_HOURS))]))
  }

  // ---------------------------------------------------------------- undo, on values

  function RestoreAll(w: World, ps: seq<Placement>): World {
    if ps == [] then w
    else
      var v, p := RestoreAll(w, ps[..|ps| - 1]), ps[|ps| - 1];
      if p.profile < |v.profiles| then RestoreStudent(v, p) else v
  }

  /** Reopening a row violates the constraint when the student has another live row in that year. */
  predicate Contested(es: seq<Enrollment>, e: Id)
    requires e < |es|
  {
    exists j :: 0 <= j < |es| && j != e && ActiveIn(es[j], es[e].profile, es[e].year)
  }

  /** The tables without the row that the movement created. */
  function Dropped(w: World, m: Movement): World {
    if m.created.Some? && m.created.value < |w.enrollments| then DropEnrollment(w, m.created.value) else w
  }

  function UndoMovement(w: World, m: Movement): Result<World> {
    var v := Dropped(w, m);
    if m.prior >= |v.enrollments| then Ok(v)
    else if Contested(v.enrollments, m.prior) then Err(Integrity)
    else
      var u := Reactivate(v, m.prior);
      Ok(if m.profile < |u.profiles| then SyncEnrollment(u, m.profile, m.prior) else u)
  }

  function UndoMovements(w: World, ms: seq<Movement>): Result<World> {
    if ms == [] then Ok(w)
    else
      match UndoMovements(w, ms[..|ms| - 1])
      case Err(x) => Err(x)
      case Ok(v) => UndoMovement(v, ms[|ms| - 1])
  }

  /** The two year saves; a run without one of its years skips that save. */
  function UndoRunYears(ys: seq<Year>, run: RolloverRun): Result<seq<Year>> {
    var dropped := if run.to.Some? && run.to.value < |ys| then DropYear(ys, run.to.value) else ys;
    if run.from < |dropped| then ReactivateYear(dropped, run.from) else Ok(dropped)
  }

  function UndoRun(w: World, run: RolloverRun): Result<World> {
    match UndoMovements(RestoreAll(w, run.snapshot.placements), run.snapshot.movements)
    case Err(x) => Err(x)
    case Ok(v) =>
      match UndoRunYears(w.years, run)
      case Err(x) => Err(x)
      case Ok(ys) => Ok(v.(years := ys))
  }

  function UndoRollover(w: World, now: nat): Result<World> {
    if w.rollovers == [] then Err(Rejected)
    else
      var n := |w.rollovers| - 1;
      var run := w.rollovers[n];
      if run.status != RollSucceeded then Err(Rejected)
      else if run.expires.None? || now >= run.expires.value then Err(Denied)
      else
        match UndoRun(w, run)
        case Err(x) => Err(x)
        case Ok(v) =>
          Ok(v.(rollovers := w.rollovers[n := run.(status := RollCompensated, expires := Option.None)]))
  }

  // ---------------------------------------------------------------- in place

  /** The sections before row n are copied, as c has them, and row n cannot be. */
  predicate CopyStops(w: World, from: Id, to: Id, c: Copied, n: nat) {
    n < |w.batches| && CopyBatches(w, from, to, n) == Ok(c) && CopyBatches(w, from, to, n + 1).Err?
  }

  /** The tables at which a student's part of a rollover raises: the old row is closed by then, if the
      destination was found. */
  function RaisedAt(w: World, copies: BatchMap, to: Id, e: Id): World {
    if e >= |w.enrollments| || w.enrollments[e].profile >= |w.profiles| || w.enrollments[e].batch.None? then w
    else
      var b := w.enrollments[e].batch.value;
      if b >= |w.batches| || w.batches[b].course >= |w.courses| then w
      else
        var c, name := w.batches[b].course, w.batches[b].name;
        var next := NextCourse(w.courses, w.courses[c].department, c);
        if next.Some? then
          match Destination(w, next.value, to, name)
          case Err(_) => w
          case Ok(d) => Deactivate(d.0, e, Option.None)
        else if b !in copies then w
        else Deactivate(w, e, Option.None)
  }

  /** The students before number n are done, and number n raises at v. */
  predicate RollStops(r: Rolling, copies: BatchMap, to: Id, es: seq<Id>, v: World, n: nat) {
    && n < |es| && RollStudents(r, copies, to, es[..n]).Ok?
    && var q := RollStudents(r, copies, to, es[..n]).value;
       RollStudent(q, copies, to, es[n]).Err? && v == RaisedAt(q.world, copies, to, es[n])
  }

  method CopySections(db: Database, from: Id, to: Id) returns (ok: bool, copies: BatchMap)
    modifies db`batches
    ensures var r := CopyBatches(old(db.Rows()), from, to, |old(db.batches)|);
            (ok <==> r.Ok?) && (ok ==> r.value == Copied(db.Rows(), copies))
    ensures !ok ==> exists n: nat :: CopyStops(old(db.Rows()), from, to, Copied(db.Rows(), copies), n)
  {
    copies := map[];
    var listed := db.Rows();
    for i := 0 to |listed.batches|
      invariant CopyBatches(listed, from, to, i) == Ok(Copied(db.Rows(), copies))
    {
      if IsLocalBatch(listed, i) && listed.batches[i].year == from {
        var created := db.CreateBatch(listed.batches[i].course, to, listed.batches[i].name);
        if created.None? {
          CopyFails(listed, from, to, i + 1, |listed.batches|);
          assert CopyStops(listed, from, to, Copied(db.Rows(), copies), i);
          return false, copies;
        }
        copies := copies[i := created.value];
      }
    }
    ok := true;
  }

  lemma {:induction false} CopyFails(w: World, from: Id, to: Id, i: nat, n: nat)
    requires i <= n <= |w.batches| && CopyBatches(w, from, to, i).Err?
    ensures CopyBatches(w, from, to, n).Err?
  {
    if i < n { CopyFails(w, from, to, i, n - 1); }
  }

  method MoveInPlace(db: Database, e: Id, to: Id, dest: Id) returns (m: Option<Movement>)
    requires e < |db.enrollments| && db.enrollments[e].profile < |db.profiles|
    modifies db
    ensures forall ms :: var r := MoveTo(Rolling(old(db.Rows()), ms), e, to, dest);
              && (m.Some? <==> r.Ok?)
              && (m.Some? ==> r.value == Rolling(db.Rows(), ms + [m.value]))
    ensures m.None? ==> db.Rows() == Deactivate(old(db.Rows()), e, Option.None)
  {
    var p, backlog := db.enrollments[e].profile, OpenArrears(db.Rows(), e);
    db.DeactivateEnrollment(e, Option.None);
    var created := db.CreateEnrollment(p, to, Some(dest), backlog);
    if created.None? { return Option.None; }
    db.SyncCurrentEnrollment(p, created.value);
    db.SetStudentBatch(p, dest);
    m := Some(Movement(p, e, created));
  }

  /** One student of the roster; the movements gain at most one entry. */
  method RollInPlace(db: Database, copies: BatchMap, to: Id, e: Id, ms: seq<Movement>)
    returns (ok: bool, ms': seq<Movement>)
    modifies db
    ensures var r := RollStudent(Rolling(old(db.Rows()), ms), copies, to, e);
            (ok <==> r.Ok?) && (ok ==> r.value == Rolling(db.Rows(), ms'))
    ensures !ok ==> db.Rows() == RaisedAt(old(db.Rows()), copies, to, e)
  {
    ms' := ms;
    if e >= |db.enrollments| || db.enrollments[e].profile >= |db.profiles| { return false, ms; }
    var b := db.enrollments[e].batch;
    if b.None? { return true, ms; }
    if b.value >= |db.batches| || db.batches[b.value].course >= |db.courses| { return false, ms; }
    var c, name := db.batches[b.value].course, db.batches[b.value].name;
    var next := NextCourse(db.courses, db.courses[c].department, c);
    var dest;
    if next.Some? {
      dest := FindExact(db.Rows(), |db.batches|, next.value, to, name);
      if dest.None? { dest := db.CreateBatch(next.value, to, name); }
      if dest.None? { return false, ms; }
    } else if OpenArrears(db.Rows(), e) == [] {
      var p := db.enrollments[e].profile;
      db.DeactivateEnrollment(e, Some(Graduated));
      db.SyncCurrentEnrollment(p, e);
      db.SetAcademicStatus(p, Graduated);
      return true, ms + [Movement(p, e, Option.None)];
    } else {
      if b.value !in copies { return false, ms; }
      dest := Some(copies[b.value]);
    }
    var m := MoveInPlace(db, e, to, dest.value);
    if m.None? { return false, ms; }
    return true, ms + [m.value];
  }

  method RollRoster(db: Database, copies: BatchMap, to: Id, es: seq<Id>) returns (ok: bool, ms: seq<Movement>)
    modifies db
    ensures var r := RollStudents(Rolling(old(db.Rows()), []), copies, to, es);
            (ok <==> r.Ok?) && (ok ==> r.value == Rolling(db.Rows(), ms))
    ensures !ok ==> exists n: nat :: RollStops(Rolling(old(db.Rows()), []), copies, to, es, db.Rows(), n)
  {
    ms := [];
    ghost var start := Rolling(db.Rows(), []);
    for i := 0 to |es|
      invariant RollStudents(start, copies, to, es[..i]) == Ok(Rolling(db.Rows(), ms))
    {
      assert es[..i + 1][..i] == es[..i];
      ghost var before := Rolling(db.Rows(), ms);
      ok, ms := RollInPlace(db, copies, to, es[i], ms);
      if !ok {
        StopsHere(start, copies, to, es, before, db.Rows(), i);
        return;
      }
    }
    assert es[..|es|] == es;
    ok := true;
  }

  lemma StopsHere(r: Rolling, copies: BatchMap, to: Id, es: seq<Id>, q: Rolling, v: World, n: nat)
    requires n < |es| && RollStudents(r, copies, to, es[..n]) == Ok(q)
    requires RollStudent(q, copies, to, es[n]).Err? && v == RaisedAt(q.world, copies, to, es[n])
    ensures RollStops(r, copies, to, es, v, n) && RollStudents(r, copies, to, es).Err?
  {
    assert es[..n + 1][..n] == es[..n];
    RollFails(r, copies, to, es, n + 1);
  }

  lemma {:induction false} RollFails(r: Rolling, copies: BatchMap, to: Id, es: seq<Id>, n: nat)
    requires n <= |es| && RollStudents(r, copies, to, es[..n]).Err?
    ensures RollStudents(r, copies, to, es).Err?
  {
    if n < |es| {
      assert es[..|es| - 1][..n] == es[..n];
      RollFails(r, copies, to, es[..|es| - 1], n);
    } else {
      assert es[..n] == es;
    }
  }

  method SwitchInPlace(db: Database, from: Id, name: Name) returns (ok: bool)
    requires from < |db.years|
    modifies db`years
    ensures var r := SwitchYears(old(db.Rows()), from, name);
            (ok <==> r.Ok?) && db.Rows() == if ok then r.value else old(db.Rows())
  {
    var created := db.AddYear(name, true);
    if created.None? { return false; }
    db.Freeze(from);
    db.MakeCurrent(created.value);
    ok := true;
  }

  /** The rollover transaction. */
  method RunRollover(db: Database, following: Name -> Name, now: nat) returns (ok: bool)
    modifies db
    ensures var r := ExecuteRollover(old(db.Rows()), following, now);
            (ok <==> r.Ok?) && db.Rows() == if r.Ok? then r.value else old(db.Rows())
  {
    var current := CurrentYear(db.years);
    if current.None? { return false; }
    var from, to := current.value, |db.years|;
    var name := following(db.years[from].name);
    if LiveNameTaken(db.years, name) { return false; }
    var savepoint := db.Rows();
    var roster := Roster(savepoint, from);
    var placements := Capture(savepoint, roster);
    ok := SwitchInPlace(db, from, name);
    if !ok { return; }
    ghost var switched := db.Rows();
    var ms := [];
    var copied, copies := CopySections(db, from, to);
    ok := copied;
    if ok {
      RosterKept(savepoint, switched, from, |savepoint.enrollments|);
      ok, ms := RollRoster(db, copies, to, roster);
    }
    if !ok {
      db.RollbackTo(savepoint);
      return;
    }
    db.rollovers := db.rollovers +
      [RolloverRun(from, Some(to), RollSucceeded, Snapshot(placements, ms), Some(now + UNDO_HOURS))];
    RollKeepsRuns(switched, from, to);
  }

  lemma {:induction false} RosterKept(w: World, v: World, y: Id, n: nat)
    requires v.enrollments == w.enrollments && v.profiles == w.profiles && n <= |w.enrollments|
    ensures RosterOf(v, y, n) == RosterOf(w, y, n)
  {
    if n > 0 {
      RosterKept(w, v, y, n - 1);
      assert OnRoster(v, y, n - 1) == OnRoster(w, y, n - 1);
    }
  }

  lemma RollKeepsRuns(w: World, from: Id, to: Id)
    requires RollAll(w, from, to).Ok?
    ensures RollAll(w, from, to).value.world.rollovers == w.rollovers
  {
    CopyKeepsRuns(w, from, to, |w.batches|);
    var c := CopyBatches(w, from, to, |w.batches|).value;
    StudentsKeepRuns(Rolling(c.world, []), c.copies, to, Roster(w, from));
  }

  lemma {:induction false} CopyKeepsRuns(w: World, from: Id, to: Id, n: nat)
    requires n <= |w.batches| && CopyBatches(w, from, to, n).Ok?
    ensures CopyBatches(w, from, to, n).value.world.rollovers == w.rollovers
  {
    if n > 0 { CopyKeepsRuns(w, from, to, n - 1); }
  }

  lemma StudentKeepsRuns(r: Rolling, copies: BatchMap, to: Id, e: Id)
    requires RollStudent(r, copies, to, e).Ok?
    ensures RollStudent(r, copies, to, e).value.world.rollovers == r.world.rollovers
  {
  }

  lemma {:induction false} StudentsKeepRuns(r: Rolling, copies: BatchMap, to: Id, es: seq<Id>)
    requires RollStudents(r, copies, to, es).Ok?
    ensures RollStudents(r, copies, to, es).value.world.rollovers == r.world.rollovers
  {
    if es != [] {
      var front := es[..|es| - 1];
      StudentsKeepRuns(r, copies, to, front);
      StudentKeepsRuns(RollStudents(r, copies, to, front).value, copies, to, es[|es| - 1]);
    }
  }

  /** The movements before number n are undone, and number n raises at v. */
  predicate UndoStops(w: World, ms: seq<Movement>, v: World, n: nat) {
    && n < |ms| && UndoMovements(w, ms[..n]).Ok?
    && var u := UndoMovements(w, ms[..n]).value; UndoMovement(u, ms[n]).Err? && v == Dropped(u, ms[n])
  }

  method UndoOneInPlace(db: Database, m: Movement) returns (ok: bool)
    modifies db
    ensures var r := UndoMovement(old(db.Rows()), m);
            (ok <==> r.Ok?) && (ok ==> db.Rows() == r.value)
    ensures !ok ==> db.Rows() == Dropped(old(db.Rows()), m)
  {
    if m.created.Some? && m.created.value < |db.enrollments| { db.SoftDeleteEnrollment(m.created.value); }
    if m.prior >= |db.enrollments| { return true; }
    if Contested(db.enrollments, m.prior) { return false; }
    db.ReactivateEnrollment(m.prior);
    if m.profile < |db.profiles| { db.SyncCurrentEnrollment(m.profile, m.prior); }
    ok := true;
  }

  method UndoInPlace(db: Database, ps: seq<Placement>, ms: seq<Movement>) returns (ok: bool)
    modifies db
    ensures var r := UndoMovements(RestoreAll(old(db.Rows()), ps), ms);
            (ok <==> r.Ok?) && (ok ==> db.Rows() == r.value)
    ensures !ok ==> exists n: nat :: UndoStops(RestoreAll(old(db.Rows()), ps), ms, db.Rows(), n)
  {
    for i := 0 to |ps|
      invariant db.Rows() == RestoreAll(old(db.Rows()), ps[..i])
    {
      assert ps[..i + 1][..i] == ps[..i];
      if ps[i].profile < |db.profiles| { db.Restore(ps[i]); }
    }
    assert ps[..|ps|] == ps;
    ghost var restored := db.Rows();
    for i := 0 to |ms|
      invariant UndoMovements(restored, ms[..i]) == Ok(db.Rows())
    {
      assert ms[..i + 1][..i] == ms[..i];
      ok := UndoOneInPlace(db, ms[i]);
      if !ok {
        UndoFails(restored, ms, i + 1);
        assert UndoStops(restored, ms, db.Rows(), i);
        return;
      }
    }
    assert ms[..|ms|] == ms;
    ok := true;
  }

  lemma {:induction false} UndoFails(w: World, ms: seq<Movement>, n: nat)
    requires n <= |ms| && UndoMovements(w, ms[..n]).Err?
    ensures UndoMovements(w, ms).Err?
  {
    if n < |ms| {
      assert ms[..|ms| - 1][..n] == ms[..n];
      UndoFails(w, ms[..|ms| - 1], n);
    } else {
      assert ms[..n] == ms;
    }
  }

  lemma {:induction false} UndoKeepsYears(w: World, ms: seq<Movement>)
    requires UndoMovements(w, ms).Ok?
    ensures UndoMovements(w, ms).value.years == w.years && UndoMovements(w, ms).value.rollovers == w.rollovers
  {
    if ms != [] { UndoKeepsYears(w, ms[..|ms| - 1]); }
  }

  lemma {:induction false} RestoreKeepsYears(w: World, ps: seq<Placement>)
    ensures RestoreAll(w, ps).years == w.years && RestoreAll(w, ps).rollovers == w.rollovers
  {
    if ps != [] { RestoreKeepsYears(w, ps[..|ps| - 1]); }
  }

  method UndoYearsInPlace(db: Database, run: RolloverRun) returns (ok: bool)
    modifies db`years
    ensures ok <==> UndoRunYears(old(db.years), run).Ok?
    ensures ok ==> db.years == UndoRunYears(old(db.years), run).value
  {
    if run.to.Some? && run.to.value < |db.years| { db.DeactivateRolledYear(run.to.value); }
    ok := true;
    if run.from < |db.years| { ok := db.MakeYearActive(run.from); }
  }

  /** The undo transaction. */
  method RunUndo(db: Database, now: nat) returns (ok: bool)
    modifies db
    ensures var r := UndoRollover(old(db.Rows()), now);
            (ok <==> r.Ok?) && db.Rows() == if r.Ok? then r.value else old(db.Rows())
  {
    if db.rollovers == [] { return false; }
    var n := |db.rollovers| - 1;
    var run := db.rollovers[n];
    if run.status != RollSucceeded || run.expires.None? || now >= run.expires.value { return false; }
    var savepoint := db.Rows();
    ok := UndoInPlace(db, run.snapshot.placements, run.snapshot.movements);
    if ok {
      RestoreKeepsYears(savepoint, run.snapshot.placements);
      UndoKeepsYears(RestoreAll(savepoint, run.snapshot.placements), run.snapshot.movements);
      ok := UndoYearsInPlace(db, run);
      if ok {
        db.rollovers := db.rollovers[n := run.(status := RollCompensated, expires := Option.None)];
      }
    }
    if !ok { db.RollbackTo(savepoint); }
  }
}
