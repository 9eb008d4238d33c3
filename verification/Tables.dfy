/** The query layer: the tables of one branch as mutable state, and the writes that the promotion
    and rollover interactors make.  Each write equals a function on the row values. */
module Tables {
  import opened Records
  import opened Calendar

  // ---------------------------------------------------------------- writes, on values

  function AddEnrollment(w: World, p: Id, y: Id, b: Option<Id>, backlog: seq<Id>): Result<World> {
    if ActiveEnrollment(w.enrollments, p, y).Some? then Err(Integrity)
    else Ok(w.(enrollments := w.enrollments + [Enrollment(p, y, b, Active, backlog, true)]))
  }

  /** Clears the live flag; the status changes only when a terminal status is given. */
  function Deactivate(w: World, e: Id, terminal: Option<Standing>): World
    requires e < |w.enrollments|
  {
    var row := w.enrollments[e];
    w.(enrollments := w.enrollments[e := row.(
      live := false,
      status := if terminal.Some? then terminal.value else row.status)])
  }

  function Reactivate(w: World, e: Id): World
    requires e < |w.enrollments|
  {
    w.(enrollments := w.enrollments[e := w.enrollments[e].(live := true, status := Active)])
  }

  function DropEnrollment(w: World, e: Id): World
    requires e < |w.enrollments|
  {
    if !w.enrollments[e].live then w
    else w.(enrollments := w.enrollments[e := w.enrollments[e].(live := false, status := Withdrawn)])
  }

  function PlaceStudent(w: World, p: Id, b: Id): World
    requires p < |w.profiles|
  {
    w.(profiles := w.profiles[p := w.profiles[p].(batch := Some(b))])
  }

  function SyncEnrollment(w: World, p: Id, e: Id): World
    requires p < |w.profiles|
  {
    w.(profiles := w.profiles[p := w.profiles[p].(enrollment := Some(e))])
  }

  /** Graduation, transfer and withdrawal: a terminal status and no section. */
  function CloseStudent(w: World, p: Id, status: Standing): World
    requires p < |w.profiles|
  {
    w.(profiles := w.profiles[p := w.profiles[p].(status := status, batch := None)])
  }

  function RestoreStudent(w: World, p: Placement): World
    requires p.profile < |w.profiles|
  {
    w.(profiles := w.profiles[p.profile := w.profiles[p.profile].(batch := p.batch, status := p.status)])
  }

  /** Section names are unique per course and year over live and deleted rows. */
  predicate TwinExists(bs: seq<Batch>, course: Id, year: Id, name: Name) {
    exists i :: 0 <= i < |bs| && bs[i].course == course && bs[i].year == year && bs[i].name == name
  }

  function AddBatch(w: World, course: Id, year: Id, name: Name): Result<World> {
    if TwinExists(w.batches, course, year, name) then Err(Integrity)
    else Ok(w.(batches := w.batches + [Batch(course, year, name, 1, true)]))
  }

  ghost predicate UniqueBatches(bs: seq<Batch>) {
    forall i, j :: 0 <= i < j < |bs| ==>
      bs[i].course != bs[j].course || bs[i].year != bs[j].year || bs[i].name != bs[j].name
  }

  // ---------------------------------------------------------------- writes, in place

  class Database {
    var years: seq<Year>
    var courses: seq<Course>
    var batches: seq<Batch>
    var profiles: seq<Profile>
    var enrollments: seq<Enrollment>
    var fees: seq<Fee>
    var rollovers: seq<RolloverRun>
    var arrears: map<Id, seq<Id>>
    var college: bool

    constructor (w: World)
      ensures Rows() == w
    {
      years, courses, batches, profiles := w.years, w.courses, w.batches, w.profiles;
      enrollments, fees, rollovers := w.enrollments, w.fees, w.rollovers;
      arrears, college := w.arrears, w.college;
    }

    function Rows(): World
      reads this
    {
      World(years, courses, batches, profiles, enrollments, fees, rollovers, arrears, college)
    }

    /** Rolls every table back to a savepoint. */
    method RollbackTo(savepoint: World)
      modifies this
      ensures Rows() == savepoint
    {
      years, courses, batches, profiles :=
        savepoint.years, savepoint.courses, savepoint.batches, savepoint.profiles;
      enrollments, fees, rollovers := savepoint.enrollments, savepoint.fees, savepoint.rollovers;
      arrears, college := savepoint.arrears, savepoint.college;
    }

    /** Adds one live row, or raises when the student already has one in that year. */
    method CreateEnrollment(p: Id, y: Id, b: Option<Id>, backlog: seq<Id>) returns (r: Option<Id>)
      modifies this`enrollments
      ensures r.Some? <==> AddEnrollment(old(Rows()), p, y, b, backlog).Ok?
      ensures r.Some? ==> r.value == |old(enrollments)| &&
                          Rows() == AddEnrollment(old(Rows()), p, y, b, backlog).value
      ensures r.None? ==> Rows() == old(Rows())
    {
      if ActiveEnrollment(enrollments, p, y).Some? { return None; }
      r := Some(|enrollments|);
      enrollments := enrollments + [Enrollment(p, y, b, Active, backlog, true)];
    }

    method DeactivateEnrollment(e: Id, terminal: Option<Standing>)
      requires e < |enrollments|
      modifies this`enrollments
      ensures Rows() == Deactivate(old(Rows()), e, terminal)
    {
      var row := enrollments[e];
      var status := if terminal.Some? then terminal.value else row.status;
      enrollments := enrollments[e := row.(live := false, status := status)];
    }

    method ReactivateEnrollment(e: Id)
      requires e < |enrollments|
      modifies this`enrollments
      ensures Rows() == Reactivate(old(Rows()), e)
    {
      enrollments := enrollments[e := enrollments[e].(live := true, status := Active)];
    }

    method SoftDeleteEnrollment(e: Id)
      requires e < |enrollments|
      modifies this`enrollments
      ensures Rows() == DropEnrollment(old(Rows()), e)
    {
      if enrollments[e].live {
        enrollments := enrollments[e := enrollments[e].(live := false, status := Withdrawn)];
      }
    }

    method SetStudentBatch(p: Id, b: Id)
      requires p < |profiles|
      modifies this`profiles
      ensures Rows() == PlaceStudent(old(Rows()), p, b)
    {
      profiles := profiles[p := profiles[p].(batch := Some(b))];
    }

    method SyncCurrentEnrollment(p: Id, e: Id)
      requires p < |profiles|
      modifies this`profiles
      ensures Rows() == SyncEnrollment(old(Rows()), p, e)
    {
      if profiles[p].enrollment == Some(e) {
        assert profiles[p := profiles[p].(enrollment := Some(e))] == profiles;
        return;
      }
      profiles := profiles[p := profiles[p].(enrollment := Some(e))];
    }

    method SetAcademicStatus(p: Id, status: Standing)
      requires p < |profiles|
      modifies this`profiles
      ensures Rows() == CloseStudent(old(Rows()), p, status)
    {
      profiles := profiles[p := profiles[p].(status := status, batch := None)];
    }

    method Restore(p: Placement)
      requires p.profile < |profiles|
      modifies this`profiles
      ensures Rows() == RestoreStudent(old(Rows()), p)
    {
      profiles := profiles[p.profile := profiles[p.profile].(batch := p.batch, status := p.status)];
    }

    method CreateBatch(course: Id, year: Id, name: Name) returns (r: Option<Id>)
      modifies this`batches
      ensures r.Some? <==> AddBatch(old(Rows()), course, year, name).Ok?
      ensures r.Some? ==> r.value == |old(batches)| &&
                          Rows() == AddBatch(old(Rows()), course, year, name).value
      ensures r.None? ==> Rows() == old(Rows())
    {
      if TwinExists(batches, course, year, name) { return None; }
      r := Some(|batches|);
      batches := batches + [Batch(course, year, name, 1, true)];
    }

    // -------------------------------------------------------------- the calendar

    /** Clears the current flag of the other years when asked to, then inserts the year. */
    method AddYear(name: Name, current: bool) returns (r: Option<Id>)
      modifies this`years
      ensures r.Some? <==> CreateYear(old(years), name, current).Ok?
      ensures r.Some? ==> r.value == |old(years)| && years == CreateYear(old(years), name, current).value
      ensures r.None? ==> years == old(years)
    {
      if NameTaken(years, name) { return None; }
      r := Some(|years|);
      if current { years := ClearCurrent(years); }
      years := years + [Year(name, 1, current, false, true)];
    }

    method MakeCurrent(y: Id)
      requires y < |years|
      modifies this`years
      ensures years == SetCurrentYear(old(years), y)
    {
      var row := years[y];
      years := ClearCurrent(years);
      years := years[y := row.(current := true, version := row.version + 1)];
    }

    method Freeze(y: Id)
      requires y < |years|
      modifies this`years
      ensures years == FreezeYear(old(years), y)
    {
      years := years[y := years[y].(frozen := true, version := years[y].version + 1)];
    }

    method DeactivateRolledYear(y: Id)
      requires y < |years|
      modifies this`years
      ensures years == DropYear(old(years), y)
    {
      years := years[y := years[y].(current := false, live := false)];
    }

    method MakeYearActive(y: Id) returns (ok: bool)
      requires y < |years|
      modifies this`years
      ensures ok <==> ReactivateYear(old(years), y).Ok?
      ensures years == if ok then ReactivateYear(old(years), y).value else old(years)
    {
      if exists i :: 0 <= i < |years| && i != y && years[i].current { return false; }
      years := years[y := years[y].(frozen := false, current := true)];
      ok := true;
    }

    /** Freezes the source and makes the target current. */
    method ActivateTargetYear(source: Id, target: Id)
      requires source < |years| && target < |years|
      modifies this`years
      ensures years == ActivateTarget(old(years), source, target)
    {
      Freeze(source);
      MakeCurrent(target);
    }
  }
}
