/** A student's way through a department over several rollovers. */
module Progression {
  import opened Records
  import opened Calendar
  import opened Courses
  import opened Recommendations
  import opened Rollover
  import opened UndoTheorem

  /** Row e is the student's live place in year y, in a section of course c with the given name. */
  ghost predicate Seat(w: World, p: Id, y: Id, c: Id, name: Name, e: Id) {
    && p < |w.profiles| && w.profiles[p].status == Active && w.profiles[p].live
    && e < |w.enrollments|
    && var r := w.enrollments[e];
       && r.profile == p && r.year == y && r.live && r.status == Active
       && r.batch.Some? && r.batch.value < |w.batches|
       && w.batches[r.batch.value].course == c && w.batches[r.batch.value].name == name
  }

  /** No open arrears are recorded against any enrollment of the student, now or later. */
  ghost predicate NoArrears(w: World, p: Id) {
    forall e :: e in w.arrears ==> e < |w.enrollments| && w.enrollments[e].profile != p
  }

  // ---------------------------------------------------------------- one rollover, one student

  /** Everything that belongs to student p is as it was; the other tables only grew. */
  ghost predicate Untouched(w: World, v: World, p: Id) {
    && v.courses == w.courses && v.arrears == w.arrears && v.college == w.college
    && |v.profiles| == |w.profiles| && (p < |w.profiles| ==> v.profiles[p] == w.profiles[p])
    && |w.batches| <= |v.batches| && (forall b :: 0 <= b < |w.batches| ==> v.batches[b] == w.batches[b])
    && |w.enrollments| <= |v.enrollments|
    && (forall k :: 0 <= k < |w.enrollments| ==> v.enrollments[k].profile == w.enrollments[k].profile)
    && (forall k :: 0 <= k < |w.enrollments| && w.enrollments[k].profile == p ==>
          v.enrollments[k] == w.enrollments[k])
    && (forall k :: |w.enrollments| <= k < |v.enrollments| ==> v.enrollments[k].profile != p)
  }

  lemma OtherMoved(w: World, r: Rolling, e: Id, to: Id, dest: Id, p: Id)
    requires Untouched(w, r.world, p) && e < |w.enrollments| && w.enrollments[e].profile != p
    requires r.world.enrollments[e].profile < |r.world.profiles| && MoveTo(r, e, to, dest).Ok?
    ensures Untouched(w, MoveTo(r, e, to, dest).value.world, p)
  {
    var q, fs := MoveTo(r, e, to, dest).value.world.enrollments, r.world.enrollments;
    assert q == fs[e := fs[e].(live := false)] + [q[|fs|]];
  }

  lemma OtherGraduated(r: Rolling, e: Id, p: Id)
    requires e < |r.world.enrollments| && r.world.enrollments[e].profile != p
    requires r.world.enrollments[e].profile < |r.world.profiles|
    ensures Untouched(r.world, GraduateNow(r, e).world, p)
  {
  }

  lemma OtherStudent(r: Rolling, copies: BatchMap, to: Id, e: Id, p: Id)
    requires RollStudent(r, copies, to, e).Ok?
    requires e < |r.world.enrollments| && r.world.enrollments[e].profile != p
    ensures Untouched(r.world, RollStudent(r, copies, to, e).value.world, p)
  {
    var w := r.world;
    var b := w.enrollments[e].batch;
    if b.Some? {
      var c, name := w.batches[b.value].course, w.batches[b.value].name;
      var next := NextCourse(w.courses, w.courses[c].department, c);
      if next.Some? {
        var d := Destination(w, next.value, to, name).value;
        assert Untouched(w, d.0, p);
        OtherMoved(w, r.(world := d.0), e, to, d.1, p);
      } else if OpenArrears(w, e) == [] {
        OtherGraduated(r, e, p);
      } else {
        OtherMoved(w, r, e, to, copies[b.value], p);
      }
    }
  }

  lemma {:induction false} OtherStudents(r: Rolling, copies: BatchMap, to: Id, es: seq<Id>, p: Id)
    requires RollStudents(r, copies, to, es).Ok?
    requires forall i :: 0 <= i < |es| ==> es[i] < |r.world.enrollments| && r.world.enrollments[es[i]].profile != p
    ensures Untouched(r.world, RollStudents(r, copies, to, es).value.world, p)
  {
    if es != [] {
      var front := es[..|es| - 1];
      OtherStudents(r, copies, to, front, p);
      OtherStudent(RollStudents(r, copies, to, front).value, copies, to, es[|es| - 1], p);
    }
  }

  // ---------------------------------------------------------------- one rollover, every student

  /** The other rows of the student of row e are as they were, and no row is new, row n aside. */
  ghost predicate OtherRows(w: World, v: World, e: Id, n: Option<Id>)
    requires e < |w.enrollments|
  {
    forall k: Id ::
      k < |v.enrollments| && v.enrollments[k].profile == w.enrollments[e].profile && k != e && Some(k) != n ==>
        k < |w.enrollments| && v.enrollments[k] == w.enrollments[k]
  }

  /** Row e is closed; the student has row n of the new year, live and active, in a section of this course with
      the old section's name, and carries the arrears over; the profile points at that row and section. */
  ghost predicate SeatedAt(w: World, v: World, e: Id, to: Id, course: Id, n: Id)
    requires e < |w.enrollments| && w.enrollments[e].profile < |w.profiles|
    requires w.enrollments[e].batch.Some? && w.enrollments[e].batch.value < |w.batches|
  {
    var row := w.enrollments[e];
    && e < |v.enrollments| && v.enrollments[e] == row.(live := false)
    && n < |v.enrollments| && v.enrollments[n].batch.Some?
    && CarriesOver(w, e, v.enrollments[n].backlog)
    && (var s := v.enrollments[n].batch.value;
        && v.enrollments[n] == Enrollment(row.profile, to, Some(s), Active, v.enrollments[n].backlog, true)
        && row.profile < |v.profiles|
        && v.profiles[row.profile] == w.profiles[row.profile].(batch := Some(s), enrollment := Some(n))
        && s < |v.batches| && v.batches[s].live && v.batches[s].course == course && v.batches[s].year == to
        && v.batches[s].name == w.batches[row.batch.value].name)
    && OtherRows(w, v, e, Some(n))
  }

  /** Row e is closed as graduated; the profile is too, has no section and points at row e. */
  ghost predicate GraduatedAt(w: World, v: World, e: Id)
    requires e < |w.enrollments| && w.enrollments[e].profile < |w.profiles|
  {
    var row := w.enrollments[e];
    && e < |v.enrollments| && v.enrollments[e] == row.(live := false, status := Graduated)
    && row.profile < |v.profiles|
    && v.profiles[row.profile] ==
       w.profiles[row.profile].(status := Graduated, batch := Option.None, enrollment := Some(e))
    && OtherRows(w, v, e, Option.None)
  }

  /** Row e and its profile are as they were. */
  ghost predicate StayedAt(w: World, v: World, e: Id)
    requires e < |w.enrollments| && w.enrollments[e].profile < |w.profiles|
  {
    var p := w.enrollments[e].profile;
    && e < |v.enrollments| && v.enrollments[e] == w.enrollments[e]
    && p < |v.profiles| && v.profiles[p] == w.profiles[p] && OtherRows(w, v, e, Option.None)
  }

  /** Which of the three a rollover does to the student of row e: one without a section stays; one whose course
      is followed by another moves there; from a last course one without arrears graduates and one with arrears
      repeats it. */
  ghost predicate RolledAs(w: World, v: World, e: Id, to: Id)
    requires e < |w.enrollments|
  {
    var row := w.enrollments[e];
    && row.profile < |w.profiles|
    && if row.batch.None? then StayedAt(w, v, e)
       else
         && row.batch.value < |w.batches| && w.batches[row.batch.value].course < |w.courses|
         && var c := w.batches[row.batch.value].course;
            match NextCourse(w.courses, w.courses[c].department, c)
            case Some(next) => exists n :: SeatedAt(w, v, e, to, next, n)
            case None => if CarriesOver(w, e, []) then GraduatedAt(w, v, e)
                         else exists n :: SeatedAt(w, v, e, to, c, n)
  }

  lemma MoveSeats(w: World, r: Rolling, e: Id, to: Id, dest: Id)
    requires e < |w.enrollments| && w.enrollments[e].profile < |w.profiles|
    requires w.enrollments[e].batch.Some? && w.enrollments[e].batch.value < |w.batches|
    requires r.world == w.(batches := r.world.batches) && MoveTo(r, e, to, dest).Ok?
    requires dest < |r.world.batches| && r.world.batches[dest].live && r.world.batches[dest].year == to
    requires r.world.batches[dest].name == w.batches[w.enrollments[e].batch.value].name
    ensures SeatedAt(w, MoveTo(r, e, to, dest).value.world, e, to, r.world.batches[dest].course, |w.enrollments|)
  {
  }

  lemma GraduationCloses(r: Rolling, e: Id)
    requires e < |r.world.enrollments| && r.world.enrollments[e].profile < |r.world.profiles|
    ensures GraduatedAt(r.world, GraduateNow(r, e).world, e)
  {
  }

  lemma OwnStep(r: Rolling, copies: BatchMap, to: Id, e: Id)
    requires RollStudent(r, copies, to, e).Ok? && Twins(r.world, r.world, copies, to)
    requires e < |r.world.enrollments|
    ensures RolledAs(r.world, RollStudent(r, copies, to, e).value.world, e, to)
  {
    var w := r.world;
    var b := w.enrollments[e].batch;
    if b.Some? {
      var c, name := w.batches[b.value].course, w.batches[b.value].name;
      var next := NextCourse(w.courses, w.courses[c].department, c);
      if next.Some? {
        var d := Destination(w, next.value, to, name).value;
        MoveSeats(w, r.(world := d.0), e, to, d.1);
      } else if OpenArrears(w, e) == [] {
        GraduationCloses(r, e);
      } else {
        assert b.value in copies;
        MoveSeats(w, r, e, to, copies[b.value]);
      }
    }
  }

  lemma SeatedFrom(w: World, u: World, v: World, e: Id, to: Id, course: Id, n: Id)
    requires e < |w.enrollments| && w.enrollments[e].profile < |w.profiles|
    requires w.enrollments[e].batch.Some? && w.enrollments[e].batch.value < |w.batches|
    requires Untouched(w, u, w.enrollments[e].profile)
    ensures SeatedAt(u, v, e, to, course, n) ==> SeatedAt(w, v, e, to, course, n)
  {
  }

  /** What happened to other students before does not matter. */
  lemma ThenOwn(w: World, u: World, v: World, e: Id, to: Id)
    requires e < |w.enrollments| && w.enrollments[e].profile < |w.profiles|
    requires Untouched(w, u, w.enrollments[e].profile) && RolledAs(u, v, e, to)
    requires Known(w, e)
    ensures RolledAs(w, v, e, to)
  {
    var row := w.enrollments[e];
    if row.batch.Some? {
      var c := w.batches[row.batch.value].course;
      var next := NextCourse(w.courses, w.courses[c].department, c);
      var course := if next.Some? then next.value else c;
      if next.Some? || !CarriesOver(w, e, []) {
        var n :| SeatedAt(u, v, e, to, course, n);
        SeatedFrom(w, u, v, e, to, course, n);
      }
    }
  }

  lemma SeatedKept(w: World, u: World, v: World, e: Id, to: Id, course: Id, n: Id)
    requires e < |w.enrollments| && w.enrollments[e].profile < |w.profiles|
    requires w.enrollments[e].batch.Some? && w.enrollments[e].batch.value < |w.batches|
    requires Untouched(u, v, w.enrollments[e].profile)
    ensures SeatedAt(w, u, e, to, course, n) ==> SeatedAt(w, v, e, to, course, n)
  {
  }

  /** Nor does what happens to them after. */
  lemma ThenOther(w: World, u: World, v: World, e: Id, to: Id)
    requires e < |w.enrollments| && RolledAs(w, u, e, to) && Untouched(u, v, w.enrollments[e].profile)
    ensures RolledAs(w, v, e, to)
  {
    var row := w.enrollments[e];
    if row.batch.Some? {
      var c := w.batches[row.batch.value].course;
      var next := NextCourse(w.courses, w.courses[c].department, c);
      var course := if next.Some? then next.value else c;
      if next.Some? || !CarriesOver(w, e, []) {
        var n :| SeatedAt(w, u, e, to, course, n);
        SeatedKept(w, u, v, e, to, course, n);
      }
    }
  }

  /** Only row i of the roster is the student's. */
  ghost predicate OnlyAt(w: World, es: seq<Id>, i: nat, p: Id) {
    && (forall j :: 0 <= j < |es| ==> es[j] < |w.enrollments|)
    && (forall j :: 0 <= j < |es| && j != i ==> w.enrollments[es[j]].profile != p)
  }

  lemma {:induction false} RosterStep(r: Rolling, copies: BatchMap, to: Id, es: seq<Id>, i: nat)
    requires RollStudents(r, copies, to, es).Ok? && i < |es| && es[i] < |r.world.enrollments|
    requires OnlyAt(r.world, es, i, r.world.enrollments[es[i]].profile)
    requires Twins(r.world, r.world, copies, to) && Known(r.world, es[i])
    ensures RolledAs(r.world, RollStudents(r, copies, to, es).value.world, es[i], to)
  {
    var n, front, p := |es| - 1, es[..|es| - 1], r.world.enrollments[es[i]].profile;
    var q, v := RollStudents(r, copies, to, front).value, RollStudents(r, copies, to, es).value;
    if i == n {
      OtherStudents(r, copies, to, front, p);
      TwinsKept(r.world, q.world, copies, to, p);
      OwnStep(q, copies, to, es[i]);
      ThenOwn(r.world, q.world, v.world, es[i], to);
    } else {
      RosterStep(r, copies, to, front, i);
      ColumnKept(r, copies, to, front);
      OtherStudent(q, copies, to, es[n], p);
      ThenOther(r.world, q.world, v.world, es[i], to);
    }
  }

  /** Row e refers to a profile, and to a section of a course if to any. */
  predicate Known(w: World, e: Id)
    requires e < |w.enrollments|
  {
    var row := w.enrollments[e];
    && row.profile < |w.profiles|
    && (row.batch.Some? ==> row.batch.value < |w.batches| && w.batches[row.batch.value].course < |w.courses|)
  }

  lemma TwinsKept(w: World, u: World, copies: BatchMap, to: Id, p: Id)
    requires Twins(w, w, copies, to) && Untouched(w, u, p)
    ensures Twins(u, u, copies, to)
  {
  }

  /** Rows are only added and keep their students. */
  ghost predicate SameColumn(es: seq<Enrollment>, fs: seq<Enrollment>) {
    |es| <= |fs| && forall k :: 0 <= k < |es| ==> fs[k].profile == es[k].profile
  }

  lemma ColumnMoved(r: Rolling, e: Id, to: Id, dest: Id)
    requires e < |r.world.enrollments| && r.world.enrollments[e].profile < |r.world.profiles|
    requires MoveTo(r, e, to, dest).Ok?
    ensures SameColumn(r.world.enrollments, MoveTo(r, e, to, dest).value.world.enrollments)
  {
  }

  lemma ColumnStep(r: Rolling, copies: BatchMap, to: Id, e: Id)
    requires RollStudent(r, copies, to, e).Ok?
    ensures SameColumn(r.world.enrollments, RollStudent(r, copies, to, e).value.world.enrollments)
  {
    var w := r.world;
    var b := w.enrollments[e].batch;
    if b.Some? {
      var c, name := w.batches[b.value].course, w.batches[b.value].name;
      var next := NextCourse(w.courses, w.courses[c].department, c);
      if next.Some? {
        var d := Destination(w, next.value, to, name).value;
        ColumnMoved(r.(world := d.0), e, to, d.1);
      } else if OpenArrears(w, e) != [] {
        ColumnMoved(r, e, to, copies[b.value]);
      }
    }
  }

  lemma {:induction false} ColumnKept(r: Rolling, copies: BatchMap, to: Id, es: seq<Id>)
    requires RollStudents(r, copies, to, es).Ok?
    ensures SameColumn(r.world.enrollments, RollStudents(r, copies, to, es).value.world.enrollments)
  {
    if es != [] {
      ColumnKept(r, copies, to, es[..|es| - 1]);
      ColumnStep(RollStudents(r, copies, to, es[..|es| - 1]).value, copies, to, es[|es| - 1]);
    }
  }

  // ---------------------------------------------------------------- sections copied

  /** Every copied section has a live twin in the new year: same course, same name. */
  ghost predicate Twins(w: World, v: World, copies: BatchMap, to: Id) {
    forall b <- copies :: b < |w.batches| && copies[b] < |v.batches| &&
      v.batches[copies[b]] == Batch(w.batches[b].course, to, w.batches[b].name, 1, true)
  }

  lemma {:induction false} CopiesAreTwins(w: World, from: Id, to: Id, n: nat)
    requires n <= |w.batches| && CopyBatches(w, from, to, n).Ok?
    ensures var c := CopyBatches(w, from, to, n).value;
            && Twins(w, c.world, c.copies, to)
            && forall b: Id :: b in c.copies <==> b < n && IsLocalBatch(w, b) && w.batches[b].year == from
  {
    if n > 0 {
      CopiesAreTwins(w, from, to, n - 1);
      CopyKeeps(w, from, to, n - 1);
    }
  }

  // ---------------------------------------------------------------- the constraint survives

  lemma UniqueMove(r: Rolling, e: Id, to: Id, dest: Id)
    requires UniqueEnrollments(r.world.enrollments) && e < |r.world.enrollments|
    requires r.world.enrollments[e].profile < |r.world.profiles| && MoveTo(r, e, to, dest).Ok?
    ensures UniqueEnrollments(MoveTo(r, e, to, dest).value.world.enrollments)
  {
    var fs := r.world.enrollments;
    var closed := fs[e := fs[e].(live := false)];
    CloseKeepsUnique(fs, e, fs[e].(live := false));
    AddKeepsUnique(closed, Enrollment(fs[e].profile, to, Some(dest), Active, OpenArrears(r.world, e), true));
  }

  lemma UniqueStep(r: Rolling, copies: BatchMap, to: Id, e: Id)
    requires RollStudent(r, copies, to, e).Ok? && UniqueEnrollments(r.world.enrollments)
    ensures UniqueEnrollments(RollStudent(r, copies, to, e).value.world.enrollments)
  {
    var w := r.world;
    var b := w.enrollments[e].batch;
    if b.Some? {
      var c, name := w.batches[b.value].course, w.batches[b.value].name;
      var next := NextCourse(w.courses, w.courses[c].department, c);
      if next.Some? {
        var d := Destination(w, next.value, to, name).value;
        UniqueMove(r.(world := d.0), e, to, d.1);
      } else if OpenArrears(w, e) == [] {
        CloseKeepsUnique(w.enrollments, e, w.enrollments[e].(live := false, status := Graduated));
      } else {
        UniqueMove(r, e, to, copies[b.value]);
      }
    }
  }

  lemma {:induction false} UniqueKept(r: Rolling, copies: BatchMap, to: Id, es: seq<Id>)
    requires RollStudents(r, copies, to, es).Ok? && UniqueEnrollments(r.world.enrollments)
    ensures UniqueEnrollments(RollStudents(r, copies, to, es).value.world.enrollments)
  {
    if es != [] {
      UniqueKept(r, copies, to, es[..|es| - 1]);
      UniqueStep(RollStudents(r, copies, to, es[..|es| - 1]).value, copies, to, es[|es| - 1]);
    }
  }

  // ---------------------------------------------------------------- one rollover

  /** Row e is the student's place in year y, in a course c at position k of the department. */
  ghost predicate Sits(w: World, p: Id, y: Id, department: Id, k: nat, name: Name, e: Id, c: Id) {
    Seat(w, p, y, c, name, e) && Offered(w.courses, department, c) && Position(w.courses, department, c) == Some(k)
  }

  ghost predicate InOrder(w: World, p: Id) {
    UniqueEnrollments(w.enrollments) && UniqueCourses(w.courses) && NoArrears(w, p)
  }

  /** The student has a place in the current year, at position k of the department. */
  ghost predicate StudiesAt(w: World, p: Id, department: Id, k: nat, name: Name) {
    var y := CurrentYear(w.years);
    y.Some? && InOrder(w, p) && exists e, c :: Sits(w, p, y.value, department, k, name, e, c)
  }

  ghost predicate HasGraduated(w: World, p: Id) {
    p < |w.profiles| && w.profiles[p].status == Graduated
  }

  lemma {:induction false} CopyKeeps(w: World, from: Id, to: Id, n: nat)
    requires n <= |w.batches| && CopyBatches(w, from, to, n).Ok?
    ensures var v := CopyBatches(w, from, to, n).value.world;
            && v == w.(batches := v.batches) && |w.batches| <= |v.batches|
            && forall b :: 0 <= b < |w.batches| ==> v.batches[b] == w.batches[b]
  {
    if n > 0 { CopyKeeps(w, from, to, n - 1); }
  }

  /** A student on the roster is on it once. */
  lemma OnceOnRoster(w: World, from: Id, e: Id) returns (i: nat)
    requires UniqueEnrollments(w.enrollments) && e < |w.enrollments| && OnRoster(w, from, e)
    ensures i < |Roster(w, from)| && Roster(w, from)[i] == e
    ensures OnlyAt(w, Roster(w, from), i, w.enrollments[e].profile)
  {
    var es := Roster(w, from);
    i :| 0 <= i < |es| && es[i] == e;
    forall j | 0 <= j < |es| && j != i ensures w.enrollments[es[j]].profile != w.enrollments[e].profile {
      assert OnRoster(w, from, es[j]);
    }
  }

  /** Copying sections touches no student. */
  lemma CopyTouches(w: World, from: Id, to: Id, p: Id)
    requires CopyBatches(w, from, to, |w.batches|).Ok?
    ensures var c := CopyBatches(w, from, to, |w.batches|).value;
            Untouched(w, c.world, p) && Twins(c.world, c.world, c.copies, to)
  {
    CopyKeeps(w, from, to, |w.batches|);
    CopiesAreTwins(w, from, to, |w.batches|);
  }

  lemma RollAllRolls(w: World, from: Id, to: Id, e: Id)
    requires RollAll(w, from, to).Ok? && UniqueEnrollments(w.enrollments)
    requires e < |w.enrollments| && OnRoster(w, from, e) && Known(w, e)
    ensures var v := RollAll(w, from, to).value.world; RolledAs(w, v, e, to) && v.courses == w.courses
  {
    var p, c := w.enrollments[e].profile, CopyBatches(w, from, to, |w.batches|).value;
    CopyKeeps(w, from, to, |w.batches|);
    CopyTouches(w, from, to, p);
    var i := OnceOnRoster(w, from, e);
    RosterStep(Rolling(c.world, []), c.copies, to, Roster(w, from), i);
    ThenOwn(w, c.world, RollAll(w, from, to).value.world, e, to);
    RollAllMoves(w, from, to);
  }

  lemma RollAllSpares(w: World, from: Id, to: Id, p: Id)
    requires RollAll(w, from, to).Ok?
    requires forall e: Id :: e < |w.enrollments| && OnRoster(w, from, e) ==> w.enrollments[e].profile != p
    ensures Untouched(w, RollAll(w, from, to).value.world, p)
  {
    var c, es := CopyBatches(w, from, to, |w.batches|).value, Roster(w, from);
    CopyKeeps(w, from, to, |w.batches|);
    CopyTouches(w, from, to, p);
    forall i | 0 <= i < |es| ensures c.world.enrollments[es[i]].profile != p { assert OnRoster(w, from, es[i]); }
    OtherStudents(Rolling(c.world, []), c.copies, to, es, p);
  }

  lemma YearsDoNotMatter(w: World, s: World, u: World, v: World, e: Id, to: Id)
    requires s == w.(years := s.years) && v == u.(rollovers := v.rollovers) && e < |w.enrollments|
    requires RolledAs(s, u, e, to)
    ensures RolledAs(w, v, e, to)
  {
    var row := w.enrollments[e];
    if row.batch.Some? {
      var c := w.batches[row.batch.value].course;
      var next := NextCourse(w.courses, w.courses[c].department, c);
      var course := if next.Some? then next.value else c;
      if next.Some? || !CarriesOver(w, e, []) {
        var n :| SeatedAt(s, u, e, to, course, n);
        assert SeatedAt(w, v, e, to, course, n);
      }
    }
  }

  /** An accepted rollover does to every student of the current year what RolledAs says: the row, its
      successor, the arrears, and the two pointers of the profile. */
  lemma EveryStudentRolled(w: World, following: Name -> Name, now: nat, e: Id)
    requires CurrentYear(w.years).Some? && ExecuteRollover(w, following, now).Ok?
    requires UniqueEnrollments(w.enrollments)
    requires Attends(w, CurrentYear(w.years).value, e) && Known(w, e)
    ensures RolledAs(w, ExecuteRollover(w, following, now).value, e, |w.years|)
  {
    var from := CurrentYear(w.years).value;
    ExecuteIsRollAll(w, following, now);
    var s := SwitchYears(w, from, following(w.years[from].name)).value;
    RollAllRolls(s, from, |w.years|, e);
    var u := RollAll(s, from, |w.years|).value.world;
    YearsDoNotMatter(w, s, u, ExecuteRollover(w, following, now).value, e, |w.years|);
  }

  /** And nobody else is touched. */
  lemma NobodyElseRolled(w: World, following: Name -> Name, now: nat, p: Id)
    requires CurrentYear(w.years).Some? && ExecuteRollover(w, following, now).Ok?
    requires forall e: Id :: Attends(w, CurrentYear(w.years).value, e) ==> w.enrollments[e].profile != p
    ensures Untouched(w, ExecuteRollover(w, following, now).value, p)
  {
    var from := CurrentYear(w.years).value;
    ExecuteIsRollAll(w, following, now);
    var s := SwitchYears(w, from, following(w.years[from].name)).value;
    forall e: Id | e < |s.enrollments| && OnRoster(s, from, e) ensures s.enrollments[e].profile != p {
      assert Attends(w, from, e);
    }
    RollAllSpares(s, from, |w.years|, p);
  }

  // ---------------------------------------------------------------- rollover against recommendation

  /** What the rollover does to a student with a section is what the recommendation engine says, whenever
      that commits itself: promotion to the next class, retention in the same class, or graduation. */
  lemma RolloverFollowsRecommendation(w: World, following: Name -> Name, now: nat, e: Id, unpublished: set<Id>)
    requires CurrentYear(w.years).Some? && ExecuteRollover(w, following, now).Ok?
    requires UniqueEnrollments(w.enrollments) && Attends(w, CurrentYear(w.years).value, e) && Known(w, e)
    requires w.enrollments[e].batch.Some?
    ensures var v, to := ExecuteRollover(w, following, now).value, |w.years|;
            var c, action := w.batches[w.enrollments[e].batch.value].course, Recommend(w, e, unpublished).action;
            var next := NextCourse(w.courses, w.courses[c].department, c);
            && (action == Promote ==> next.Some? && exists n :: SeatedAt(w, v, e, to, next.value, n))
            && (action == Retain ==> exists n :: SeatedAt(w, v, e, to, c, n))
            && (action == Graduate ==> GraduatedAt(w, v, e))
  {
    EveryStudentRolled(w, following, now, e);
  }

  /** Where they part: a student in a class that is no longer offered is left to review by the
      recommendation engine, and graduated by the rollover when nothing is in arrears. */
  lemma UnofferedClassGraduates(w: World, following: Name -> Name, now: nat, e: Id)
    requires CurrentYear(w.years).Some? && ExecuteRollover(w, following, now).Ok?
    requires UniqueEnrollments(w.enrollments) && Attends(w, CurrentYear(w.years).value, e) && Known(w, e)
    requires w.enrollments[e].batch.Some? && CarriesOver(w, e, [])
    requires var c := w.batches[w.enrollments[e].batch.value].course;
             !Offered(w.courses, w.courses[c].department, c)
    ensures GraduatedAt(w, ExecuteRollover(w, following, now).value, e)
    ensures Recommend(w, e, {}).action == ManualReview
  {
    EveryStudentRolled(w, following, now, e);
  }

  // ---------------------------------------------------------------- one rollover, one position

  /** The student has a place in the next course with the same section name, or, where there is no next
      course, has graduated. */
  ghost predicate Advanced(w: World, p: Id, to: Id, next: Option<Id>, name: Name) {
    if next.Some? then exists e :: Seat(w, p, to, next.value, name, e)
    else p < |w.profiles| && w.profiles[p].status == Graduated
  }

  /** The profile of a student who moved on points at the live row of the year and its section; that of one
      who did not has no section. */
  ghost predicate ProfileFollows(v: World, p: Id, to: Id, moved: bool) {
    && p < |v.profiles|
    && if !moved then v.profiles[p].batch.None?
       else
         && v.profiles[p].enrollment.Some? && v.profiles[p].enrollment.value < |v.enrollments|
         && var row := v.enrollments[v.profiles[p].enrollment.value];
            row.profile == p && row.year == to && row.live && v.profiles[p].batch == row.batch
  }

  lemma RolledAdvances(w: World, v: World, p: Id, from: Id, to: Id, c: Id, name: Name, e: Id)
    requires Seat(w, p, from, c, name, e) && CarriesOver(w, e, []) && RolledAs(w, v, e, to)
    ensures c < |w.courses|
    ensures var next := NextCourse(w.courses, w.courses[c].department, c);
            Advanced(v, p, to, next, name) && ProfileFollows(v, p, to, next.Some?)
  {
    var next := NextCourse(w.courses, w.courses[c].department, c);
    if next.Some? {
      var n :| SeatedAt(w, v, e, to, next.value, n);
      assert Seat(v, p, to, next.value, name, n);
    }
  }

  lemma RollAllAdvances(w: World, from: Id, to: Id, p: Id, c: Id, name: Name, e: Id)
    requires RollAll(w, from, to).Ok? && UniqueEnrollments(w.enrollments) && NoArrears(w, p)
    requires Seat(w, p, from, c, name, e) && c < |w.courses|
    ensures var v, next := RollAll(w, from, to).value.world, NextCourse(w.courses, w.courses[c].department, c);
            && v.courses == w.courses && Advanced(v, p, to, next, name) && ProfileFollows(v, p, to, next.Some?)
            && UniqueEnrollments(v.enrollments) && NoArrears(v, p) && v.years == w.years
  {
    assert OnRoster(w, from, e);
    RollAllRolls(w, from, to, e);
    RolledAdvances(w, RollAll(w, from, to).value.world, p, from, to, c, name, e);
    RollAllKeeps(w, from, to, p);
  }

  lemma RollAllKeeps(w: World, from: Id, to: Id, p: Id)
    requires RollAll(w, from, to).Ok? && UniqueEnrollments(w.enrollments) && NoArrears(w, p)
    ensures var v := RollAll(w, from, to).value.world;
            UniqueEnrollments(v.enrollments) && NoArrears(v, p) && v.years == w.years
  {
    CopyKeeps(w, from, to, |w.batches|);
    var copied := CopyBatches(w, from, to, |w.batches|).value;
    UniqueKept(Rolling(copied.world, []), copied.copies, to, Roster(w, from));
    ColumnKept(Rolling(copied.world, []), copied.copies, to, Roster(w, from));
    RollAllMoves(w, from, to);
  }

  /** The student is at position k of a department with the given courses, or, past the last, has graduated. */
  ghost predicate StandsAt(v: World, cs: seq<Course>, p: Id, department: Id, k: nat, name: Name) {
    && v.courses == cs
    && if k < Length(cs, department) then StudiesAt(v, p, department, k, name) else HasGraduated(v, p)
  }

  lemma SettledAt(u: World, v: World, p: Id, to: Id, c: Id, name: Name, department: Id, k: nat)
    requires v.enrollments == u.enrollments && v.profiles == u.profiles && v.batches == u.batches
    requires v.courses == u.courses && v.arrears == u.arrears && CurrentYear(v.years) == Some(to)
    requires UniqueEnrollments(u.enrollments) && UniqueCourses(u.courses) && NoArrears(u, p)
    requires Offered(u.courses, department, c) && Position(u.courses, department, c) == Some(k)
    requires exists e :: Seat(u, p, to, c, name, e)
    ensures StudiesAt(v, p, department, k, name)
  {
    var e :| Seat(u, p, to, c, name, e);
    assert Sits(v, p, to, department, k, name, e, c);
  }

  /** A rollover is the roll over the switched years, with a run row added. */
  lemma ExecuteIsRollAll(w: World, following: Name -> Name, now: nat)
    requires CurrentYear(w.years).Some? && ExecuteRollover(w, following, now).Ok?
    ensures var from, to, v := CurrentYear(w.years).value, |w.years|, ExecuteRollover(w, following, now).value;
            var s := SwitchYears(w, from, following(w.years[from].name));
            && s.Ok? && s.value == w.(years := s.value.years) && CurrentYear(s.value.years) == Some(to)
            && RollAll(s.value, from, to).Ok?
            && v == RollAll(s.value, from, to).value.world.(rollovers := v.rollovers)
  {
  }

  lemma RollAllReaches(w: World, v: World, from: Id, to: Id, p: Id, department: Id, k: nat, name: Name, e: Id, c: Id)
    requires InOrder(w, p) && Sits(w, p, from, department, k, name, e, c) && CurrentYear(w.years) == Some(to)
    requires RollAll(w, from, to).Ok?
    requires v == RollAll(w, from, to).value.world.(rollovers := v.rollovers)
    ensures k < Length(w.courses, department) && StandsAt(v, w.courses, p, department, k + 1, name)
    ensures ProfileFollows(v, p, to, k + 1 < Length(w.courses, department))
  {
    RollAllAdvances(w, from, to, p, c, name, e);
    NextAdvances(w.courses, department, c);
    var u, next := RollAll(w, from, to).value.world, NextCourse(w.courses, department, c);
    if next.Some? { SettledAt(u, v, p, to, next.value, name, department, k + 1); }
  }

  lemma OneRollover(w: World, following: Name -> Name, now: nat, p: Id, department: Id, k: nat, name: Name)
    requires StudiesAt(w, p, department, k, name) && ExecuteRollover(w, following, now).Ok?
    ensures k < Length(w.courses, department)
    ensures var v := ExecuteRollover(w, following, now).value;
            && StandsAt(v, w.courses, p, department, k + 1, name)
            && ProfileFollows(v, p, |w.years|, k + 1 < Length(w.courses, department))
  {
    var from := CurrentYear(w.years).value;
    var e, c :| Sits(w, p, from, department, k, name, e, c);
    ExecuteIsRollAll(w, following, now);
    var switched := SwitchYears(w, from, following(w.years[from].name)).value;
    assert Sits(switched, p, from, department, k, name, e, c);
    RollAllReaches(switched, ExecuteRollover(w, following, now).value, from, |w.years|, p, department, k, name, e, c);
  }

  // ---------------------------------------------------------------- several rollovers

  ghost predicate OneYear(v: World, following: Name -> Name, now: nat, u: World) {
    ExecuteRollover(v, following, now) == Ok(u)
  }

  /** The tables year by year: each is the accepted rollover of the one before, at the time given. */
  ghost predicate Years(ws: seq<World>, following: Name -> Name, nows: seq<nat>) {
    |ws| == |nows| + 1 && forall j :: 0 <= j < |nows| ==> OneYear(ws[j], following, nows[j], ws[j + 1])
  }

  /** After n of these years the student is n positions on, and the profile with the place. */
  ghost predicate Stage(ws: seq<World>, p: Id, department: Id, i: nat, n: nat, name: Name) {
    && n < |ws| && StandsAt(ws[n], ws[0].courses, p, department, i + n, name)
    && (n > 0 ==> ProfileFollows(ws[n], p, |ws[n - 1].years|, i + n < Length(ws[0].courses, department)))
  }

  lemma StageFollows(ws: seq<World>, following: Name -> Name, nows: seq<nat>, n: nat, p: Id, department: Id,
                     i: nat, name: Name)
    requires Years(ws, following, nows) && n < |nows| && i + n < Length(ws[0].courses, department)
    ensures Stage(ws, p, department, i, n, name) ==> Stage(ws, p, department, i, n + 1, name)
  {
    if Stage(ws, p, department, i, n, name) {
      assert OneYear(ws[n], following, nows[n], ws[n + 1]);
      OneRollover(ws[n], following, nows[n], p, department, i + n, name);
    }
  }

  lemma {:induction false} Climb(ws: seq<World>, p: Id, department: Id, i: nat, n: nat, name: Name)
    requires Stage(ws, p, department, i, 0, name)
    requires forall j: nat :: j < n && Stage(ws, p, department, i, j, name) ==> Stage(ws, p, department, i, j + 1, name)
    ensures Stage(ws, p, department, i, n, name)
  {
    if n > 0 { Climb(ws, p, department, i, n - 1, name); }
  }

  /** A student at position i of a department of n courses, without arrears, is at position i + k with the
      same section name after k < n - i rollovers, and graduates with exactly the (n - i)-th. */
  lemma GraduatesOnTime(ws: seq<World>, following: Name -> Name, nows: seq<nat>, k: nat, p: Id, department: Id,
                        i: nat, name: Name)
    requires Years(ws, following, nows) && StudiesAt(ws[0], p, department, i, name)
    requires var n := Length(ws[0].courses, department); i < n && k <= |nows| && k <= n - i
    ensures StandsAt(ws[k], ws[0].courses, p, department, i + k, name)
    ensures k > 0 ==> ProfileFollows(ws[k], p, |ws[k - 1].years|, i + k < Length(ws[0].courses, department))
  {
    assert Stage(ws, p, department, i, 0, name);
    forall j: nat | j < k && Stage(ws, p, department, i, j, name) ensures Stage(ws, p, department, i, j + 1, name) {
      StageFollows(ws, following, nows, j, p, department, i, name);
    }
    Climb(ws, p, department, i, k, name);
  }
}
