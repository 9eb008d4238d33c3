/** When a rollover is accepted. */
module RolloverGate {
  import opened Records
  import opened Calendar
  import opened Courses
  import opened Recommendations
  import opened Tables
  import opened Preparation
  import opened Rollover
  import opened Progression
  import UndoTheorem

  // ---------------------------------------------------------------- copying the sections

  /** The sections after the first n rows are copied: every new one is live, of the new year, and stands for a
      row before n that is of the old year, has the same course and name and is of this branch. */
  ghost predicate CopiedFrom(w: World, v: World, from: Id, to: Id, n: nat) {
    && v == w.(batches := v.batches) && |w.batches| <= |v.batches|
    && (forall b :: 0 <= b < |w.batches| ==> v.batches[b] == w.batches[b])
    && (forall b :: |w.batches| <= b < |v.batches| ==>
          v.batches[b].live && v.batches[b].year == to && StandsFor(w, v.batches[b], from, n))
  }

  ghost predicate StandsFor(w: World, row: Batch, from: Id, n: nat) {
    exists i :: 0 <= i < n && i < |w.batches| && w.batches[i].year == from && w.batches[i].course == row.course
                && w.batches[i].name == row.name && row.course < |w.courses| && w.courses[row.course].local
  }

  lemma CopyFits(w: World, v: World, from: Id, to: Id, n: nat)
    requires UniqueBatches(w.batches) && n < |w.batches| && CopiedFrom(w, v, from, to, n)
    requires forall b :: 0 <= b < |w.batches| ==> w.batches[b].year != to
    requires IsLocalBatch(w, n) && w.batches[n].year == from
    ensures AddBatch(v, w.batches[n].course, to, w.batches[n].name).Ok?
  {
    var row := w.batches[n];
    forall b | 0 <= b < |v.batches| && v.batches[b].year == to && v.batches[b].course == row.course
      ensures v.batches[b].name != row.name
    {
      var i :| 0 <= i < n && w.batches[i].year == from && w.batches[i].course == v.batches[b].course
               && w.batches[i].name == v.batches[b].name;
    }
  }

  lemma CopiedMore(w: World, v: World, from: Id, to: Id, n: nat)
    requires n < |w.batches| && CopiedFrom(w, v, from, to, n)
    ensures CopiedFrom(w, v, from, to, n + 1)
    ensures IsLocalBatch(w, n) && w.batches[n].year == from ==>
              CopiedFrom(w, v.(batches := v.batches + [Batch(w.batches[n].course, to, w.batches[n].name, 1, true)]),
                         from, to, n + 1)
  {
  }

  /** One more row of the table considered. */
  function CopyOne(w: World, v: World, from: Id, to: Id, n: nat): Result<World>
    requires n < |w.batches|
  {
    if IsLocalBatch(w, n) && w.batches[n].year == from then AddBatch(v, w.batches[n].course, to, w.batches[n].name)
    else Ok(v)
  }

  lemma OneCopied(w: World, v: World, from: Id, to: Id, n: nat)
    requires UniqueBatches(w.batches) && n < |w.batches| && CopiedFrom(w, v, from, to, n)
    requires forall b :: 0 <= b < |w.batches| ==> w.batches[b].year != to
    ensures CopyOne(w, v, from, to, n).Ok? && CopiedFrom(w, CopyOne(w, v, from, to, n).value, from, to, n + 1)
  {
    CopiedMore(w, v, from, to, n);
    if IsLocalBatch(w, n) && w.batches[n].year == from { CopyFits(w, v, from, to, n); }
  }

  lemma CopyByOne(w: World, from: Id, to: Id, n: nat)
    requires 0 < n <= |w.batches| && CopyBatches(w, from, to, n - 1).Ok?
    ensures var r, v := CopyBatches(w, from, to, n), CopyBatches(w, from, to, n - 1).value.world;
            var one := CopyOne(w, v, from, to, n - 1);
            (r.Ok? <==> one.Ok?) && (r.Ok? ==> r.value.world == one.value)
  {
  }

  /** The sections of a year can always be copied. */
  lemma {:induction false} CopyAccepted(w: World, from: Id, to: Id, n: nat)
    requires UniqueBatches(w.batches) && n <= |w.batches|
    requires forall b :: 0 <= b < |w.batches| ==> w.batches[b].year != to
    ensures CopyBatches(w, from, to, n).Ok? && CopiedFrom(w, CopyBatches(w, from, to, n).value.world, from, to, n)
  {
    if n > 0 {
      CopyAccepted(w, from, to, n - 1);
      CopyByOne(w, from, to, n);
      OneCopied(w, CopyBatches(w, from, to, n - 1).value.world, from, to, n - 1);
    }
  }

  // ---------------------------------------------------------------- one student

  /** Every section of the new year is live and of this branch. */
  ghost predicate SectionsReady(v: World, to: Id) {
    forall b :: 0 <= b < |v.batches| && v.batches[b].year == to ==>
      v.batches[b].live && v.batches[b].course < |v.courses| && v.courses[v.batches[b].course].local
  }

  /** A department belongs to one branch. */
  ghost predicate OneBranch(cs: seq<Course>) {
    forall c, d :: 0 <= c < |cs| && 0 <= d < |cs| && cs[c].department == cs[d].department ==> cs[c].local == cs[d].local
  }

  lemma DestinationFound(v: World, course: Id, to: Id, name: Name)
    requires SectionsReady(v, to) && course < |v.courses| && v.courses[course].local
    ensures Destination(v, course, to, name).Ok?
    ensures SectionsReady(Destination(v, course, to, name).value.0, to)
  {
    if FindExact(v, |v.batches|, course, to, name).None? {
      forall b | 0 <= b < |v.batches| && v.batches[b].course == course && v.batches[b].year == to
        ensures v.batches[b].name != name
      {
        assert Listed(v, b, course, to);
      }
    }
  }

  /** Row e is of a known student, in a section of this branch if in any, who has no row in the new year. */
  ghost predicate Movable(w: World, to: Id, e: Id) {
    && e < |w.enrollments| && Known(w, e)
    && (w.enrollments[e].batch.Some? ==> w.courses[w.batches[w.enrollments[e].batch.value].course].local)
    && forall k :: 0 <= k < |w.enrollments| && w.enrollments[k].profile == w.enrollments[e].profile ==>
         w.enrollments[k].year != to
  }

  /** The student would repeat the last course, with arrears, and the section has not been copied. */
  ghost predicate Stranded(w: World, copies: BatchMap, e: Id) {
    e < |w.enrollments| && Known(w, e) && w.enrollments[e].batch.Some? &&
    var b := w.enrollments[e].batch.value;
    var c := w.batches[b].course;
    NextCourse(w.courses, w.courses[c].department, c).None? && !CarriesOver(w, e, []) && b !in copies
  }

  lemma NextIsLocal(cs: seq<Course>, c: Id)
    requires OneBranch(cs) && c < |cs| && cs[c].local && NextCourse(cs, cs[c].department, c).Some?
    ensures cs[NextCourse(cs, cs[c].department, c).value].local
  {
    var ids := Sorted(cs, cs[c].department, |cs|);
    var i := IndexOf(ids, c);
    assert ids[i.value + 1] in ids;
  }

  lemma MoveFits(r: Rolling, e: Id, to: Id, dest: Id)
    requires e < |r.world.enrollments| && r.world.enrollments[e].profile < |r.world.profiles|
    requires forall k :: 0 <= k < |r.world.enrollments|
                         && r.world.enrollments[k].profile == r.world.enrollments[e].profile ==>
               r.world.enrollments[k].year != to
    ensures MoveTo(r, e, to, dest).Ok?
  {
  }

  /** With the new year's sections ready a student can be rolled exactly when not stranded, and they stay ready. */
  lemma StudentAccepted(r: Rolling, copies: BatchMap, to: Id, e: Id)
    requires SectionsReady(r.world, to) && OneBranch(r.world.courses) && Movable(r.world, to, e)
    ensures RollStudent(r, copies, to, e).Ok? <==> !Stranded(r.world, copies, e)
    ensures RollStudent(r, copies, to, e).Ok? ==>
              SectionsReady(RollStudent(r, copies, to, e).value.world, to)
  {
    var w := r.world;
    var b := w.enrollments[e].batch;
    if b.Some? {
      var c, name := w.batches[b.value].course, w.batches[b.value].name;
      var next := NextCourse(w.courses, w.courses[c].department, c);
      if next.Some? {
        NextIsLocal(w.courses, c);
        DestinationFound(w, next.value, to, name);
        var d := Destination(w, next.value, to, name).value;
        MoveFits(r.(world := d.0), e, to, d.1);
      } else if OpenArrears(w, e) != [] && b.value in copies {
        MoveFits(r, e, to, copies[b.value]);
      }
    }
  }

  // ---------------------------------------------------------------- the roster

  /** Rows of different students. */
  ghost predicate AllDiffer(w: World, es: seq<Id>) {
    && (forall i :: 0 <= i < |es| ==> es[i] < |w.enrollments|)
    && forall i, j :: 0 <= i < j < |es| ==> w.enrollments[es[i]].profile != w.enrollments[es[j]].profile
  }

  lemma MovableStill(w: World, u: World, copies: BatchMap, to: Id, e: Id)
    requires Movable(w, to, e) && Untouched(w, u, w.enrollments[e].profile)
    ensures Movable(u, to, e) && (Stranded(u, copies, e) <==> Stranded(w, copies, e))
  {
  }

  ghost predicate NoneStranded(w: World, copies: BatchMap, es: seq<Id>) {
    forall i :: 0 <= i < |es| ==> !Stranded(w, copies, es[i])
  }

  /** The rows are of different students, each of whom can be moved. */
  ghost predicate AllMovable(w: World, to: Id, es: seq<Id>) {
    AllDiffer(w, es) && forall i :: 0 <= i < |es| ==> Movable(w, to, es[i])
  }

  lemma LastOfRoster(w: World, copies: BatchMap, to: Id, es: seq<Id>)
    requires es != [] && AllMovable(w, to, es)
    ensures var front, e := es[..|es| - 1], es[|es| - 1];
            && AllMovable(w, to, front) && Movable(w, to, e)
            && (NoneStranded(w, copies, es) <==> NoneStranded(w, copies, front) && !Stranded(w, copies, e))
            && forall i :: 0 <= i < |front| ==>
                 front[i] < |w.enrollments| && w.enrollments[front[i]].profile != w.enrollments[e].profile
  {
    var front := es[..|es| - 1];
    assert forall i :: 0 <= i < |front| ==> front[i] == es[i];
  }

  lemma {:induction false} RosterAccepted(r: Rolling, copies: BatchMap, to: Id, es: seq<Id>)
    requires SectionsReady(r.world, to) && OneBranch(r.world.courses) && AllMovable(r.world, to, es)
    ensures RollStudents(r, copies, to, es).Ok? <==> NoneStranded(r.world, copies, es)
    ensures RollStudents(r, copies, to, es).Ok? ==>
              SectionsReady(RollStudents(r, copies, to, es).value.world, to)
  {
    if es != [] {
      var front, e := es[..|es| - 1], es[|es| - 1];
      LastOfRoster(r.world, copies, to, es);
      RosterAccepted(r, copies, to, front);
      if RollStudents(r, copies, to, front).Ok? {
        OtherStudents(r, copies, to, front, r.world.enrollments[e].profile);
        LastAccepted(r.world, RollStudents(r, copies, to, front).value, copies, to, e);
      }
    }
  }

  lemma LastAccepted(w: World, q: Rolling, copies: BatchMap, to: Id, e: Id)
    requires SectionsReady(q.world, to) && OneBranch(w.courses) && Movable(w, to, e)
    requires Untouched(w, q.world, w.enrollments[e].profile)
    ensures RollStudent(q, copies, to, e).Ok? <==> !Stranded(w, copies, e)
    ensures RollStudent(q, copies, to, e).Ok? ==> SectionsReady(RollStudent(q, copies, to, e).value.world, to)
  {
    MovableStill(w, q.world, copies, to, e);
    StudentAccepted(q, copies, to, e);
  }

  // ---------------------------------------------------------------- the rollover

  /** Rows refer to rows, and the students of year y sit in sections of this branch. */
  ghost predicate Referenced(w: World, y: Id) {
    && (forall b :: 0 <= b < |w.batches| ==> w.batches[b].course < |w.courses| && w.batches[b].year < |w.years|)
    && (forall e :: 0 <= e < |w.enrollments| ==>
          && w.enrollments[e].profile < |w.profiles| && w.enrollments[e].year < |w.years|
          && (w.enrollments[e].batch.Some? ==> w.enrollments[e].batch.value < |w.batches|))
    && (forall e: Id :: Attends(w, y, e) && w.enrollments[e].batch.Some? ==>
          w.courses[w.batches[w.enrollments[e].batch.value].course].local)
  }

  /** No section and no enrollment is of this year. */
  ghost predicate NoneIn(w: World, y: Id) {
    && (forall b :: 0 <= b < |w.batches| ==> w.batches[b].year != y)
    && (forall e :: 0 <= e < |w.enrollments| ==> w.enrollments[e].year != y)
  }

  /** A student of the year is in the last course of a department, with open arrears, in a section that is
      deleted or not of the year. */
  ghost predicate CannotRepeat(w: World, y: Id, e: Id)
    requires Referenced(w, y)
  {
    Attends(w, y, e) && w.enrollments[e].batch.Some? &&
    var b := w.enrollments[e].batch.value;
    var c := w.batches[b].course;
    && NextCourse(w.courses, w.courses[c].department, c).None? && !CarriesOver(w, e, [])
    && !(w.batches[b].live && w.batches[b].year == y)
  }

  lemma StrandedExactly(w: World, v: World, copies: BatchMap, from: Id, to: Id, e: Id)
    requires Referenced(w, from) && Attends(w, from, e) && CopiedFrom(w, v, from, to, |w.batches|)
    requires forall b: Id :: b in copies <==> b < |w.batches| && IsLocalBatch(w, b) && w.batches[b].year == from
    requires NoneIn(w, to)
    ensures Movable(v, to, e) && (Stranded(v, copies, e) <==> CannotRepeat(w, from, e))
  {
  }

  lemma RollAllAccepted(w: World, from: Id, to: Id)
    requires Referenced(w, from) && NoneIn(w, to) && OneBranch(w.courses)
    requires UniqueEnrollments(w.enrollments) && UniqueBatches(w.batches)
    ensures RollAll(w, from, to).Ok? <==> forall e: Id :: !CannotRepeat(w, from, e)
  {
    var es := Roster(w, from);
    CopyAccepted(w, from, to, |w.batches|);
    CopiesAreTwins(w, from, to, |w.batches|);
    var c := CopyBatches(w, from, to, |w.batches|).value;
    UndoTheorem.RosterDistinct(w, from);
    forall i | 0 <= i < |es|
      ensures Movable(c.world, to, es[i]) && (Stranded(c.world, c.copies, es[i]) <==> CannotRepeat(w, from, es[i]))
    {
      assert OnRoster(w, from, es[i]);
      StrandedExactly(w, c.world, c.copies, from, to, es[i]);
    }
    RosterAccepted(Rolling(c.world, []), c.copies, to, es);
    forall e: Id | CannotRepeat(w, from, e) ensures e in es { assert OnRoster(w, from, e); }
  }

  /** A rollover is accepted exactly when there is a current year, no year, deleted ones included, has the
      following name, and nobody who would repeat the last course sits in a section that is deleted or not of
      the current year: such a student's section has no copy to repeat in, and the whole rollover raises. */
  lemma RolloverAccepted(w: World, following: Name -> Name, now: nat)
    requires UniqueEnrollments(w.enrollments) && UniqueBatches(w.batches) && OneBranch(w.courses)
    requires CurrentYear(w.years).Some? ==> Referenced(w, CurrentYear(w.years).value)
    ensures ExecuteRollover(w, following, now).Ok? <==>
            && CurrentYear(w.years).Some?
            && var from := CurrentYear(w.years).value;
               && (forall y :: 0 <= y < |w.years| ==> w.years[y].name != following(w.years[from].name))
               && forall e: Id :: !CannotRepeat(w, from, e)
  {
    if CurrentYear(w.years).Some? && !NameTaken(w.years, following(w.years[CurrentYear(w.years).value].name)) {
      var from := CurrentYear(w.years).value;
      var s := SwitchYears(w, from, following(w.years[from].name)).value;
      SwitchedAccepted(w, s, from);
    }
  }

  lemma SwitchedAccepted(w: World, s: World, from: Id)
    requires s == w.(years := s.years) && |s.years| == |w.years| + 1 && Referenced(w, from)
    requires UniqueEnrollments(w.enrollments) && UniqueBatches(w.batches) && OneBranch(w.courses)
    ensures RollAll(s, from, |w.years|).Ok? <==> forall e: Id :: !CannotRepeat(w, from, e)
  {
    forall e: Id ensures Attends(s, from, e) <==> Attends(w, from, e) {}
    assert Referenced(s, from) && NoneIn(s, |w.years|);
    RollAllAccepted(s, from, |w.years|);
    forall e: Id ensures CannotRepeat(s, from, e) <==> CannotRepeat(w, from, e) {}
  }

  /** Why a rollover is refused before it begins: there is no current year, or a live one has the following
      name.  A deleted one that has it raises at the insert. */
  lemma RolloverRefused(w: World, following: Name -> Name, now: nat)
    ensures CurrentYear(w.years).None? ==> ExecuteRollover(w, following, now) == Err(Rejected)
    ensures CurrentYear(w.years).Some? ==>
              var name := following(w.years[CurrentYear(w.years).value].name);
              && ((exists y :: 0 <= y < |w.years| && w.years[y].live && w.years[y].name == name) ==>
                    ExecuteRollover(w, following, now) == Err(Rejected))
              && ((exists y :: 0 <= y < |w.years| && w.years[y].name == name) &&
                  (forall y :: 0 <= y < |w.years| && w.years[y].name == name ==> !w.years[y].live) ==>
                    ExecuteRollover(w, following, now) == Err(Integrity))
  {
  }
}
