/** The recommendation that a promotion session starts from. */
module Recommendations {
  import opened Records
  import opened Courses

  datatype Reason =
    | NoBatch | ResultsNotPublished | CourseSequenceGap | NextCourseAvailable | NoPassFailPolicy
    | ArrearsPending | FinalYearClear | FinalYear

  datatype Recommendation = Recommendation(action: Action, reason: Reason)

  /** Live enrollments of live, active students in a year: the roster of a promotion or rollover. */
  predicate OnRoster(w: World, y: Id, e: Id)
    requires e < |w.enrollments|
  {
    var r := w.enrollments[e];
    && r.year == y && r.status == Active && r.live
    && r.profile < |w.profiles| && w.profiles[r.profile].status == Active && w.profiles[r.profile].live
  }

  function RosterOf(w: World, y: Id, n: nat): (r: seq<Id>)
    requires n <= |w.enrollments|
    ensures forall e :: e in r <==> 0 <= e < n && OnRoster(w, y, e)
    ensures forall i :: 0 <= i < |r| ==> r[i] < n && OnRoster(w, y, r[i])
    ensures forall i, j :: 0 <= i < j < |r| ==> r[i] < r[j]
  {
    if n == 0 then []
    else
      var rest := RosterOf(w, y, n - 1);
      if OnRoster(w, y, n - 1) then rest + [n - 1] else rest
  }

  function Roster(w: World, y: Id): (r: seq<Id>)
    ensures forall e :: e in r <==> 0 <= e < |w.enrollments| && OnRoster(w, y, e)
    ensures forall i :: 0 <= i < |r| ==> r[i] < |w.enrollments| && OnRoster(w, y, r[i])
    ensures forall i, j :: 0 <= i < j < |r| ==> r[i] < r[j]
  {
    RosterOf(w, y, |w.enrollments|)
  }

  /** unpublished holds the enrollments registered for exams whose results are not out. */
  function Recommend(w: World, e: Id, unpublished: set<Id>): Recommendation
    requires e < |w.enrollments|
  {
    var b := w.enrollments[e].batch;
    if b.None? || b.value >= |w.batches| || w.batches[b.value].course >= |w.courses| then
      Recommendation(Pending, NoBatch)
    else if e in unpublished then Recommendation(Pending, ResultsNotPublished)
    else
      var c := w.batches[b.value].course;
      var department := w.courses[c].department;
      if Position(w.courses, department, c).None? then Recommendation(ManualReview, CourseSequenceGap)
      else if NextCourse(w.courses, department, c).Some? then
        if w.college then Recommendation(Promote, NextCourseAvailable)
        else Recommendation(ManualReview, NoPassFailPolicy)
      else if w.college then
        if OpenArrears(w, e) != [] then Recommendation(Retain, ArrearsPending)
        else Recommendation(Graduate, FinalYearClear)
      else Recommendation(Graduate, FinalYear)
  }

  // ---------------------------------------------------------------- the answer, on the tables

  /** The student with this row is live and active, and so is the row, of year y. */
  ghost predicate Attends(w: World, y: Id, e: Id) {
    && e < |w.enrollments| && w.enrollments[e].live && w.enrollments[e].status == Active && w.enrollments[e].year == y
    && var p := w.enrollments[e].profile;
       p < |w.profiles| && w.profiles[p].live && w.profiles[p].status == Active
  }

  /** The class is live in its department. */
  ghost predicate InSequence(cs: seq<Course>, c: Id) {
    c < |cs| && cs[c].live
  }

  /** Some live class of the department comes after it by name. */
  ghost predicate HasLater(cs: seq<Course>, c: Id) {
    c < |cs| &&
    exists d: Id :: d < |cs| && cs[d].live && cs[d].department == cs[c].department && cs[c].name < cs[d].name
  }

  lemma PositionOffered(cs: seq<Course>, c: Id)
    requires c < |cs|
    ensures Position(cs, cs[c].department, c).Some? <==> InSequence(cs, c)
  {
    assert c in Sorted(cs, cs[c].department, |cs|) <==> Offered(cs, cs[c].department, c);
  }

  lemma LaterIsNext(cs: seq<Course>, c: Id)
    requires c < |cs| && UniqueCourses(cs) && InSequence(cs, c)
    ensures NextCourse(cs, cs[c].department, c).Some? <==> HasLater(cs, c)
  {
    var next := NextCourse(cs, cs[c].department, c);
    if next.Some? { NextFollows(cs, cs[c].department, c, next.value); }
    if HasLater(cs, c) && next.None? {
      NextAdvances(cs, cs[c].department, c);
      LastHasNoLater(cs, c);
    }
  }

  lemma LastHasNoLater(cs: seq<Course>, c: Id)
    requires c < |cs| && UniqueCourses(cs)
    requires Position(cs, cs[c].department, c) == Some(Length(cs, cs[c].department) - 1)
    ensures !HasLater(cs, c)
  {
    var ids := Sorted(cs, cs[c].department, |cs|);
    SortedIncreasing(cs, cs[c].department, |cs|);
    forall d: Id | d < |cs| && cs[d].live && cs[d].department == cs[c].department ensures cs[d].name <= cs[c].name {
      assert Offered(cs, cs[c].department, d);
      var i :| 0 <= i < |ids| && ids[i] == d;
    }
  }

  /** What the engine answers: nothing can be said without a section or before results are out; a class out of
      sequence is reviewed; a college promotes to a later class and asks for a clear record at the last, a
      school has everybody reviewed until the last, which it graduates. */
  lemma RecommendExact(w: World, e: Id, unpublished: set<Id>)
    requires e < |w.enrollments| && UniqueCourses(w.courses)
    ensures var r, b := Recommend(w, e, unpublished), w.enrollments[e].batch;
            var placed := b.Some? && b.value < |w.batches| && w.batches[b.value].course < |w.courses|;
            if !placed then r == Recommendation(Pending, NoBatch)
            else if e in unpublished then r == Recommendation(Pending, ResultsNotPublished)
            else
              var c := w.batches[b.value].course;
              && (!InSequence(w.courses, c) ==> r == Recommendation(ManualReview, CourseSequenceGap))
              && (InSequence(w.courses, c) && HasLater(w.courses, c) ==>
                    (w.college ==> r == Recommendation(Promote, NextCourseAvailable)) &&
                    (!w.college ==> r == Recommendation(ManualReview, NoPassFailPolicy)))
              && (InSequence(w.courses, c) && !HasLater(w.courses, c) ==>
                    (w.college && !CarriesOver(w, e, []) ==> r == Recommendation(Retain, ArrearsPending)) &&
                    (w.college && CarriesOver(w, e, []) ==> r == Recommendation(Graduate, FinalYearClear)) &&
                    (!w.college ==> r == Recommendation(Graduate, FinalYear)))
  {
    var b := w.enrollments[e].batch;
    if b.Some? && b.value < |w.batches| && w.batches[b.value].course < |w.courses| {
      var c := w.batches[b.value].course;
      PositionOffered(w.courses, c);
      if InSequence(w.courses, c) { LaterIsNext(w.courses, c); }
    }
  }
}
