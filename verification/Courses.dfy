/** The ordered courses of a department and the course that follows a course. */
module Courses {
  import opened Records

  predicate Offered(cs: seq<Course>, department: Id, c: Id) {
    c < |cs| && cs[c].live && cs[c].department == department
  }

  /** Course names are unique within a department. */
  ghost predicate UniqueCourses(cs: seq<Course>) {
    forall i, j :: 0 <= i < j < |cs| ==> cs[i].department != cs[j].department || cs[i].name != cs[j].name
  }

  function Insert(cs: seq<Course>, ids: seq<Id>, c: Id): (r: seq<Id>)
    requires c < |cs| && forall i :: 0 <= i < |ids| ==> ids[i] < |cs|
    ensures forall i :: 0 <= i < |r| ==> r[i] < |cs|
    ensures forall x: Id :: x in r <==> x in ids || x == c
  {
    if ids == [] || cs[c].name < cs[ids[0]].name then [c] + ids
    else [ids[0]] + Insert(cs, ids[1..], c)
  }

  /** The live courses of a department among the first n, sorted by name. */
  function Sorted(cs: seq<Course>, department: Id, n: nat): (r: seq<Id>)
    requires n <= |cs|
    ensures forall i :: 0 <= i < |r| ==> r[i] < |cs|
    ensures forall x: Id :: x in r <==> x < n && Offered(cs, department, x)
  {
    if n == 0 then []
    else if Offered(cs, department, n - 1) then Insert(cs, Sorted(cs, department, n - 1), n - 1)
    else Sorted(cs, department, n - 1)
  }

  function IndexOf(ids: seq<Id>, c: Id): (r: Option<nat>)
    ensures r.Some? ==> r.value < |ids| && ids[r.value] == c
    ensures r.None? ==> c !in ids
  {
    if ids == [] then Option.None
    else if ids[0] == c then Some(0)
    else
      var r := IndexOf(ids[1..], c);
      if r.Some? then Some(r.value + 1) else Option.None
  }

  function NextCourse(cs: seq<Course>, department: Id, current: Id): (r: Option<Id>)
    ensures r.Some? ==> r.value < |cs|
  {
    var ids := Sorted(cs, department, |cs|);
    var i := IndexOf(ids, current);
    if i.Some? && i.value + 1 < |ids| then Some(ids[i.value + 1]) else Option.None
  }

  // ---------------------------------------------------------------- what the next course is

  ghost predicate Increasing(cs: seq<Course>, ids: seq<Id>) {
    && (forall i :: 0 <= i < |ids| ==> ids[i] < |cs|)
    && forall i, j :: 0 <= i < j < |ids| ==> cs[ids[i]].name < cs[ids[j]].name
  }

  lemma {:induction false} InsertIncreasing(cs: seq<Course>, ids: seq<Id>, c: Id)
    requires Increasing(cs, ids) && c < |cs|
    requires forall i :: 0 <= i < |ids| ==> cs[ids[i]].name != cs[c].name
    ensures Increasing(cs, Insert(cs, ids, c))
  {
    if ids != [] && cs[c].name >= cs[ids[0]].name {
      InsertIncreasing(cs, ids[1..], c);
      var r := Insert(cs, ids[1..], c);
      forall j | 0 <= j < |r| ensures cs[ids[0]].name < cs[r[j]].name { assert r[j] in r; }
    }
  }

  lemma {:induction false} SortedIncreasing(cs: seq<Course>, department: Id, n: nat)
    requires n <= |cs| && UniqueCourses(cs)
    ensures Increasing(cs, Sorted(cs, department, n))
  {
    if n > 0 {
      SortedIncreasing(cs, department, n - 1);
      if Offered(cs, department, n - 1) {
        var rest := Sorted(cs, department, n - 1);
        forall i | 0 <= i < |rest| ensures cs[rest[i]].name != cs[n - 1].name {
          assert rest[i] in rest;
          assert rest[i] < n - 1 && Offered(cs, department, rest[i]);
        }
        InsertIncreasing(cs, rest, n - 1);
      }
    }
  }

  /** Both courses are live and of the department, and d is the first such course after c in name order. */
  ghost predicate Follows(cs: seq<Course>, department: Id, c: Id, d: Id) {
    && c < |cs| && cs[c].live && cs[c].department == department
    && d < |cs| && cs[d].live && cs[d].department == department
    && cs[c].name < cs[d].name
    && forall x: Id :: x < |cs| && cs[x].live && cs[x].department == department ==>
         cs[x].name <= cs[c].name || cs[d].name <= cs[x].name
  }

  /** In a list of exactly the offered courses by name, the entry after c is the one that follows c. */
  lemma AfterFollows(cs: seq<Course>, department: Id, ids: seq<Id>, k: nat)
    requires Increasing(cs, ids) && k + 1 < |ids|
    requires forall x: Id :: x in ids <==> Offered(cs, department, x)
    ensures Follows(cs, department, ids[k], ids[k + 1])
  {
    assert ids[k] in ids && ids[k + 1] in ids;
    forall x: Id | x < |cs| && cs[x].live && cs[x].department == department
      ensures cs[x].name <= cs[ids[k]].name || cs[ids[k + 1]].name <= cs[x].name
    {
      assert Offered(cs, department, x);
      var j :| 0 <= j < |ids| && ids[j] == x;
    }
  }

  lemma FollowsIsAfter(cs: seq<Course>, department: Id, ids: seq<Id>, k: nat, d: Id)
    requires Increasing(cs, ids) && k < |ids| && Follows(cs, department, ids[k], d)
    requires forall x: Id :: x in ids <==> Offered(cs, department, x)
    ensures k + 1 < |ids| && ids[k + 1] == d
  {
    assert d in ids;
    var j :| 0 <= j < |ids| && ids[j] == d;
    assert k < j;
    assert ids[k + 1] in ids;
  }

  lemma NextFollows(cs: seq<Course>, department: Id, c: Id, d: Id)
    requires UniqueCourses(cs)
    ensures NextCourse(cs, department, c) == Some(d) <==> Follows(cs, department, c, d)
  {
    var ids := Sorted(cs, department, |cs|);
    SortedIncreasing(cs, department, |cs|);
    var i := IndexOf(ids, c);
    if i.Some? && i.value + 1 < |ids| { AfterFollows(cs, department, ids, i.value); }
    if Follows(cs, department, c, d) {
      assert c in ids;
      FollowsIsAfter(cs, department, ids, i.value, d);
    }
  }

  /** Two courses never lead to the same next course, and the next course is always further on. */
  lemma NextInjective(cs: seq<Course>, department: Id, c: Id, c': Id, d: Id)
    requires UniqueCourses(cs)
    requires NextCourse(cs, department, c) == Some(d) && NextCourse(cs, department, c') == Some(d)
    ensures c == c' && cs[c].name < cs[d].name
  {
    NextFollows(cs, department, c, d);
    NextFollows(cs, department, c', d);
  }

  /** Where a course stands in its department, counted from 0. */
  function Position(cs: seq<Course>, department: Id, c: Id): Option<nat> {
    IndexOf(Sorted(cs, department, |cs|), c)
  }

  function Length(cs: seq<Course>, department: Id): nat {
    |Sorted(cs, department, |cs|)|
  }

  lemma {:induction false} IndexOfUnique(ids: seq<Id>, i: nat)
    requires i < |ids| && forall j, k :: 0 <= j < k < |ids| ==> ids[j] != ids[k]
    ensures IndexOf(ids, ids[i]) == Some(i)
  {
    if i > 0 { IndexOfUnique(ids[1..], i - 1); }
  }

  /** The next course stands one place further; there is none exactly at the last place. */
  lemma NextAdvances(cs: seq<Course>, department: Id, c: Id)
    requires UniqueCourses(cs) && Offered(cs, department, c)
    ensures var p, next := Position(cs, department, c), NextCourse(cs, department, c);
            && p.Some? && p.value < Length(cs, department)
            && (next.None? <==> p.value == Length(cs, department) - 1)
            && (next.Some? ==> Offered(cs, department, next.value) &&
                               Position(cs, department, next.value) == Some(p.value + 1))
  {
    var ids := Sorted(cs, department, |cs|);
    assert c in ids;
    SortedIncreasing(cs, department, |cs|);
    var p := IndexOf(ids, c);
    if p.value + 1 < |ids| {
      assert ids[p.value + 1] in ids;
      IndexOfUnique(ids, p.value + 1);
    }
  }
}
