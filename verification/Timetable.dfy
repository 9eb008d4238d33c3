/** The weekly timetable: clash detection, the clash report, and the writes that keep it collision-free. */
module Timetable {
  import opened Records

  /** One cell of a class timetable (a sheet).  active is the status: true for active, false for TBD. */
  datatype Entry = Entry(
    sheet: Id, subject: Id, slot: Id, day: nat, faculty: Option<Id>, room: Option<Id>,
    active: bool, version: nat, live: bool)

  datatype Sheet = Sheet(batch: Id, year: Id, frozen: bool, branch: Id)

  /** A subject taught to one section. */
  datatype Taught = Taught(batch: Id, subject: Id, branch: Id, live: bool)

  /** What the timetable refers to.  slots and rooms give the branch of each live period and room. */
  datatype School = School(
    sheets: seq<Sheet>, taught: seq<Taught>, slots: map<Id, Id>, rooms: map<Id, Id>, staff: set<Id>)

  datatype Kind = ByFaculty | ByRoom

  datatype Clash = Clash(kind: Kind, ids: set<Id>)

  datatype Refusal =
    | Frozen | BadSubject | BadSlot | BadStaff | BadRoom | Outdated
    | SlotTaken | Clashing(found: seq<Clash>) | Constraint

  datatype Reply = Saved(entries: seq<Entry>) | Refused(why: Refusal)

  // ---------------------------------------------------------------- detection

  predicate Counted(es: seq<Entry>, s: School, branch: Id, i: Id) {
    i < |es| && es[i].active && es[i].live &&
    es[i].sheet < |s.sheets| && s.sheets[es[i].sheet].branch == branch
  }

  function Resource(e: Entry, kind: Kind): Option<Id> {
    if kind == ByFaculty then e.faculty else e.room
  }

  /** The other counted entries at this day and period with this person or room. */
  function Hits(es: seq<Entry>, s: School, branch: Id, day: nat, slot: Id, kind: Kind,
                who: Option<Id>, exclude: Option<Id>): set<Id> {
    set j: Id | 0 <= j < |es| && Counted(es, s, branch, j) && Some(j) != exclude
                && es[j].day == day && es[j].slot == slot && who.Some? && Resource(es[j], kind) == who
  }

  function DetectClashes(es: seq<Entry>, s: School, branch: Id, day: nat, slot: Id,
                         faculty: Option<Id>, room: Option<Id>, exclude: Option<Id>): seq<Clash> {
    var f := Hits(es, s, branch, day, slot, ByFaculty, faculty, exclude);
    var r := Hits(es, s, branch, day, slot, ByRoom, room, exclude);
    (if f != {} then [Clash(ByFaculty, f)] else []) + (if r != {} then [Clash(ByRoom, r)] else [])
  }

  predicate SlotOccupied(es: seq<Entry>, sheet: Id, day: nat, slot: Id, exclude: Option<Id>) {
    exists j: Id :: 0 <= j < |es| && Some(j) != exclude && es[j].active && es[j].live
                    && es[j].sheet == sheet && es[j].day == day && es[j].slot == slot
  }

  // ---------------------------------------------------------------- the clash report

  /** The faculty or room class of entry i: every counted entry that shares its person or room then. */
  function ClassOf(es: seq<Entry>, s: School, branch: Id, kind: Kind, i: Id): (r: set<Id>)
    requires i < |es|
    ensures forall j <- r :: j < |es| && Counted(es, s, branch, j)
  {
    Hits(es, s, branch, es[i].day, es[i].slot, kind, Resource(es[i], kind), Option.None)
  }

  function HitsOf(es: seq<Entry>, s: School, branch: Id, i: Id): seq<Clash>
    requires i < |es|
  {
    DetectClashes(es, s, branch, es[i].day, es[i].slot, es[i].faculty, es[i].room, Some(i))
  }

  /** The listing visits every counted entry once, in any order. */
  ghost predicate Listing(es: seq<Entry>, s: School, branch: Id, visits: seq<Id>) {
    && (forall k :: 0 <= k < |visits| ==> Counted(es, s, branch, visits[k]))
    && (forall i: Id :: Counted(es, s, branch, i) ==> i in visits)
    && (forall k, l :: 0 <= k < l < |visits| ==> visits[k] != visits[l])
  }

  /** Key (type, sorted ids) of a reported clash: the ids are distinct, so a set stands for the tuple. */
  type Key = (Kind, set<Id>)

  method ListAllClashes(es: seq<Entry>, s: School, branch: Id, visits: seq<Id>) returns (report: seq<Clash>)
    requires forall k :: 0 <= k < |visits| ==> visits[k] < |es|
    ensures report == Report(es, s, branch, visits)
  {
    report := [];
    var seen: set<Key> := {};
    for n := 0 to |visits|
      invariant Visited(es, s, branch, visits[..n], report, seen)
    {
      var i := visits[n];
      assert visits[..n + 1] == visits[..n] + [i];
      report, seen := VisitEntry(es, s, branch, visits[..n], i, report, seen);
    }
    assert visits[..|visits|] == visits;
  }

  method VisitEntry(es: seq<Entry>, s: School, branch: Id, ghost before: seq<Id>, i: Id,
                    report: seq<Clash>, seen: set<Key>)
    returns (report': seq<Clash>, seen': set<Key>)
    requires Visited(es, s, branch, before, report, seen) && i < |es|
    ensures Visited(es, s, branch, before + [i], report', seen')
  {
    DifferentKinds(es, s, branch, i);
    report', seen' := AddUnseen(HitsOf(es, s, branch, i), i, report, seen);
    VisitedMore(es, s, branch, before, i, report, seen);
  }

  /** The body of the visit of entry i: each hit is reported unless its key was seen before. */
  method AddUnseen(hits: seq<Clash>, i: Id, report: seq<Clash>, seen: set<Key>)
    returns (report': seq<Clash>, seen': set<Key>)
    requires forall g, h :: 0 <= g < h < |hits| ==> hits[g].kind != hits[h].kind
    ensures report' == report + Unseen(hits, i, seen)
    ensures seen' == seen + KeysOf(hits, i)
  {
    report', seen' := report, seen;
    for h := 0 to |hits|
      invariant report' == report + Unseen(hits[..h], i, seen)
      invariant seen' == seen + KeysOf(hits[..h], i)
    {
      assert hits[..h + 1][..h] == hits[..h];
      var key := (hits[h].kind, hits[h].ids + {i});
      assert key !in KeysOf(hits[..h], i);
      if key !in seen' {
        seen' := seen' + {key};
        report' := report' + [hits[h]];
      }
    }
    assert hits[..|hits|] == hits;
  }

  function KeysOf(hits: seq<Clash>, i: Id): (r: set<Key>)
    ensures forall h :: 0 <= h < |hits| ==> (hits[h].kind, hits[h].ids + {i}) in r
    ensures forall k <- r :: exists h :: 0 <= h < |hits| && k == (hits[h].kind, hits[h].ids + {i})
  {
    if hits == [] then {}
    else KeysOf(hits[..|hits| - 1], i) + {(hits[|hits| - 1].kind, hits[|hits| - 1].ids + {i})}
  }

  function Keys(es: seq<Entry>, s: School, branch: Id, visits: seq<Id>): set<Key>
    requires forall k :: 0 <= k < |visits| ==> visits[k] < |es|
  {
    if visits == [] then {}
    else Keys(es, s, branch, visits[..|visits| - 1]) +
         KeysOf(HitsOf(es, s, branch, visits[|visits| - 1]), visits[|visits| - 1])
  }

  function Unseen(hits: seq<Clash>, i: Id, seen: set<Key>): seq<Clash> {
    if hits == [] then []
    else
      var c := hits[|hits| - 1];
      Unseen(hits[..|hits| - 1], i, seen) + if (c.kind, c.ids + {i}) in seen then [] else [c]
  }

  /** Specification of the report: a clash is kept when its key was not met at an earlier visit. */
  function Report(es: seq<Entry>, s: School, branch: Id, visits: seq<Id>): seq<Clash>
    requires forall k :: 0 <= k < |visits| ==> visits[k] < |es|
  {
    if visits == [] then []
    else
      var front, i := visits[..|visits| - 1], visits[|visits| - 1];
      Report(es, s, branch, front) + Unseen(HitsOf(es, s, branch, i), i, Keys(es, s, branch, front))
  }

  /** The report and the keys after these visits. */
  ghost predicate Visited(es: seq<Entry>, s: School, branch: Id, visits: seq<Id>, report: seq<Clash>, seen: set<Key>) {
    && (forall k :: 0 <= k < |visits| ==> visits[k] < |es|)
    && report == Report(es, s, branch, visits) && seen == Keys(es, s, branch, visits)
  }

  lemma VisitedMore(es: seq<Entry>, s: School, branch: Id, visits: seq<Id>, i: Id, report: seq<Clash>, seen: set<Key>)
    requires Visited(es, s, branch, visits, report, seen) && i < |es|
    ensures var hits := HitsOf(es, s, branch, i);
            Visited(es, s, branch, visits + [i], report + Unseen(hits, i, seen), seen + KeysOf(hits, i))
  {
    assert (visits + [i])[..|visits|] == visits;
  }

  lemma DifferentKinds(es: seq<Entry>, s: School, branch: Id, i: Id)
    requires i < |es|
    ensures forall g, h :: 0 <= g < h < |HitsOf(es, s, branch, i)| ==>
              HitsOf(es, s, branch, i)[g].kind != HitsOf(es, s, branch, i)[h].kind
  {
  }

  // ---------------------------------------------------------------- the report is exact

  /** Someone else is in the class of entry i. */
  predicate Crowded(es: seq<Entry>, s: School, branch: Id, kind: Kind, i: Id)
    requires i < |es|
  {
    ClassOf(es, s, branch, kind, i) - {i} != {}
  }

  /** How many items of the report speak of some member of a class. */
  function Reports(report: seq<Clash>, kind: Kind, members: set<Id>): nat {
    if report == [] then 0
    else
      var c := report[|report| - 1];
      Reports(report[..|report| - 1], kind, members) + if c.kind == kind && c.ids * members != {} then 1 else 0
  }

  lemma {:induction false} ReportsAdd(a: seq<Clash>, b: seq<Clash>, kind: Kind, members: set<Id>)
    ensures Reports(a + b, kind, members) == Reports(a, kind, members) + Reports(b, kind, members)
  {
    if b == [] {
      assert a + b == a;
    } else {
      assert (a + b)[..|a + b| - 1] == a + b[..|b| - 1];
      ReportsAdd(a, b[..|b| - 1], kind, members);
    }
  }

  /** Classes of one kind are equal or disjoint. */
  lemma ClassesPartition(es: seq<Entry>, s: School, branch: Id, kind: Kind, i: Id, j: Id)
    requires Counted(es, s, branch, i) && Counted(es, s, branch, j)
    ensures j in ClassOf(es, s, branch, kind, i) ==>
              ClassOf(es, s, branch, kind, j) == ClassOf(es, s, branch, kind, i)
    ensures j !in ClassOf(es, s, branch, kind, i) ==>
              ClassOf(es, s, branch, kind, j) * ClassOf(es, s, branch, kind, i) == {}
  {
  }

  lemma HitsAreClass(es: seq<Entry>, s: School, branch: Id, i: Id)
    requires Counted(es, s, branch, i)
    ensures HitsOf(es, s, branch, i) ==
            (if Crowded(es, s, branch, ByFaculty, i)
             then [Clash(ByFaculty, ClassOf(es, s, branch, ByFaculty, i) - {i})] else []) +
            (if Crowded(es, s, branch, ByRoom, i)
             then [Clash(ByRoom, ClassOf(es, s, branch, ByRoom, i) - {i})] else [])
  {
    var e := es[i];
    assert Hits(es, s, branch, e.day, e.slot, ByFaculty, e.faculty, Some(i)) ==
           ClassOf(es, s, branch, ByFaculty, i) - {i};
    assert Hits(es, s, branch, e.day, e.slot, ByRoom, e.room, Some(i)) == ClassOf(es, s, branch, ByRoom, i) - {i};
  }

  /** What one visit adds about the class of entry i. */
  lemma VisitReports(es: seq<Entry>, s: School, branch: Id, kind: Kind, i: Id, v: Id, seen: set<Key>)
    requires Counted(es, s, branch, i) && Counted(es, s, branch, v) && Crowded(es, s, branch, kind, i)
    ensures var c := ClassOf(es, s, branch, kind, i);
            Reports(Unseen(HitsOf(es, s, branch, v), v, seen), kind, c)
            == if v in c && (kind, c) !in seen then 1 else 0
    ensures var c := ClassOf(es, s, branch, kind, i);
            (kind, c) in KeysOf(HitsOf(es, s, branch, v), v) <==> v in c
  {
    var c, d := ClassOf(es, s, branch, kind, i), ClassOf(es, s, branch, kind, v);
    HitsAreClass(es, s, branch, v);
    ClassesPartition(es, s, branch, kind, i, v);
    var f, r := ClassOf(es, s, branch, ByFaculty, v), ClassOf(es, s, branch, ByRoom, v);
    assert Crowded(es, s, branch, ByFaculty, v) ==> f - {v} + {v} == f;
    assert Crowded(es, s, branch, ByRoom, v) ==> r - {v} + {v} == r;
    assert i in c && (v in c && v != i ==> i in d - {v});
    OneVisit(f, r, v, kind, c, seen);
  }

  lemma OneVisit(f: set<Id>, r: set<Id>, v: Id, kind: Kind, c: set<Id>, seen: set<Key>)
    requires f - {v} != {} ==> f - {v} + {v} == f
    requires r - {v} != {} ==> r - {v} + {v} == r
    requires var d := if kind == ByFaculty then f else r;
             (v in c ==> d == c && d - {v} != {}) && (v !in c ==> d * c == {})
    ensures var hits := (if f - {v} != {} then [Clash(ByFaculty, f - {v})] else []) +
                        (if r - {v} != {} then [Clash(ByRoom, r - {v})] else []);
            && Reports(Unseen(hits, v, seen), kind, c) == (if v in c && (kind, c) !in seen then 1 else 0)
            && ((kind, c) in KeysOf(hits, v) <==> v in c)
  {
    var a := if f - {v} != {} then [Clash(ByFaculty, f - {v})] else [];
    var b := if r - {v} != {} then [Clash(ByRoom, r - {v})] else [];
    OneHit(f, v, ByFaculty, kind, c, seen);
    OneHit(r, v, ByRoom, kind, c, seen);
    UnseenAdd(a, b, v, seen);
    KeysAdd(a, b, v);
    ReportsAdd(Unseen(a, v, seen), Unseen(b, v, seen), kind, c);
  }

  lemma OneHit(d: set<Id>, v: Id, k: Kind, kind: Kind, c: set<Id>, seen: set<Key>)
    requires d - {v} != {} ==> d - {v} + {v} == d
    requires k == kind ==> (v in c ==> d == c && d - {v} != {}) && (v !in c ==> d * c == {})
    ensures var hits := if d - {v} != {} then [Clash(k, d - {v})] else [];
            && Reports(Unseen(hits, v, seen), kind, c) == (if k == kind && v in c && (kind, c) !in seen then 1 else 0)
            && ((kind, c) in KeysOf(hits, v) <==> k == kind && v in c)
  {
    if d - {v} != {} {
      var x := Clash(k, d - {v});
      assert Unseen([x][..0], v, seen) == [];
      assert Unseen([x], v, seen) == if (k, d) in seen then [] else [x];
      assert Reports([x][..0], kind, c) == 0;
      if k == kind {
        assert v in c ==> (d - {v}) * c == d - {v};
        assert v !in c ==> (d - {v}) * c == {};
      }
    }
  }

  lemma {:induction false} UnseenAdd(a: seq<Clash>, b: seq<Clash>, v: Id, seen: set<Key>)
    ensures Unseen(a + b, v, seen) == Unseen(a, v, seen) + Unseen(b, v, seen)
  {
    if b == [] {
      assert a + b == a;
    } else {
      assert (a + b)[..|a + b| - 1] == a + b[..|b| - 1];
      UnseenAdd(a, b[..|b| - 1], v, seen);
    }
  }

  lemma {:induction false} KeysAdd(a: seq<Clash>, b: seq<Clash>, v: Id)
    ensures KeysOf(a + b, v) == KeysOf(a, v) + KeysOf(b, v)
  {
    if b == [] {
      assert a + b == a;
    } else {
      assert (a + b)[..|a + b| - 1] == a + b[..|b| - 1];
      KeysAdd(a, b[..|b| - 1], v);
    }
  }

  /** The class is reported once, and its key seen, exactly when a member has been visited. */
  ghost predicate Once(report: seq<Clash>, seen: set<Key>, visits: seq<Id>, kind: Kind, c: set<Id>) {
    && Reports(report, kind, c) == (if exists v <- visits :: v in c then 1 else 0)
    && ((kind, c) in seen <==> exists v <- visits :: v in c)
  }

  lemma OnceMore(report: seq<Clash>, seen: set<Key>, visits: seq<Id>, kind: Kind, c: set<Id>, v: Id, hits: seq<Clash>)
    requires Once(report, seen, visits, kind, c)
    requires Reports(Unseen(hits, v, seen), kind, c) == (if v in c && (kind, c) !in seen then 1 else 0)
    requires ((kind, c) in KeysOf(hits, v)) <==> (v in c)
    ensures Once(report + Unseen(hits, v, seen), seen + KeysOf(hits, v), visits + [v], kind, c)
  {
    ReportsAdd(report, Unseen(hits, v, seen), kind, c);
    assert (exists x <- visits + [v] :: x in c) <==> (exists x <- visits :: x in c) || v in c by {
      assert v in visits + [v];
      if x :| x in visits && x in c { assert x in visits + [v]; }
    }
  }

  ghost predicate OnceSoFar(es: seq<Entry>, s: School, branch: Id, visits: seq<Id>, kind: Kind, c: set<Id>) {
    && (forall k :: 0 <= k < |visits| ==> visits[k] < |es|)
    && Once(Report(es, s, branch, visits), Keys(es, s, branch, visits), visits, kind, c)
  }

  lemma VisitOnce(es: seq<Entry>, s: School, branch: Id, visits: seq<Id>, kind: Kind, i: Id, c: set<Id>, v: Id)
    requires Counted(es, s, branch, i) && Counted(es, s, branch, v) && Crowded(es, s, branch, kind, i)
    requires c == ClassOf(es, s, branch, kind, i)
    ensures OnceSoFar(es, s, branch, visits, kind, c) ==> OnceSoFar(es, s, branch, visits + [v], kind, c)
  {
    if OnceSoFar(es, s, branch, visits, kind, c) {
      var report, seen := Report(es, s, branch, visits), Keys(es, s, branch, visits);
      VisitReports(es, s, branch, kind, i, v, seen);
      VisitedMore(es, s, branch, visits, v, report, seen);
      OnceMore(report, seen, visits, kind, c, v, HitsOf(es, s, branch, v));
    }
  }

  lemma LastVisitOnce(es: seq<Entry>, s: School, branch: Id, visits: seq<Id>, kind: Kind, i: Id, c: set<Id>)
    requires visits != [] && Counted(es, s, branch, visits[|visits| - 1])
    requires Counted(es, s, branch, i) && Crowded(es, s, branch, kind, i) && c == ClassOf(es, s, branch, kind, i)
    ensures OnceSoFar(es, s, branch, visits[..|visits| - 1], kind, c) ==> OnceSoFar(es, s, branch, visits, kind, c)
  {
    assert visits == visits[..|visits| - 1] + [visits[|visits| - 1]];
    VisitOnce(es, s, branch, visits[..|visits| - 1], kind, i, c, visits[|visits| - 1]);
  }

  lemma {:induction false} ReportsOnce(es: seq<Entry>, s: School, branch: Id, visits: seq<Id>, kind: Kind, i: Id,
                                       c: set<Id>)
    requires forall k :: 0 <= k < |visits| ==> Counted(es, s, branch, visits[k])
    requires Counted(es, s, branch, i) && Crowded(es, s, branch, kind, i) && c == ClassOf(es, s, branch, kind, i)
    ensures OnceSoFar(es, s, branch, visits, kind, c)
  {
    if visits != [] {
      ReportsOnce(es, s, branch, visits[..|visits| - 1], kind, i, c);
      LastVisitOnce(es, s, branch, visits, kind, i, c);
    }
  }

  /** A report item is about the class of some visited entry v: v is left out and everyone else is in. */
  ghost predicate AboutVisit(es: seq<Entry>, s: School, branch: Id, visits: seq<Id>, c: Clash) {
    exists v <- visits :: v < |es| && Counted(es, s, branch, v) && Crowded(es, s, branch, c.kind, v)
                          && c.ids == ClassOf(es, s, branch, c.kind, v) - {v}
  }

  lemma {:induction false} UnseenAreHits(hits: seq<Clash>, i: Id, seen: set<Key>)
    ensures forall c <- Unseen(hits, i, seen) :: c in hits
  {
    if hits != [] { UnseenAreHits(hits[..|hits| - 1], i, seen); }
  }

  lemma {:induction false} ItemsSound(es: seq<Entry>, s: School, branch: Id, visits: seq<Id>)
    requires forall k :: 0 <= k < |visits| ==> visits[k] < |es| && Counted(es, s, branch, visits[k])
    ensures forall c <- Report(es, s, branch, visits) :: AboutVisit(es, s, branch, visits, c)
  {
    if visits != [] {
      var front, v := visits[..|visits| - 1], visits[|visits| - 1];
      ItemsSound(es, s, branch, front);
      HitsAreClass(es, s, branch, v);
      UnseenAreHits(HitsOf(es, s, branch, v), v, Keys(es, s, branch, front));
      forall c <- Report(es, s, branch, visits) ensures AboutVisit(es, s, branch, visits, c) {
        if c in Report(es, s, branch, front) {
          var u :| u in front && u < |es| && Counted(es, s, branch, u) && Crowded(es, s, branch, c.kind, u)
                   && c.ids == ClassOf(es, s, branch, c.kind, u) - {u};
          assert u in visits;
        } else {
          assert v in visits;
        }
      }
    }
  }

  /** Each item is a whole class less the entry visited; each class of two or more has exactly one item;
      and the report is empty exactly when no two counted entries collide. */
  lemma ClashReportExact(es: seq<Entry>, s: School, branch: Id, visits: seq<Id>)
    requires Listing(es, s, branch, visits)
    ensures forall c <- Report(es, s, branch, visits) :: AboutVisit(es, s, branch, visits, c)
    ensures forall kind: Kind, i: Id :: Counted(es, s, branch, i) && Crowded(es, s, branch, kind, i) ==>
              Reports(Report(es, s, branch, visits), kind, ClassOf(es, s, branch, kind, i)) == 1
    ensures Report(es, s, branch, visits) == [] <==>
            forall kind: Kind, i: Id :: Counted(es, s, branch, i) ==> !Crowded(es, s, branch, kind, i)
  {
    ItemsSound(es, s, branch, visits);
    var report := Report(es, s, branch, visits);
    forall kind: Kind, i: Id | Counted(es, s, branch, i) && Crowded(es, s, branch, kind, i)
      ensures Reports(report, kind, ClassOf(es, s, branch, kind, i)) == 1
    {
      ReportsOnce(es, s, branch, visits, kind, i, ClassOf(es, s, branch, kind, i));
      var j :| j in ClassOf(es, s, branch, kind, i) - {i};
      assert i in ClassOf(es, s, branch, kind, i);
    }
    if report != [] {
      assert AboutVisit(es, s, branch, visits, report[0]);
    }
  }

  // ---------------------------------------------------------------- the table constraints

  predicate Shares(kind: Kind, a: Entry, b: Entry) {
    a.day == b.day && a.slot == b.slot && Resource(a, kind).Some? && Resource(a, kind) == Resource(b, kind)
  }

  /** Two rows the database refuses side by side.  Deleted rows take part. */
  predicate Conflict(a: Entry, b: Entry) {
    || (a.sheet == b.sheet && a.subject == b.subject && a.day == b.day && a.slot == b.slot)
    || (a.active && b.active && (Shares(ByFaculty, a, b) || Shares(ByRoom, a, b)))
  }

  ghost predicate Constrained(es: seq<Entry>) {
    forall i, j :: 0 <= i < j < |es| ==> !Conflict(es[i], es[j])
  }

  /** Row e may be stored at position at. */
  predicate Storable(es: seq<Entry>, at: nat, e: Entry) {
    forall j :: 0 <= j < |es| && j != at ==> !Conflict(es[j], e)
  }

  /** What the timetable is for: no class, person or room is in two places at once. */
  predicate DoubleBooked(a: Entry, b: Entry) {
    a.live && b.live && a.active && b.active &&
    ((a.sheet == b.sheet && a.day == b.day && a.slot == b.slot) || Shares(ByFaculty, a, b) || Shares(ByRoom, a, b))
  }

  ghost predicate Feasible(es: seq<Entry>) {
    forall i, j :: 0 <= i < j < |es| ==> !DoubleBooked(es[i], es[j])
  }

  // ---------------------------------------------------------------- writes, on values

  predicate KnownStaff(s: School, faculty: Option<Id>) {
    faculty.Some? ==> faculty.value in s.staff
  }

  predicate KnownRoom(s: School, branch: Id, room: Option<Id>) {
    room.Some? ==> room.value in s.rooms && s.rooms[room.value] == branch
  }

  /** The two checks made before a row becomes or stays active. */
  function ActiveChecks(es: seq<Entry>, s: School, branch: Id, e: Entry, exclude: Option<Id>): Option<Refusal> {
    if SlotOccupied(es, e.sheet, e.day, e.slot, exclude) then Some(SlotTaken)
    else
      var found := DetectClashes(es, s, branch, e.day, e.slot, e.faculty, e.room, exclude);
      if found != [] then Some(Clashing(found)) else Option.None
  }

  /** A live subject of this branch, taught to the section whose timetable this is. */
  predicate KnownSubject(s: School, branch: Id, e: Entry)
    requires e.sheet < |s.sheets|
  {
    && e.subject < |s.taught| && s.taught[e.subject].live && s.taught[e.subject].branch == branch
    && s.taught[e.subject].batch == s.sheets[e.sheet].batch
  }

  predicate KnownSlot(s: School, branch: Id, slot: Id) {
    slot in s.slots && s.slots[slot] == branch
  }

  /** e is the row to add: version 1 and live. */
  function Create(es: seq<Entry>, s: School, branch: Id, e: Entry): Reply
    requires e.sheet < |s.sheets|
  {
    if s.sheets[e.sheet].frozen then Refused(Frozen)
    else if !KnownSubject(s, branch, e) then Refused(BadSubject)
    else if !KnownSlot(s, branch, e.slot) then Refused(BadSlot)
    else if !KnownStaff(s, e.faculty) then Refused(BadStaff)
    else if !KnownRoom(s, branch, e.room) then Refused(BadRoom)
    else
      var checks := if e.active then ActiveChecks(es, s, branch, e, Option.None) else Option.None;
      if checks.Some? then Refused(checks.value)
      else if !Storable(es, |es|, e) then Refused(Constraint)
      else Saved(es + [e])
  }

  /** The fields a caller sends; those left out keep their value. */
  datatype Edit = Edit(
    subject: Option<Id>, slot: Option<Id>, day: Option<nat>,
    faculty: Option<Option<Id>>, room: Option<Option<Id>>, active: Option<bool>)

  const NO_EDIT := Edit(Option.None, Option.None, Option.None, Option.None, Option.None, Option.None)

  function Sent<T>(o: Option<T>, kept: T): T {
    if o.Some? then o.value else kept
  }

  function Edited(e: Entry, f: Edit): Entry {
    if f == NO_EDIT then e
    else e.(subject := Sent(f.subject, e.subject), slot := Sent(f.slot, e.slot), day := Sent(f.day, e.day),
            faculty := Sent(f.faculty, e.faculty), room := Sent(f.room, e.room),
            active := Sent(f.active, e.active), version := e.version + 1)
  }

  function Update(es: seq<Entry>, s: School, branch: Id, i: Id, f: Edit, expected: Option<nat>): Reply
    requires i < |es| && es[i].sheet < |s.sheets|
  {
    var e := Edited(es[i], f);
    if s.sheets[es[i].sheet].frozen then Refused(Frozen)
    else if expected.Some? && expected.value != es[i].version then Refused(Outdated)
    else if f.faculty.Some? && !KnownStaff(s, f.faculty.value) then Refused(BadStaff)
    else if f.room.Some? && !KnownRoom(s, branch, f.room.value) then Refused(BadRoom)
    else
      var checks := if e.active then ActiveChecks(es, s, branch, e, Some(i)) else Option.None;
      if checks.Some? then Refused(checks.value)
      else if f != NO_EDIT && !Storable(es, i, e) then Refused(Constraint)
      else Saved(es[i := e])
  }

  function Delete(es: seq<Entry>, s: School, i: Id): Reply
    requires i < |es| && es[i].sheet < |s.sheets|
  {
    if s.sheets[es[i].sheet].frozen then Refused(Frozen)
    else Saved(es[i := es[i].(live := false, version := es[i].version + 1)])
  }

  /** Removing a subject leaves its cells to be reassigned. */
  function MarkTbd(es: seq<Entry>, s: School, subject: Id): (r: seq<Entry>)
    ensures |r| == |es|
  {
    seq(|es|, i requires 0 <= i < |es| =>
      var e := es[i];
      if e.active && e.live && e.subject < |s.taught| && s.taught[e.subject].subject == subject
      then e.(active := false) else e)
  }

  function RetireYear(es: seq<Entry>, s: School, branch: Id, year: Id): (r: seq<Entry>)
    ensures |r| == |es|
  {
    seq(|es|, i requires 0 <= i < |es| =>
      var e := es[i];
      if e.live && e.sheet < |s.sheets| && s.sheets[e.sheet].year == year && s.sheets[e.sheet].branch == branch
      then e.(live := false) else e)
  }

  predicate Staffable(es: seq<Entry>, s: School, branch: Id, subject: Id, i: Id) {
    Counted(es, s, branch, i) && es[i].subject == subject
  }

  function Restaffed(e: Entry, faculty: Option<Id>): Entry {
    if e.faculty == faculty then e else e.(faculty := faculty, version := e.version + 1)
  }

  /** Every cell of a class subject with the given teacher, whether or not the database takes it. */
  function Staffed(es: seq<Entry>, s: School, branch: Id, subject: Id, faculty: Option<Id>): (r: seq<Entry>)
    ensures |r| == |es|
  {
    seq(|es|, i requires 0 <= i < |es| =>
      if Staffable(es, s, branch, subject, i) then Restaffed(es[i], faculty) else es[i])
  }

  // ---------------------------------------------------------------- every run

  datatype Op =
    | CreateEntry(branch: Id, row: Entry)
    | UpdateEntry(branch: Id, id: Id, edit: Edit, expected: Option<nat>)
    | DeleteEntry(id: Id)
    | RemoveSubject(subject: Id)
    | CloseYear(branch: Id, year: Id)
    | AssignTeacher(branch: Id, taught: Id, faculty: Option<Id>)

  function Settled(es: seq<Entry>, r: Reply): seq<Entry> {
    if r.Saved? then r.entries else es
  }

  ghost function Apply(es: seq<Entry>, s: School, op: Op): seq<Entry> {
    match op
    case CreateEntry(branch, row) =>
      if row.sheet >= |s.sheets| then es else Settled(es, Create(es, s, branch, row))
    case UpdateEntry(branch, id, edit, expected) =>
      if id >= |es| || es[id].sheet >= |s.sheets| then es else Settled(es, Update(es, s, branch, id, edit, expected))
    case DeleteEntry(id) =>
      if id >= |es| || es[id].sheet >= |s.sheets| then es else Settled(es, Delete(es, s, id))
    case RemoveSubject(subject) => MarkTbd(es, s, subject)
    case CloseYear(branch, year) => RetireYear(es, s, branch, year)
    case AssignTeacher(branch, taught, faculty) =>
      var r := Staffed(es, s, branch, taught, faculty);
      if Constrained(r) then r else es
  }

  /** The school may change in any way between steps. */
  ghost function Run(es: seq<Entry>, steps: seq<(School, Op)>): seq<Entry> {
    if steps == [] then es
    else
      var (s, op) := steps[|steps| - 1];
      Apply(Run(es, steps[..|steps| - 1]), s, op)
  }

  /** Rows that lose a flag and change nothing else cannot start to clash. */
  lemma FewerFlags(es: seq<Entry>, fs: seq<Entry>)
    requires |fs| == |es| && Constrained(es) && Feasible(es)
    requires forall i :: 0 <= i < |es| ==>
               && fs[i] == es[i].(active := fs[i].active, live := fs[i].live, version := fs[i].version)
               && (fs[i].active ==> es[i].active) && (fs[i].live ==> es[i].live)
    ensures Constrained(fs) && Feasible(fs)
  {
    forall i, j | 0 <= i < j < |fs| ensures !Conflict(fs[i], fs[j]) && !DoubleBooked(fs[i], fs[j]) {
      assert !Conflict(es[i], es[j]) && !DoubleBooked(es[i], es[j]);
    }
  }

  lemma SavedRow(es: seq<Entry>, at: nat, e: Entry)
    requires Constrained(es) && Feasible(es) && at <= |es| && Storable(es, at, e)
    requires e.active ==> !SlotOccupied(es, e.sheet, e.day, e.slot, Some(at))
    ensures var fs := if at == |es| then es + [e] else es[at := e]; Constrained(fs) && Feasible(fs)
  {
    var fs := if at == |es| then es + [e] else es[at := e];
    forall i: nat, j: nat | i < j < |fs| ensures !Conflict(fs[i], fs[j]) && !DoubleBooked(fs[i], fs[j]) {
      if i != at && j != at { assert !Conflict(es[i], es[j]) && !DoubleBooked(es[i], es[j]); }
    }
  }

  lemma StepKeepsFeasible(es: seq<Entry>, s: School, op: Op)
    requires Constrained(es) && Feasible(es)
    ensures Constrained(Apply(es, s, op)) && Feasible(Apply(es, s, op))
  {
    var fs := Apply(es, s, op);
    match op {
      case CreateEntry(branch, row) =>
        if fs != es { SavedRow(es, |es|, row); }
      case UpdateEntry(branch, id, edit, expected) =>
        if fs != es { SavedRow(es, id, Edited(es[id], edit)); }
      case DeleteEntry(id) => FewerFlags(es, fs);
      case RemoveSubject(_) => FewerFlags(es, fs);
      case CloseYear(_, _) => FewerFlags(es, fs);
      case AssignTeacher(_, _, _) =>
        forall i, j | 0 <= i < j < |es| ensures !DoubleBooked(fs[i], fs[j]) {
          assert !Conflict(fs[i], fs[j]) && !DoubleBooked(es[i], es[j]);
        }
    }
  }

  /** However the timetable is edited, nothing is double-booked and the clash report stays empty. */
  lemma {:induction false} NeverDoubleBooked(es: seq<Entry>, steps: seq<(School, Op)>)
    requires Constrained(es) && Feasible(es)
    ensures Constrained(Run(es, steps)) && Feasible(Run(es, steps))
    ensures forall s: School, branch: Id, visits: seq<Id> :: Listing(Run(es, steps), s, branch, visits) ==>
              Report(Run(es, steps), s, branch, visits) == []
  {
    if steps != [] {
      NeverDoubleBooked(es, steps[..|steps| - 1]);
      var (s, op) := steps[|steps| - 1];
      StepKeepsFeasible(Run(es, steps[..|steps| - 1]), s, op);
    }
    var fs := Run(es, steps);
    forall s: School, branch: Id, visits: seq<Id> | Listing(fs, s, branch, visits)
      ensures Report(fs, s, branch, visits) == []
    {
      NothingToReport(fs, s, branch, visits);
    }
  }

  lemma NotDoubleBooked(es: seq<Entry>, i: Id, j: Id)
    requires Feasible(es) && i < |es| && j < |es| && i != j
    ensures !DoubleBooked(es[i], es[j])
  {
    var a, b := if i < j then i else j, if i < j then j else i;
    assert !DoubleBooked(es[a], es[b]);
  }

  lemma NothingToReport(es: seq<Entry>, s: School, branch: Id, visits: seq<Id>)
    requires Feasible(es) && Listing(es, s, branch, visits)
    ensures Report(es, s, branch, visits) == []
  {
    ClashReportExact(es, s, branch, visits);
    forall kind: Kind, i: Id | Counted(es, s, branch, i) ensures !Crowded(es, s, branch, kind, i) {
      forall j <- ClassOf(es, s, branch, kind, i) ensures j == i {
        if j != i { NotDoubleBooked(es, i, j); }
      }
    }
  }

  // ---------------------------------------------------------------- when a write is accepted

  /** The rows may not stand side by side: one cell twice, or one person or room twice at a time. */
  ghost predicate Collides(a: Entry, b: Entry) {
    && a.day == b.day && a.slot == b.slot
    && ((a.sheet == b.sheet && a.subject == b.subject) ||
        (a.active && b.active && a.faculty.Some? && a.faculty == b.faculty) ||
        (a.active && b.active && a.room.Some? && a.room == b.room))
  }

  /** Another live active row of the class is in the cell. */
  ghost predicate CellTaken(es: seq<Entry>, e: Entry, except: Option<Id>) {
    exists j: Id :: j < |es| && Some(j) != except && es[j].live && es[j].active
                    && es[j].sheet == e.sheet && es[j].day == e.day && es[j].slot == e.slot
  }

  lemma SlotIsCell(es: seq<Entry>, e: Entry, except: Option<Id>)
    ensures SlotOccupied(es, e.sheet, e.day, e.slot, except) <==> CellTaken(es, e, except)
  {
  }

  /** Row j, live and active in the branch, is at the time of e and has its person, or its room. */
  ghost predicate Busy(es: seq<Entry>, s: School, branch: Id, e: Entry, except: Option<Id>, kind: Kind, j: Id) {
    && j < |es| && Some(j) != except && es[j].live && es[j].active
    && es[j].sheet < |s.sheets| && s.sheets[es[j].sheet].branch == branch
    && es[j].day == e.day && es[j].slot == e.slot
    && match kind
       case ByFaculty => e.faculty.Some? && es[j].faculty == e.faculty
       case ByRoom => e.room.Some? && es[j].room == e.room
  }

  /** The clashes found are the busy rows, by kind. */
  ghost predicate Finds(es: seq<Entry>, s: School, branch: Id, e: Entry, except: Option<Id>, found: seq<Clash>) {
    && (forall c <- found :: c.ids != {} && forall j: Id :: j in c.ids <==> Busy(es, s, branch, e, except, c.kind, j))
    && (forall kind: Kind, j: Id :: Busy(es, s, branch, e, except, kind, j) ==> exists c <- found :: c.kind == kind)
    && forall a, b :: 0 <= a < b < |found| ==> found[a].kind == ByFaculty && found[b].kind == ByRoom
  }

  lemma HitsExact(es: seq<Entry>, s: School, branch: Id, e: Entry, except: Option<Id>, kind: Kind)
    ensures forall j: Id :: j in Hits(es, s, branch, e.day, e.slot, kind, Resource(e, kind), except) <==>
              Busy(es, s, branch, e, except, kind, j)
  {
  }

  lemma FindsBoth(es: seq<Entry>, s: School, branch: Id, e: Entry, except: Option<Id>, f: set<Id>, r: set<Id>)
    requires forall j: Id :: j in f <==> Busy(es, s, branch, e, except, ByFaculty, j)
    requires forall j: Id :: j in r <==> Busy(es, s, branch, e, except, ByRoom, j)
    ensures Finds(es, s, branch, e, except,
                  (if f != {} then [Clash(ByFaculty, f)] else []) + if r != {} then [Clash(ByRoom, r)] else [])
  {
    var found := (if f != {} then [Clash(ByFaculty, f)] else []) + if r != {} then [Clash(ByRoom, r)] else [];
    assert f != {} ==> found[0] in found && found[0].kind == ByFaculty;
    assert r != {} ==> found[|found| - 1] in found && found[|found| - 1].kind == ByRoom;
    forall kind: Kind, j: Id | Busy(es, s, branch, e, except, kind, j) ensures exists c <- found :: c.kind == kind {
      assert kind == ByFaculty || kind == ByRoom;
    }
  }

  lemma DetectExact(es: seq<Entry>, s: School, branch: Id, e: Entry, except: Option<Id>)
    ensures Finds(es, s, branch, e, except, DetectClashes(es, s, branch, e.day, e.slot, e.faculty, e.room, except))
  {
    HitsExact(es, s, branch, e, except, ByFaculty);
    HitsExact(es, s, branch, e, except, ByRoom);
    FindsBoth(es, s, branch, e, except, Hits(es, s, branch, e.day, e.slot, ByFaculty, e.faculty, except),
              Hits(es, s, branch, e.day, e.slot, ByRoom, e.room, except));
  }

  /** A class of the report is exactly the busy rows around the entry, itself included. */
  lemma ClassExact(es: seq<Entry>, s: School, branch: Id, kind: Kind, i: Id)
    requires i < |es|
    ensures forall j: Id :: j in ClassOf(es, s, branch, kind, i) <==>
              Busy(es, s, branch, es[i], Option.None, kind, j)
  {
  }

  /** What can be wrong with a row to be added, in the order the checks are made. */
  ghost predicate Hurdle(es: seq<Entry>, s: School, branch: Id, e: Entry, rank: nat)
    requires e.sheet < |s.sheets|
  {
    if rank == 0 then s.sheets[e.sheet].frozen
    else if rank == 1 then
      !(e.subject < |s.taught| && s.taught[e.subject].live && s.taught[e.subject].branch == branch
        && s.taught[e.subject].batch == s.sheets[e.sheet].batch)
    else if rank == 2 then !(e.slot in s.slots && s.slots[e.slot] == branch)
    else if rank == 3 then e.faculty.Some? && e.faculty.value !in s.staff
    else if rank == 4 then e.room.Some? && !(e.room.value in s.rooms && s.rooms[e.room.value] == branch)
    else if rank == 5 then e.active && CellTaken(es, e, Option.None)
    else if rank == 6 then e.active && exists kind: Kind, j: Id :: Busy(es, s, branch, e, Option.None, kind, j)
    else rank == 7 && exists j :: 0 <= j < |es| && Collides(es[j], e)
  }

  function RankOf(why: Refusal): nat {
    match why
    case Frozen => 0
    case BadSubject => 1
    case BadSlot => 2
    case BadStaff => 3
    case BadRoom => 4
    case SlotTaken => 5
    case Clashing(_) => 6
    case Constraint => 7
    case Outdated => 8
  }

  lemma CreateChecks(es: seq<Entry>, s: School, branch: Id, e: Entry)
    requires e.sheet < |s.sheets|
    ensures var r := Create(es, s, branch, e);
            && (r.Saved? ==> r.entries == es + [e] && forall k: nat :: !Hurdle(es, s, branch, e, k))
            && (r.Refused? ==> Hurdle(es, s, branch, e, RankOf(r.why)) &&
                               forall k: nat :: k < RankOf(r.why) ==> !Hurdle(es, s, branch, e, k))
  {
    SlotIsCell(es, e, Option.None);
    ClashMeansBusy(es, s, branch, e, Option.None);
    ConflictIs(es, e);
  }

  lemma ConflictIs(es: seq<Entry>, e: Entry)
    ensures forall j :: 0 <= j < |es| ==> (Conflict(es[j], e) <==> Collides(es[j], e))
  {
  }

  lemma ClashMeansBusy(es: seq<Entry>, s: School, branch: Id, e: Entry, except: Option<Id>)
    ensures DetectClashes(es, s, branch, e.day, e.slot, e.faculty, e.room, except) != [] <==>
            exists kind: Kind, j: Id :: Busy(es, s, branch, e, except, kind, j)
  {
    DetectExact(es, s, branch, e, except);
    var found := DetectClashes(es, s, branch, e.day, e.slot, e.faculty, e.room, except);
    if found != [] {
      assert found[0] in found;
      var j: Id :| j in found[0].ids;
    }
  }

  lemma CreateFinds(es: seq<Entry>, s: School, branch: Id, e: Entry)
    requires e.sheet < |s.sheets|
    ensures var r := Create(es, s, branch, e);
            r.Refused? && r.why.Clashing? ==> Finds(es, s, branch, e, Option.None, r.why.found)
  {
    DetectExact(es, s, branch, e, Option.None);
  }

  /** A row is added exactly when the year is open, its subject is taught to the class, its period, person and
      room are known, no other row of the class is in the cell and no stored row, live or deleted, collides: the
      clash check behind these never decides, it only words the refusal.  A refusal names the first hurdle. */
  lemma CreateAccepted(es: seq<Entry>, s: School, branch: Id, e: Entry)
    requires e.sheet < |s.sheets|
    ensures var r := Create(es, s, branch, e);
            && (r.Saved? <==>
                  && !Hurdle(es, s, branch, e, 0) && !Hurdle(es, s, branch, e, 1) && !Hurdle(es, s, branch, e, 2)
                  && !Hurdle(es, s, branch, e, 3) && !Hurdle(es, s, branch, e, 4) && !Hurdle(es, s, branch, e, 5)
                  && !Hurdle(es, s, branch, e, 7))
            && (r.Saved? ==> r.entries == es + [e])
            && (r.Refused? ==> Hurdle(es, s, branch, e, RankOf(r.why)) &&
                               forall k: nat :: k < RankOf(r.why) ==> !Hurdle(es, s, branch, e, k))
            && (r.Refused? && r.why.Clashing? ==> Finds(es, s, branch, e, Option.None, r.why.found))
  {
    CreateChecks(es, s, branch, e);
    CreateFinds(es, s, branch, e);
    if kind: Kind, j: Id :| e.active && Busy(es, s, branch, e, Option.None, kind, j) { assert Collides(es[j], e); }
  }

  /** e is row o with the fields sent and every other field kept; a change of any field is a new version. */
  ghost predicate Rewrites(o: Entry, f: Edit, e: Entry) {
    && e.sheet == o.sheet && e.live == o.live
    && e.subject == (if f.subject.Some? then f.subject.value else o.subject)
    && e.slot == (if f.slot.Some? then f.slot.value else o.slot)
    && e.day == (if f.day.Some? then f.day.value else o.day)
    && e.faculty == (if f.faculty.Some? then f.faculty.value else o.faculty)
    && e.room == (if f.room.Some? then f.room.value else o.room)
    && e.active == (if f.active.Some? then f.active.value else o.active)
    && e.version == o.version + if f.subject.None? && f.slot.None? && f.day.None? && f.faculty.None?
                                   && f.room.None? && f.active.None? then 0 else 1
  }

  lemma EditedRewrites(o: Entry, f: Edit, e: Entry)
    ensures Rewrites(o, f, e) <==> e == Edited(o, f)
  {
  }

  /** The same for an update: on a table within the constraints row i is replaced by the row with the fields
      sent, exactly when the year is open, the version is the one expected, any person or room sent is known,
      the cell is free of others and no other row collides. */
  lemma UpdateAccepted(es: seq<Entry>, s: School, branch: Id, i: Id, f: Edit, expected: Option<nat>, e: Entry)
    requires Constrained(es) && i < |es| && es[i].sheet < |s.sheets| && Rewrites(es[i], f, e)
    ensures var r := Update(es, s, branch, i, f, expected);
            && (r.Saved? <==>
                  && !s.sheets[es[i].sheet].frozen && (expected.Some? ==> expected.value == es[i].version)
                  && (f.faculty.Some? && f.faculty.value.Some? ==> f.faculty.value.value in s.staff)
                  && (f.room.Some? && f.room.value.Some? ==>
                        f.room.value.value in s.rooms && s.rooms[f.room.value.value] == branch)
                  && (e.active ==> !CellTaken(es, e, Some(i)))
                  && (forall j :: 0 <= j < |es| && j != i ==> !Collides(es[j], e)))
            && (r.Saved? ==> r.entries == es[i := e])
  {
    EditedRewrites(es[i], f, e);
    SlotIsCell(es, e, Some(i));
    forall j | 0 <= j < |es| ensures Conflict(es[j], e) <==> Collides(es[j], e) {}
    if f == NO_EDIT { RowIsStorable(es, i); }
    if e.active && DetectClashes(es, s, branch, e.day, e.slot, e.faculty, e.room, Some(i)) != [] {
      ClashConflicts(es, s, branch, e, i);
    }
  }

  /** A delete needs an open year, and takes the row out of service as a new version. */
  lemma DeleteAccepted(es: seq<Entry>, s: School, i: Id)
    requires i < |es| && es[i].sheet < |s.sheets|
    ensures var r := Delete(es, s, i);
            && (r.Saved? <==> !s.sheets[es[i].sheet].frozen)
            && (r.Saved? ==> r.entries == es[i := es[i].(live := false, version := es[i].version + 1)])
  {
  }

  /** What the writes that touch many rows do to each: removing a subject marks its live active cells to be
      decided, closing a year takes out its rows, a new teacher is set in the live active cells of the class
      subject, as a new version where that changes the row.  No other row moves. */
  lemma MassWrites(es: seq<Entry>, s: School, branch: Id, subject: Id, year: Id, who: Option<Id>, i: nat)
    requires i < |es|
    ensures MarkTbd(es, s, subject)[i] ==
            if es[i].active && es[i].live && es[i].subject < |s.taught| && s.taught[es[i].subject].subject == subject
            then es[i].(active := false) else es[i]
    ensures RetireYear(es, s, branch, year)[i] ==
            if es[i].sheet < |s.sheets| && s.sheets[es[i].sheet].year == year && s.sheets[es[i].sheet].branch == branch
            then es[i].(live := false) else es[i]
    ensures Staffed(es, s, branch, subject, who)[i] ==
            if es[i].active && es[i].live && es[i].subject == subject
               && es[i].sheet < |s.sheets| && s.sheets[es[i].sheet].branch == branch && es[i].faculty != who
            then es[i].(faculty := who, version := es[i].version + 1) else es[i]
  {
  }

  lemma RowIsStorable(es: seq<Entry>, i: nat)
    requires Constrained(es) && i < |es|
    ensures Storable(es, i, es[i])
  {
    forall j | 0 <= j < |es| && j != i ensures !Conflict(es[j], es[i]) {
      var a, b := if i < j then i else j, if i < j then j else i;
      assert !Conflict(es[a], es[b]);
    }
  }

  lemma ClashConflicts(es: seq<Entry>, s: School, branch: Id, e: Entry, i: nat)
    requires e.active && DetectClashes(es, s, branch, e.day, e.slot, e.faculty, e.room, Some(i)) != []
    ensures !Storable(es, i, e)
  {
    var j :| 0 <= j < |es| && j != i && Counted(es, s, branch, j) &&
             (Shares(ByFaculty, es[j], e) || Shares(ByRoom, es[j], e));
    assert Conflict(es[j], e);
  }

  /** A deleted entry keeps its cell: the same subject cannot be put back there, and while its status
      was active neither its teacher nor its room can be used at that time. */
  lemma DeletedCellStaysTaken(es: seq<Entry>, s: School, s': School, branch: Id, i: Id, e: Entry)
    requires i < |es| && es[i].sheet < |s.sheets| && e.sheet < |s'.sheets|
    requires Delete(es, s, i).Saved?
    requires Collides(es[i], e)
    ensures Create(Delete(es, s, i).entries, s', branch, e).Refused?
  {
    CreateAccepted(Delete(es, s, i).entries, s', branch, e);
    assert Collides(Delete(es, s, i).entries[i], e);
  }

  // ---------------------------------------------------------------- writes, in place

  class Grid {
    var entries: seq<Entry>

    constructor (rows: seq<Entry>)
      ensures entries == rows
    {
      entries := rows;
    }

    method CreateEntry(s: School, branch: Id, e: Entry) returns (why: Option<Refusal>)
      requires e.sheet < |s.sheets|
      modifies this
      ensures var r := Create(old(entries), s, branch, e);
              entries == Settled(old(entries), r) && why == if r.Saved? then Option.None else Some(r.why)
    {
      if s.sheets[e.sheet].frozen { return Some(Frozen); }
      if !KnownSubject(s, branch, e) { return Some(BadSubject); }
      if !KnownSlot(s, branch, e.slot) { return Some(BadSlot); }
      if !KnownStaff(s, e.faculty) { return Some(BadStaff); }
      if !KnownRoom(s, branch, e.room) { return Some(BadRoom); }
      if e.active {
        why := ActiveChecks(entries, s, branch, e, Option.None);
        if why.Some? { return; }
      }
      if !Storable(entries, |entries|, e) { return Some(Constraint); }
      entries := entries + [e];
      why := Option.None;
    }

    method UpdateEntry(s: School, branch: Id, i: Id, f: Edit, expected: Option<nat>) returns (why: Option<Refusal>)
      requires i < |entries| && entries[i].sheet < |s.sheets|
      modifies this
      ensures var r := Update(old(entries), s, branch, i, f, expected);
              entries == Settled(old(entries), r) && why == if r.Saved? then Option.None else Some(r.why)
    {
      var row := entries[i];
      if s.sheets[row.sheet].frozen { return Some(Frozen); }
      if expected.Some? && expected.value != row.version { return Some(Outdated); }
      if f.faculty.Some? && !KnownStaff(s, f.faculty.value) { return Some(BadStaff); }
      if f.room.Some? && !KnownRoom(s, branch, f.room.value) { return Some(BadRoom); }
      var e := Edited(row, f);
      if e.active {
        why := ActiveChecks(entries, s, branch, e, Some(i));
        if why.Some? { return; }
      }
      if f != NO_EDIT && !Storable(entries, i, e) { return Some(Constraint); }
      entries := entries[i := e];
      why := Option.None;
    }

    method DeleteEntry(s: School, i: Id) returns (why: Option<Refusal>)
      requires i < |entries| && entries[i].sheet < |s.sheets|
      modifies this
      ensures var r := Delete(old(entries), s, i);
              entries == Settled(old(entries), r) && why == if r.Saved? then Option.None else Some(r.why)
    {
      if s.sheets[entries[i].sheet].frozen { return Some(Frozen); }
      entries := entries[i := entries[i].(live := false)];
      entries := entries[i := entries[i].(version := entries[i].version + 1)];
      why := Option.None;
    }

    /** Cell by cell, with no clash check; a constraint violation rolls the request back. */
    method PropagateFaculty(s: School, branch: Id, subject: Id, faculty: Option<Id>) returns (ok: bool)
      requires Constrained(entries)
      modifies this
      ensures ok <==> Constrained(Staffed(old(entries), s, branch, subject, faculty))
      ensures entries == if ok then Staffed(old(entries), s, branch, subject, faculty) else old(entries)
    {
      var listed := entries;
      ghost var target := Staffed(listed, s, branch, subject, faculty);
      for i := 0 to |listed|
        invariant Halfway(entries, target, listed, i) && Constrained(entries)
      {
        if Staffable(listed, s, branch, subject, i) && listed[i].faculty != faculty {
          var e := Restaffed(listed[i], faculty);
          if !Storable(entries, i, e) {
            StuckMeansConflict(entries, listed, s, branch, subject, faculty, i);
            entries := listed;
            return false;
          }
          SavedConstrained(entries, i, e);
          entries := entries[i := e];
        }
      }
      ok := true;
    }
  }

  lemma SavedConstrained(es: seq<Entry>, i: nat, e: Entry)
    requires Constrained(es) && i < |es| && Storable(es, i, e)
    ensures Constrained(es[i := e])
  {
    var fs := es[i := e];
    forall a, b | 0 <= a < b < |fs| ensures !Conflict(fs[a], fs[b]) {
      if a != i && b != i { assert !Conflict(es[a], es[b]); }
    }
  }

  /** The first i rows are done and the others are as listed. */
  ghost predicate Halfway(now: seq<Entry>, target: seq<Entry>, listed: seq<Entry>, i: nat) {
    && |now| == |target| == |listed|
    && (forall k :: 0 <= k < |now| ==> now[k] == if k < i then target[k] else listed[k])
  }

  lemma StuckMeansConflict(now: seq<Entry>, es: seq<Entry>, s: School, branch: Id, subject: Id,
                           faculty: Option<Id>, i: nat)
    requires Constrained(es) && i < |es| && Staffable(es, s, branch, subject, i)
    requires Halfway(now, Staffed(es, s, branch, subject, faculty), es, i)
    requires !Storable(now, i, Restaffed(es[i], faculty))
    ensures !Constrained(Staffed(es, s, branch, subject, faculty))
  {
    var target := Staffed(es, s, branch, subject, faculty);
    var j :| 0 <= j < |now| && j != i && Conflict(now[j], target[i]);
    if j < i {
      assert Conflict(target[j], target[i]);
    } else {
      assert !Conflict(es[i], es[j]);
      assert Conflict(target[i], target[j]);
    }
  }

  predicate SameTime(es: seq<Entry>, i: Id, j: Id)
    requires i < |es| && j < |es|
  {
    i != j && es[i].day == es[j].day && es[i].slot == es[j].slot
  }

  /** Entry j stands in the way of giving entry i, a cell of the class subject, to the teacher. */
  predicate InTheWay(es: seq<Entry>, s: School, branch: Id, subject: Id, who: Id, i: Id, j: Id)
    requires i < |es| && j < |es|
  {
    SameTime(es, i, j) && Staffable(es, s, branch, subject, i) &&
    (Staffable(es, s, branch, subject, j) || (es[j].active && es[j].faculty == Some(who)))
  }

  lemma InTheWayConflicts(es: seq<Entry>, s: School, branch: Id, subject: Id, who: Id, i: Id, j: Id)
    requires i < |es| && j < |es| && InTheWay(es, s, branch, subject, who, i, j)
    ensures !Constrained(Staffed(es, s, branch, subject, Some(who)))
  {
    var fs := Staffed(es, s, branch, subject, Some(who));
    var a, b := if i < j then i else j, if i < j then j else i;
    assert Conflict(fs[a], fs[b]);
  }

  /** A class subject can be given a teacher exactly when no two of its cells fall at one time and the
      teacher has no other active cell, live or deleted, at any of those times. */
  lemma StaffingAccepted(es: seq<Entry>, s: School, branch: Id, subject: Id, who: Id)
    requires Constrained(es)
    ensures Constrained(Staffed(es, s, branch, subject, Some(who))) <==>
            forall i: Id, j: Id :: i < |es| && j < |es| ==> !InTheWay(es, s, branch, subject, who, i, j)
  {
    var fs := Staffed(es, s, branch, subject, Some(who));
    forall i: Id, j: Id | i < |es| && j < |es| && InTheWay(es, s, branch, subject, who, i, j)
      ensures !Constrained(fs)
    {
      InTheWayConflicts(es, s, branch, subject, who, i, j);
    }
    if !Constrained(fs) {
      var a, b :| 0 <= a < b < |fs| && Conflict(fs[a], fs[b]);
      ConflictInTheWay(es, s, branch, subject, who, a, b);
    }
  }

  lemma ConflictInTheWay(es: seq<Entry>, s: School, branch: Id, subject: Id, who: Id, a: Id, b: Id)
    requires Constrained(es) && a < b < |es|
    requires var fs := Staffed(es, s, branch, subject, Some(who)); Conflict(fs[a], fs[b])
    ensures InTheWay(es, s, branch, subject, who, a, b) || InTheWay(es, s, branch, subject, who, b, a)
  {
    assert !Conflict(es[a], es[b]);
  }
}
