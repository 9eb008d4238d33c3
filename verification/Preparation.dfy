/** Preparation of an approved plan: class mappings, target-year sections, destinations. */
module Preparation {
  import opened Records
  import opened Courses
  import opened Tables
  import opened Staleness

  datatype Need = Need(course: Id, section: Name)

  // ---------------------------------------------------------------- class mappings

  function LookUp(ms: seq<Mapping>, source: Id): (r: Option<Id>)
    ensures r.Some? ==> Mapping(source, r.value) in ms
  {
    if ms == [] then Option.None
    else if ms[0].source == source then Some(ms[0].target)
    else LookUp(ms[1..], source)
  }

  ghost predicate UniqueMappings(ms: seq<Mapping>) {
    forall i, j :: 0 <= i < j < |ms| ==> ms[i].source != ms[j].source
  }

  /** Updates the row of a source course or appends one. */
  function Upsert(ms: seq<Mapping>, m: Mapping): (r: seq<Mapping>)
    ensures forall s :: LookUp(r, s) == if s == m.source then Some(m.target) else LookUp(ms, s)
  {
    if ms == [] then [m]
    else if ms[0].source == m.source then [m] + ms[1..]
    else [ms[0]] + Upsert(ms[1..], m)
  }

  function UpsertAll(ms: seq<Mapping>, rows: seq<Mapping>): seq<Mapping> {
    if rows == [] then ms
    else Upsert(UpsertAll(ms, rows[..|rows| - 1]), rows[|rows| - 1])
  }

  /** The source courses of promoted students, in order of first appearance. */
  function PromotedCourses(ds: seq<Decision>): seq<Id> {
    if ds == [] then []
    else
      var rest, d := PromotedCourses(ds[..|ds| - 1]), ds[|ds| - 1];
      if d.final == Promote && d.course.Some? && d.course.value !in rest then rest + [d.course.value] else rest
  }

  function SeedRows(cs: seq<Course>, courses: seq<Id>): seq<Mapping> {
    if courses == [] then []
    else
      var rest, c := SeedRows(cs, courses[..|courses| - 1]), courses[|courses| - 1];
      if c >= |cs| then rest
      else
        var next := NextCourse(cs, cs[c].department, c);
        if next.None? then rest else rest + [Mapping(c, next.value)]
  }

  function Seeded(cs: seq<Course>, ms: seq<Mapping>, ds: seq<Decision>): seq<Mapping> {
    UpsertAll(ms, SeedRows(cs, PromotedCourses(ds)))
  }

  // ---------------------------------------------------------------- target-year sections

  predicate Listed(w: World, b: Id, course: Id, year: Id) {
    IsLocalBatch(w, b) && w.batches[b].course == course && w.batches[b].year == year
  }

  predicate SectionListed(w: World, course: Id, year: Id, section: Name) {
    exists b :: 0 <= b < |w.batches| && Listed(w, b, course, year) && w.batches[b].name == section
  }

  /** Where a decision needs a section of its own name, if anywhere. */
  function NeedOf(ms: seq<Mapping>, d: Decision): Option<Need> {
    if !Moves(d.final) || d.course.None? || d.section == BLANK then Option.None
    else if d.final == Retain then Some(Need(d.course.value, d.section))
    else
      var target := LookUp(ms, d.course.value);
      if target.None? then Option.None else Some(Need(target.value, d.section))
  }

  function Needs(ms: seq<Mapping>, ds: seq<Decision>): seq<Need> {
    if ds == [] then []
    else
      var rest, n := Needs(ms, ds[..|ds| - 1]), NeedOf(ms, ds[|ds| - 1]);
      if n.Some? && n.value !in rest then rest + [n.value] else rest
  }

  /** Creates one missing section; a deleted or foreign twin makes the insert fail. */
  function ProvideOne(w: World, year: Id, n: Need): Result<World> {
    if SectionListed(w, n.course, year, n.section) || n.course >= |w.courses| then Ok(w)
    else AddBatch(w, n.course, year, n.section)
  }

  function Provide(w: World, year: Id, ns: seq<Need>): Result<World> {
    if ns == [] then Ok(w)
    else
      match Provide(w, year, ns[..|ns| - 1])
      case Err(e) => Err(e)
      case Ok(v) => ProvideOne(v, year, ns[|ns| - 1])
  }

  // ---------------------------------------------------------------- destinations

  /** A listed section with the given name. */
  function FindExact(w: World, n: nat, course: Id, year: Id, section: Name): (r: Option<Id>)
    requires n <= |w.batches|
    ensures r.Some? ==> r.value < n && Listed(w, r.value, course, year) && w.batches[r.value].name == section
    ensures r.None? ==> forall b :: 0 <= b < n && Listed(w, b, course, year) ==> w.batches[b].name != section
  {
    if n == 0 then Option.None
    else if Listed(w, n - 1, course, year) && w.batches[n - 1].name == section then Some(n - 1)
    else FindExact(w, n - 1, course, year, section)
  }

  /** The listed section that comes first by name. */
  function FindFirst(w: World, n: nat, course: Id, year: Id): (r: Option<Id>)
    requires n <= |w.batches|
    ensures r.Some? ==> r.value < n && Listed(w, r.value, course, year)
    ensures r.Some? ==> forall b :: 0 <= b < n && Listed(w, b, course, year) ==>
              w.batches[r.value].name <= w.batches[b].name
    ensures r.None? ==> forall b :: 0 <= b < n ==> !Listed(w, b, course, year)
  {
    if n == 0 then Option.None
    else
      var r := FindFirst(w, n - 1, course, year);
      if !Listed(w, n - 1, course, year) then r
      else if r.Some? && w.batches[r.value].name <= w.batches[n - 1].name then r
      else Some(n - 1)
  }

  function FindTarget(w: World, course: Id, year: Id, section: Name): (r: Option<Id>)
    ensures r.Some? ==> r.value < |w.batches| && Listed(w, r.value, course, year)
  {
    var exact := FindExact(w, |w.batches|, course, year, section);
    if exact.Some? then exact else FindFirst(w, |w.batches|, course, year)
  }

  /** The decision row after destinations are applied. */
  function Destined(w: World, year: Id, ms: seq<Mapping>, d: Decision): Decision {
    match d.final
    case Promote =>
      var target := if d.course.Some? then LookUp(ms, d.course.value) else Option.None;
      if target.None? then d
      else
        var b := FindTarget(w, target.value, year, d.section);
        d.(targetCourse := target, targetBatch := b,
           targetSection := if b.Some? then w.batches[b.value].name else BLANK)
    case Retain =>
      if d.course.None? then d
      else
        var b := FindTarget(w, d.course.value, year, d.section);
        if b.None? then d.(targetCourse := d.course)
        else d.(targetCourse := d.course, targetBatch := b, targetSection := w.batches[b.value].name)
    case Graduate => d.(targetCourse := Option.None, targetBatch := Option.None, targetSection := BLANK)
    case TransferOut => d.(targetCourse := Option.None, targetBatch := Option.None, targetSection := BLANK)
    case Withdraw => d.(targetCourse := Option.None, targetBatch := Option.None, targetSection := BLANK)
    case ManualReview => d
    case Pending => d
  }

  function DestineAll(w: World, year: Id, ms: seq<Mapping>, ds: seq<Decision>): (r: seq<Decision>)
    ensures |r| == |ds|
    ensures forall i :: 0 <= i < |ds| ==> r[i] == Destined(w, year, ms, ds[i])
  {
    seq(|ds|, i requires 0 <= i < |ds| => Destined(w, year, ms, ds[i]))
  }

  datatype Prepared = Prepared(world: World, mappings: seq<Mapping>, decisions: seq<Decision>)

  /** Provisioning and destinations for given mappings. */
  function Place(w: World, year: Id, ms: seq<Mapping>, ds: seq<Decision>): Result<Prepared> {
    match Provide(w, year, Needs(ms, ds))
    case Err(e) => Err(e)
    case Ok(v) => Ok(Prepared(v, ms, DestineAll(v, year, ms, ds)))
  }

  /** The work of starting preparation. */
  function Prepare(w: World, year: Id, ms: seq<Mapping>, ds: seq<Decision>): Result<Prepared> {
    Place(w, year, Seeded(w.courses, ms, ds), ds)
  }

  // ---------------------------------------------------------------- in place

  method ListPromotedCourses(ds: seq<Decision>) returns (courses: seq<Id>)
    ensures courses == PromotedCourses(ds)
  {
    courses := [];
    for i := 0 to |ds|
      invariant courses == PromotedCourses(ds[..i])
    {
      var d := ds[i];
      if d.final == Promote && d.course.Some? && d.course.value !in courses {
        courses := courses + [d.course.value];
      }
      assert ds[..i + 1][..i] == ds[..i];
    }
    assert ds[..|ds|] == ds;
  }

  method UpsertRows(ms: seq<Mapping>, rows: seq<Mapping>) returns (r: seq<Mapping>)
    ensures r == UpsertAll(ms, rows)
  {
    r := ms;
    for i := 0 to |rows|
      invariant r == UpsertAll(ms, rows[..i])
    {
      r := Upsert(r, rows[i]);
      assert rows[..i + 1][..i] == rows[..i];
    }
    assert rows[..|rows|] == rows;
  }

  method SeedClassMappings(cs: seq<Course>, ms: seq<Mapping>, ds: seq<Decision>) returns (r: seq<Mapping>)
    ensures r == Seeded(cs, ms, ds)
  {
    var courses := ListPromotedCourses(ds);
    var rows := [];
    for i := 0 to |courses|
      invariant rows == SeedRows(cs, courses[..i])
    {
      var c := courses[i];
      assert courses[..i + 1][..i] == courses[..i];
      if c < |cs| {
        var next := NextCourse(cs, cs[c].department, c);
        if next.Some? { rows := rows + [Mapping(c, next.value)]; }
      }
    }
    assert courses[..|courses|] == courses;
    r := UpsertRows(ms, rows);
  }

  /** v is w with the needs before number n provided, and n is the first that cannot be. */
  predicate StopsAt(w: World, year: Id, ns: seq<Need>, v: World, n: nat) {
    n < |ns| && Provide(w, year, ns[..n]) == Ok(v) && ProvideOne(v, year, ns[n]).Err?
  }

  /** What a failed provisioning leaves until its transaction is undone. */
  ghost predicate StoppedAt(w: World, year: Id, ns: seq<Need>, v: World) {
    exists n: nat :: StopsAt(w, year, ns, v, n)
  }

  method ProvisionTargetBatches(db: Database, year: Id, ms: seq<Mapping>, ds: seq<Decision>) returns (ok: bool)
    modifies db
    ensures ok <==> Provide(old(db.Rows()), year, Needs(ms, ds)).Ok?
    ensures ok ==> db.Rows() == Provide(old(db.Rows()), year, Needs(ms, ds)).value
    ensures !ok ==> StoppedAt(old(db.Rows()), year, Needs(ms, ds), db.Rows())
  {
    var needed: seq<Need> := [];
    for i := 0 to |ds|
      invariant needed == Needs(ms, ds[..i])
      invariant db.Rows() == old(db.Rows())
    {
      var n := NeedOf(ms, ds[i]);
      if n.Some? && n.value !in needed { needed := needed + [n.value]; }
      assert ds[..i + 1][..i] == ds[..i];
    }
    assert ds[..|ds|] == ds;
    for i := 0 to |needed|
      invariant Provide(old(db.Rows()), year, needed[..i]) == Ok(db.Rows())
    {
      var n := needed[i];
      assert needed[..i + 1][..i] == needed[..i];
      if !SectionListed(db.Rows(), n.course, year, n.section) && n.course < |db.courses| {
        var created := db.CreateBatch(n.course, year, n.section);
        if created.None? {
          ProvideFails(old(db.Rows()), year, needed, i + 1);
          assert StopsAt(old(db.Rows()), year, needed, db.Rows(), i);
          return false;
        }
      }
    }
    assert needed[..|needed|] == needed;
    ok := true;
  }

  lemma {:induction false} ProvideFails(w: World, year: Id, ns: seq<Need>, n: nat)
    requires n <= |ns| && Provide(w, year, ns[..n]).Err?
    ensures Provide(w, year, ns).Err?
  {
    if n < |ns| {
      assert ns[..|ns| - 1][..n] == ns[..n];
      ProvideFails(w, year, ns[..|ns| - 1], n);
    } else {
      assert ns[..n] == ns;
    }
  }

  method ApplyDestinations(w: World, year: Id, ms: seq<Mapping>, ds: seq<Decision>) returns (r: seq<Decision>)
    ensures r == DestineAll(w, year, ms, ds)
  {
    r := ds;
    for i := 0 to |ds|
      invariant |r| == |ds|
      invariant forall k :: 0 <= k < i ==> r[k] == Destined(w, year, ms, ds[k])
      invariant forall k :: i <= k < |ds| ==> r[k] == ds[k]
    {
      r := r[i := Destined(w, year, ms, r[i])];
    }
  }

  // ---------------------------------------------------------------- sections

  ghost predicate DistinctNeeds(ns: seq<Need>) {
    forall i, j :: 0 <= i < j < |ns| ==> ns[i] != ns[j]
  }

  lemma {:induction false} NeedsDistinct(ms: seq<Mapping>, ds: seq<Decision>)
    ensures DistinctNeeds(Needs(ms, ds))
    ensures forall n :: n in Needs(ms, ds) <==> exists d :: d in ds && NeedOf(ms, d) == Some(n)
  {
    if ds != [] {
      var front, d := ds[..|ds| - 1], ds[|ds| - 1];
      NeedsDistinct(ms, front);
      assert ds == front + [d];
      forall n ensures n in Needs(ms, ds) <==> exists x :: x in ds && NeedOf(ms, x) == Some(n) {
        if x :| x in ds && NeedOf(ms, x) == Some(n) { assert x in front || x == d; }
        if n in Needs(ms, front) { var x :| x in front && NeedOf(ms, x) == Some(n); assert x in ds; }
        if NeedOf(ms, d) == Some(n) { assert d in ds; }
      }
    }
  }

  /** A need that cannot be met: the course exists, no listed section has the name, and some deleted or
      foreign section of that course and year has it. */
  predicate Unmeetable(w: World, year: Id, n: Need) {
    && n.course < |w.courses| && !SectionListed(w, n.course, year, n.section)
    && TwinExists(w.batches, n.course, year, n.section)
  }

  /** Sections are only added, each for one of the needs. */
  ghost predicate Provisioned(w: World, v: World, year: Id, ns: seq<Need>) {
    && v == w.(batches := v.batches)
    && |w.batches| <= |v.batches| && v.batches[..|w.batches|] == w.batches
    && forall b :: |w.batches| <= b < |v.batches| ==>
         v.batches[b].live && v.batches[b].year == year && Need(v.batches[b].course, v.batches[b].name) in ns
  }

  lemma ProvisionedMore(w: World, u: World, year: Id, ns: seq<Need>, n: Need)
    requires Provisioned(w, u, year, ns) && ProvideOne(u, year, n).Ok?
    ensures Provisioned(w, ProvideOne(u, year, n).value, year, ns + [n])
  {
  }

  lemma {:induction false} ProvideAdds(w: World, year: Id, ns: seq<Need>)
    requires Provide(w, year, ns).Ok?
    ensures Provisioned(w, Provide(w, year, ns).value, year, ns)
  {
    if ns != [] {
      var front := ns[..|ns| - 1];
      ProvideAdds(w, year, front);
      ProvisionedMore(w, Provide(w, year, front).value, year, front, ns[|ns| - 1]);
      assert ns == front + [ns[|ns| - 1]];
    }
  }

  lemma UnmeetableKept(w: World, v: World, year: Id, ns: seq<Need>, n: Need)
    requires Provisioned(w, v, year, ns) && n !in ns
    ensures Unmeetable(v, year, n) <==> Unmeetable(w, year, n)
    ensures SectionListed(v, n.course, year, n.section) <==> SectionListed(w, n.course, year, n.section)
  {
    forall b | 0 <= b < |w.batches| ensures v.batches[b] == w.batches[b] {
      assert v.batches[b] == v.batches[..|w.batches|][b];
    }
    if b :| 0 <= b < |w.batches| && Listed(w, b, n.course, year) && w.batches[b].name == n.section {
      assert Listed(v, b, n.course, year) && v.batches[b].name == n.section;
    }
    if b :| 0 <= b < |w.batches| && w.batches[b].course == n.course && w.batches[b].year == year
            && w.batches[b].name == n.section {
      assert v.batches[b].course == n.course && v.batches[b].year == year && v.batches[b].name == n.section;
    }
  }

  /** Provisioning fails exactly when some need cannot be met. */
  lemma {:induction false} ProvideFailsExactly(w: World, year: Id, ns: seq<Need>)
    requires DistinctNeeds(ns)
    ensures Provide(w, year, ns).Err? <==> exists n :: n in ns && Unmeetable(w, year, n)
  {
    if ns != [] {
      var front, n := ns[..|ns| - 1], ns[|ns| - 1];
      ProvideFailsExactly(w, year, front);
      assert ns == front + [n];
      if Provide(w, year, front).Ok? {
        var v := Provide(w, year, front).value;
        ProvideAdds(w, year, front);
        UnmeetableKept(w, v, year, front, n);
        assert Provide(w, year, ns) == ProvideOne(v, year, n);
        assert Provide(w, year, ns).Err? <==> Unmeetable(v, year, n);
        if Unmeetable(w, year, n) { assert n in ns; }
      } else {
        var x :| x in front && Unmeetable(w, year, x);
        assert x in ns;
      }
    }
  }

  /** The courses of all needs, where they exist at all, belong to this branch. */
  predicate LocalNeeds(w: World, ns: seq<Need>) {
    forall n :: n in ns && n.course < |w.courses| ==> w.courses[n.course].local
  }

  lemma {:induction false} ProvideTwin(w: World, year: Id, ns: seq<Need>, n: Need)
    requires Provide(w, year, ns).Ok? && n in ns && n.course < |w.courses|
    ensures var v := Provide(w, year, ns).value;
            TwinExists(v.batches, n.course, year, n.section) &&
            (w.courses[n.course].local ==> SectionListed(v, n.course, year, n.section))
  {
    var front, last := ns[..|ns| - 1], ns[|ns| - 1];
    assert ns == front + [last];
    var u, v := Provide(w, year, front).value, Provide(w, year, ns).value;
    ProvideAdds(w, year, front);
    if n == last {
      if SectionListed(u, n.course, year, n.section) {
        var b :| 0 <= b < |u.batches| && Listed(u, b, n.course, year) && u.batches[b].name == n.section;
        assert v.batches[b].course == n.course;
      } else {
        assert v.batches[|u.batches|].course == n.course;
        assert w.courses[n.course].local ==> Listed(v, |u.batches|, n.course, year);
      }
    } else {
      ProvideTwin(w, year, front, n);
      var b :| 0 <= b < |u.batches| && u.batches[b].course == n.course && u.batches[b].year == year
               && u.batches[b].name == n.section;
      assert v.batches[b] == u.batches[b];
      if w.courses[n.course].local {
        var c :| 0 <= c < |u.batches| && Listed(u, c, n.course, year) && u.batches[c].name == n.section;
        assert Listed(v, c, n.course, year) && v.batches[c] == u.batches[c];
      }
    }
  }

  lemma {:induction false} ProvideNothing(w: World, year: Id, ns: seq<Need>)
    requires forall n :: n in ns && n.course < |w.courses| ==> SectionListed(w, n.course, year, n.section)
    ensures Provide(w, year, ns) == Ok(w)
  {
    if ns != [] {
      assert ns == ns[..|ns| - 1] + [ns[|ns| - 1]];
      ProvideNothing(w, year, ns[..|ns| - 1]);
    }
  }

  lemma {:induction false} ProvideKeepsUnique(w: World, year: Id, ns: seq<Need>)
    requires UniqueBatches(w.batches) && Provide(w, year, ns).Ok?
    ensures UniqueBatches(Provide(w, year, ns).value.batches)
  {
    if ns != [] { ProvideKeepsUnique(w, year, ns[..|ns| - 1]); }
  }

  // ---------------------------------------------------------------- destinations

  ghost predicate SameNeed(ms: seq<Mapping>, d: Decision, e: Decision) {
    NeedOf(ms, d) == NeedOf(ms, e) && d.final == e.final && d.course == e.course
  }

  lemma NeedOfDestined(w: World, year: Id, ms: seq<Mapping>, d: Decision)
    ensures SameNeed(ms, d, Destined(w, year, ms, d))
  {
  }

  lemma SameLastNeed(ms: seq<Mapping>, ds: seq<Decision>, es: seq<Decision>)
    requires |es| == |ds| > 0 && SameNeed(ms, ds[|ds| - 1], es[|es| - 1])
    requires Needs(ms, es[..|es| - 1]) == Needs(ms, ds[..|ds| - 1])
    requires PromotedCourses(es[..|es| - 1]) == PromotedCourses(ds[..|ds| - 1])
    ensures Needs(ms, es) == Needs(ms, ds) && PromotedCourses(es) == PromotedCourses(ds)
  {
  }

  lemma {:induction false} NeedsOfDestined(w: World, year: Id, ms: seq<Mapping>, ds: seq<Decision>)
    ensures Needs(ms, DestineAll(w, year, ms, ds)) == Needs(ms, ds)
    ensures PromotedCourses(DestineAll(w, year, ms, ds)) == PromotedCourses(ds)
  {
    if ds != [] {
      var front := ds[..|ds| - 1];
      NeedsOfDestined(w, year, ms, front);
      var once := DestineAll(w, year, ms, ds);
      assert once[..|once| - 1] == DestineAll(w, year, ms, front);
      NeedOfDestined(w, year, ms, ds[|ds| - 1]);
      SameLastNeed(ms, ds, once);
    }
  }

  lemma DestinedTwice(w: World, year: Id, ms: seq<Mapping>, ds: seq<Decision>)
    ensures var once := DestineAll(w, year, ms, ds); DestineAll(w, year, ms, once) == once
  {
    var once := DestineAll(w, year, ms, ds);
    forall i | 0 <= i < |ds| ensures DestineAll(w, year, ms, once)[i] == once[i] {
      DestinedOnce(w, year, ms, ds[i]);
    }
  }

  lemma DestinedOnce(w: World, year: Id, ms: seq<Mapping>, d: Decision)
    ensures Destined(w, year, ms, Destined(w, year, ms, d)) == Destined(w, year, ms, d)
  {
  }

  // ---------------------------------------------------------------- starting twice

  lemma {:induction false} UpsertSettled(ms: seq<Mapping>, m: Mapping)
    requires LookUp(ms, m.source) == Some(m.target)
    ensures Upsert(ms, m) == ms
  {
    if ms[0].source != m.source { UpsertSettled(ms[1..], m); }
  }

  lemma {:induction false} UpsertAllSettled(ms: seq<Mapping>, rows: seq<Mapping>)
    requires forall m :: m in rows ==> LookUp(ms, m.source) == Some(m.target)
    ensures UpsertAll(ms, rows) == ms
  {
    if rows != [] {
      assert rows == rows[..|rows| - 1] + [rows[|rows| - 1]];
      UpsertAllSettled(ms, rows[..|rows| - 1]);
      UpsertSettled(ms, rows[|rows| - 1]);
    }
  }

  lemma {:induction false} UpsertAllFinds(ms: seq<Mapping>, rows: seq<Mapping>, m: Mapping)
    requires UniqueMappings(rows) && m in rows
    ensures LookUp(UpsertAll(ms, rows), m.source) == Some(m.target)
  {
    var front, last := rows[..|rows| - 1], rows[|rows| - 1];
    assert rows == front + [last];
    if m != last {
      UpsertAllFinds(ms, front, m);
      assert last.source != m.source;
    }
  }

  ghost predicate DistinctIds(ids: seq<Id>) {
    forall i, j :: 0 <= i < j < |ids| ==> ids[i] != ids[j]
  }

  lemma {:induction false} PromotedDistinct(ds: seq<Decision>)
    ensures DistinctIds(PromotedCourses(ds))
  {
    if ds != [] {
      PromotedDistinct(ds[..|ds| - 1]);
      var rest := PromotedCourses(ds[..|ds| - 1]);
      assert DistinctIds(rest);
    }
  }

  lemma {:induction false} SeedRowsUnique(cs: seq<Course>, courses: seq<Id>)
    requires DistinctIds(courses)
    ensures UniqueMappings(SeedRows(cs, courses))
    ensures forall m :: m in SeedRows(cs, courses) ==> m.source in courses
  {
    if courses != [] {
      SeedRowsUnique(cs, courses[..|courses| - 1]);
      assert courses == courses[..|courses| - 1] + [courses[|courses| - 1]];
    }
  }

  lemma SeededTwice(cs: seq<Course>, ms: seq<Mapping>, ds: seq<Decision>, ds': seq<Decision>)
    requires PromotedCourses(ds') == PromotedCourses(ds)
    ensures Seeded(cs, Seeded(cs, ms, ds), ds') == Seeded(cs, ms, ds)
  {
    var rows := SeedRows(cs, PromotedCourses(ds));
    PromotedDistinct(ds);
    SeedRowsUnique(cs, PromotedCourses(ds));
    forall m | m in rows ensures LookUp(UpsertAll(ms, rows), m.source) == Some(m.target) {
      UpsertAllFinds(ms, rows, m);
    }
    UpsertAllSettled(UpsertAll(ms, rows), rows);
  }

  /** Placing a second time changes nothing, exactly when every needed course that exists belongs to this
      branch; otherwise it fails on a section that the first pass created. */
  lemma PlaceTwice(w: World, year: Id, ms: seq<Mapping>, ds: seq<Decision>)
    requires Place(w, year, ms, ds).Ok?
    ensures var p := Place(w, year, ms, ds).value;
            var again := Place(p.world, year, ms, p.decisions);
            && (again == Ok(p) <==> LocalNeeds(w, Needs(ms, ds)))
            && (again.Err? <==> !LocalNeeds(w, Needs(ms, ds)))
  {
    var ns := Needs(ms, ds);
    var v := Provide(w, year, ns).value;
    ProvideAdds(w, year, ns);
    NeedsOfDestined(v, year, ms, ds);
    if LocalNeeds(w, ns) {
      forall n | n in ns && n.course < |v.courses| ensures SectionListed(v, n.course, year, n.section) {
        ProvideTwin(w, year, ns, n);
      }
      ProvideNothing(v, year, ns);
      DestinedTwice(v, year, ms, ds);
    } else {
      var n :| n in ns && n.course < |w.courses| && !w.courses[n.course].local;
      ProvideTwin(w, year, ns, n);
      assert Unmeetable(v, year, n);
      NeedsDistinct(ms, ds);
      ProvideFailsExactly(v, year, ns);
    }
  }

  /** Starting preparation twice equals starting it once, exactly when every needed course that exists
      belongs to this branch; otherwise the second start fails on the section the first one created. */
  lemma PrepareTwice(w: World, year: Id, ms: seq<Mapping>, ds: seq<Decision>)
    requires Prepare(w, year, ms, ds).Ok?
    ensures var p := Prepare(w, year, ms, ds).value;
            var again := Prepare(p.world, year, p.mappings, p.decisions);
            && (again == Ok(p) <==> LocalNeeds(w, Needs(p.mappings, ds)))
            && (again.Err? <==> !LocalNeeds(w, Needs(p.mappings, ds)))
  {
    var ms' := Seeded(w.courses, ms, ds);
    var p := Prepare(w, year, ms, ds).value;
    ProvideAdds(w, year, Needs(ms', ds));
    NeedsOfDestined(p.world, year, ms', ds);
    SeededTwice(w.courses, ms, ds, p.decisions);
    PlaceTwice(w, year, ms', ds);
  }

  // ---------------------------------------------------------------- what seeding maps

  lemma {:induction false} UpsertAllOthers(ms: seq<Mapping>, rows: seq<Mapping>, source: Id)
    requires forall m :: m in rows ==> m.source != source
    ensures LookUp(UpsertAll(ms, rows), source) == LookUp(ms, source)
  {
    if rows != [] {
      assert rows == rows[..|rows| - 1] + [rows[|rows| - 1]];
      UpsertAllOthers(ms, rows[..|rows| - 1], source);
    }
  }

  /** In stored mappings the last row of a class wins. */
  lemma {:induction false} StoredMaps(ms: seq<Mapping>, rows: seq<Mapping>, k: nat)
    requires k < |rows| && forall l :: k < l < |rows| ==> rows[l].source != rows[k].source
    ensures LookUp(UpsertAll(ms, rows), rows[k].source) == Some(rows[k].target)
  {
    var n := |rows| - 1;
    if k < n {
      assert rows[..n][k] == rows[k];
      StoredMaps(ms, rows[..n], k);
    }
  }

  lemma {:induction false} PromotedCourse(ds: seq<Decision>, c: Id)
    ensures c in PromotedCourses(ds) <==> exists d <- ds :: d.final == Promote && d.course == Some(c)
  {
    if ds != [] {
      var front, last := ds[..|ds| - 1], ds[|ds| - 1];
      PromotedCourse(front, c);
      assert ds == front + [last];
    }
  }

  lemma {:induction false} SeedRow(cs: seq<Course>, courses: seq<Id>, m: Mapping)
    ensures m in SeedRows(cs, courses) <==>
            m.source in courses && m.source < |cs|
            && NextCourse(cs, cs[m.source].department, m.source) == Some(m.target)
  {
    if courses != [] {
      var front, last := courses[..|courses| - 1], courses[|courses| - 1];
      SeedRow(cs, front, m);
      assert courses == front + [last];
    }
  }

  /** Seeding maps every class that some student is promoted out of to its next class, where there is
      one, and leaves the mapping of every other class as it was. */
  lemma SeededMaps(cs: seq<Course>, ms: seq<Mapping>, ds: seq<Decision>, c: Id)
    ensures var promoted := exists d <- ds :: d.final == Promote && d.course == Some(c);
            var next := if c < |cs| then NextCourse(cs, cs[c].department, c) else Option.None;
            LookUp(Seeded(cs, ms, ds), c) == if promoted && next.Some? then next else LookUp(ms, c)
  {
    var courses := PromotedCourses(ds);
    var rows := SeedRows(cs, courses);
    PromotedCourse(ds, c);
    var next := if c < |cs| then NextCourse(cs, cs[c].department, c) else Option.None;
    if c in courses && next.Some? {
      SeedRow(cs, courses, Mapping(c, next.value));
      PromotedDistinct(ds);
      SeedRowsUnique(cs, courses);
      UpsertAllFinds(ms, rows, Mapping(c, next.value));
    } else {
      forall m | m in rows ensures m.source != c { SeedRow(cs, courses, m); }
      UpsertAllOthers(ms, rows, c);
    }
  }

  // ---------------------------------------------------------------- a decision's own columns

  /** Section b is live, of a course of this branch, of that year, and has that name. */
  ghost predicate SectionIs(w: World, b: Id, course: Id, year: Id, name: Name) {
    && b < |w.batches| && w.batches[b].live && w.batches[b].course == course && w.batches[b].year == year
    && w.batches[b].name == name && course < |w.courses| && w.courses[course].local
  }

  /** The decision asks for a section of its own name in this course. */
  ghost predicate AsksFor(ms: seq<Mapping>, d: Decision, course: Id, name: Name) {
    && name != BLANK && d.section == name && d.course.Some?
    && ((d.final == Retain && d.course.value == course) ||
        (d.final == Promote && LookUp(ms, d.course.value) == Some(course)))
  }

  lemma NeedAsks(ms: seq<Mapping>, d: Decision, n: Need)
    ensures NeedOf(ms, d) == Some(n) <==> AsksFor(ms, d, n.course, n.section)
  {
  }

  /** After placing, every section added is live, of the year and asked for by some decision that found none
      before; and every decision that asks for a section in a course of this branch has it. */
  lemma SectionsProvided(w: World, year: Id, ms: seq<Mapping>, ds: seq<Decision>)
    requires Place(w, year, ms, ds).Ok?
    ensures var v := Place(w, year, ms, ds).value.world;
            && v == w.(batches := v.batches)
            && |w.batches| <= |v.batches| && v.batches[..|w.batches|] == w.batches
            && (forall b :: |w.batches| <= b < |v.batches| ==>
                  && v.batches[b].live && v.batches[b].year == year
                  && exists d :: d in ds && AsksFor(ms, d, v.batches[b].course, v.batches[b].name))
            && (forall d, course: Id, name: Name :: d in ds && AsksFor(ms, d, course, name) ==>
                  course < |w.courses| && w.courses[course].local ==>
                    exists b: Id :: SectionIs(v, b, course, year, name))
  {
    var ns := Needs(ms, ds);
    var v := Place(w, year, ms, ds).value.world;
    ProvideAdds(w, year, ns);
    NeedsDistinct(ms, ds);
    forall b | |w.batches| <= b < |v.batches|
      ensures exists d :: d in ds && AsksFor(ms, d, v.batches[b].course, v.batches[b].name)
    {
      var n := Need(v.batches[b].course, v.batches[b].name);
      var d :| d in ds && NeedOf(ms, d) == Some(n);
      NeedAsks(ms, d, n);
    }
    forall d, course: Id, name: Name | d in ds && AsksFor(ms, d, course, name)
                                       && course < |w.courses| && w.courses[course].local
      ensures exists b: Id :: SectionIs(v, b, course, year, name)
    {
      NeedAsks(ms, d, Need(course, name));
      ProvideTwin(w, year, ns, Need(course, name));
      var b :| 0 <= b < |v.batches| && Listed(v, b, course, year) && v.batches[b].name == name;
      assert SectionIs(v, b, course, year, name);
    }
  }

  /** Placing fails exactly when some decision asks for a section that no listed one provides and whose name
      is held, in that course and year, by a deleted section or one of another branch. */
  lemma PlaceFailsExactly(w: World, year: Id, ms: seq<Mapping>, ds: seq<Decision>)
    ensures Place(w, year, ms, ds).Err? <==>
            exists d, course: Id, name: Name ::
              d in ds && AsksFor(ms, d, course, name) && Unmeetable(w, year, Need(course, name))
  {
    var ns := Needs(ms, ds);
    NeedsDistinct(ms, ds);
    ProvideFailsExactly(w, year, ns);
    if n :| n in ns && Unmeetable(w, year, n) {
      var d :| d in ds && NeedOf(ms, d) == Some(n);
      NeedAsks(ms, d, n);
      assert AsksFor(ms, d, n.course, n.section) && Unmeetable(w, year, Need(n.course, n.section));
    }
    if d, course: Id, name: Name :| d in ds && AsksFor(ms, d, course, name) && Unmeetable(w, year, Need(course, name)) {
      NeedAsks(ms, d, Need(course, name));
      assert Need(course, name) in ns;
    }
  }

  /** e is decision d placed in the section of its own name in that course. */
  ghost predicate InSection(w: World, year: Id, course: Id, d: Decision, e: Decision) {
    && e.targetBatch.Some? && SectionIs(w, e.targetBatch.value, course, year, d.section)
    && e == d.(targetCourse := Some(course), targetBatch := e.targetBatch, targetSection := d.section)
  }

  /** The section for a student who comes from one of the given name: the one of that name, or else the first
      by name, or none when the course has none in the year. */
  ghost predicate Chosen(w: World, course: Id, year: Id, name: Name, b: Option<Id>) {
    if exists c: Id :: SectionIs(w, c, course, year, name) then
      b.Some? && SectionIs(w, b.value, course, year, name)
    else if b.Some? then
      && b.value < |w.batches| && SectionIs(w, b.value, course, year, w.batches[b.value].name)
      && forall c: Id, n: Name :: SectionIs(w, c, course, year, n) ==> w.batches[b.value].name <= n
    else
      forall c: Id, n: Name :: !SectionIs(w, c, course, year, n)
  }

  lemma TargetChosen(w: World, course: Id, year: Id, name: Name)
    ensures Chosen(w, course, year, name, FindTarget(w, course, year, name))
  {
    var b := FindTarget(w, course, year, name);
    forall c: Id, n: Name ensures SectionIs(w, c, course, year, n) <==>
                                  c < |w.batches| && Listed(w, c, course, year) && w.batches[c].name == n {}
    var exact := FindExact(w, |w.batches|, course, year, name);
    if exact.Some? { assert SectionIs(w, exact.value, course, year, name); }
  }

  /** e is decision d with its destination: by the mapping for a promotion, in its own course for a retention,
      which keeps an old section when the course has none, and none for those who leave. */
  ghost predicate PlacedAs(w: World, year: Id, ms: seq<Mapping>, d: Decision, e: Decision) {
    match d.final
    case Promote =>
      if d.course.None? || LookUp(ms, d.course.value).None? then e == d
      else
        && Chosen(w, LookUp(ms, d.course.value).value, year, d.section, e.targetBatch)
        && (e.targetBatch.Some? ==> e.targetBatch.value < |w.batches|)
        && e == d.(targetCourse := LookUp(ms, d.course.value), targetBatch := e.targetBatch,
                   targetSection := if e.targetBatch.Some? then w.batches[e.targetBatch.value].name else BLANK)
    case Retain =>
      if d.course.None? then e == d
      else if Chosen(w, d.course.value, year, d.section, Option.None) then e == d.(targetCourse := d.course)
      else
        && e.targetBatch.Some? && e.targetBatch.value < |w.batches|
        && Chosen(w, d.course.value, year, d.section, e.targetBatch)
        && e == d.(targetCourse := d.course, targetBatch := e.targetBatch,
                   targetSection := w.batches[e.targetBatch.value].name)
    case Graduate => e == d.(targetCourse := Option.None, targetBatch := Option.None, targetSection := BLANK)
    case TransferOut => e == d.(targetCourse := Option.None, targetBatch := Option.None, targetSection := BLANK)
    case Withdraw => e == d.(targetCourse := Option.None, targetBatch := Option.None, targetSection := BLANK)
    case ManualReview => e == d
    case Pending => e == d
  }

  lemma DestinedExact(w: World, year: Id, ms: seq<Mapping>, d: Decision)
    ensures PlacedAs(w, year, ms, d, Destined(w, year, ms, d))
  {
    var course := if d.course.None? then 0 else if d.final == Promote && LookUp(ms, d.course.value).Some?
                  then LookUp(ms, d.course.value).value else d.course.value;
    TargetChosen(w, course, year, d.section);
    var b := FindTarget(w, course, year, d.section);
    if b.Some? { assert SectionIs(w, b.value, course, year, w.batches[b.value].name); }
  }

  /** A student retained in a course of this branch is placed in the target-year section of that course with
      the old section's name; one promoted out of a mapped course in that of the mapped course. */
  lemma DestinationsCorrect(w: World, year: Id, ms: seq<Mapping>, ds: seq<Decision>, i: nat, course: Id)
    requires Place(w, year, ms, ds).Ok? && i < |ds| && ds[i].section != BLANK
    requires course < |w.courses| && w.courses[course].local
    ensures var p := Place(w, year, ms, ds).value;
            && |p.decisions| == |ds|
            && (ds[i].final == Retain && ds[i].course == Some(course) ==>
                  InSection(p.world, year, course, ds[i], p.decisions[i]))
            && (ds[i].final == Promote && ds[i].course.Some? && LookUp(ms, ds[i].course.value) == Some(course) ==>
                  InSection(p.world, year, course, ds[i], p.decisions[i]))
  {
    var p := Place(w, year, ms, ds).value;
    SectionsProvided(w, year, ms, ds);
    DestinedExact(p.world, year, ms, ds[i]);
    assert ds[i] in ds;
    if AsksFor(ms, ds[i], course, ds[i].section) {
      var b: Id :| SectionIs(p.world, b, course, year, ds[i].section);
    }
  }

  /** Starting preparation takes a student promoted out of a course that is followed by one of this branch to
      the following course, and keeps a retained one in the same course, each under the old section's name. */
  lemma PreparedDestinations(w: World, year: Id, ms: seq<Mapping>, ds: seq<Decision>, i: nat, from: Id)
    requires Prepare(w, year, ms, ds).Ok? && i < |ds| && ds[i].section != BLANK
    requires ds[i].course == Some(from) && from < |w.courses|
    ensures var p := Prepare(w, year, ms, ds).value;
            var next := NextCourse(w.courses, w.courses[from].department, from);
            && |p.decisions| == |ds|
            && (ds[i].final == Retain && w.courses[from].local ==>
                  InSection(p.world, year, from, ds[i], p.decisions[i]))
            && (ds[i].final == Promote && next.Some? && w.courses[next.value].local ==>
                  InSection(p.world, year, next.value, ds[i], p.decisions[i]))
  {
    var seeded := Seeded(w.courses, ms, ds);
    SeededMaps(w.courses, ms, ds, from);
    var next := NextCourse(w.courses, w.courses[from].department, from);
    if ds[i].final == Retain {
      if w.courses[from].local { DestinationsCorrect(w, year, seeded, ds, i, from); }
    } else if next.Some? && w.courses[next.value].local {
      assert ds[i] in ds;
      DestinationsCorrect(w, year, seeded, ds, i, next.value);
    }
  }
}
