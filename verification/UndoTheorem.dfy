/** Undoing a rollover right after it restores everything that existed before. */
module UndoTheorem {
  import opened Records
  import opened Calendar
  import opened Courses
  import opened Recommendations
  import opened Tables
  import opened Preparation
  import opened Rollover

  function Priors(ms: seq<Movement>): set<Id> { set m | m in ms :: m.prior }

  function Createds(ms: seq<Movement>): set<Id> { set m | m in ms && m.created.Some? :: m.created.value }

  function Movers(ms: seq<Movement>): set<Id> { set m | m in ms :: m.profile }

  // ---------------------------------------------------------------- what a rollover touches

  /** Old rows are at most closed, and only those of priors; new rows are live, in year y and were created. */
  ghost predicate RowsMoved(es: seq<Enrollment>, fs: seq<Enrollment>, priors: set<Id>, createds: set<Id>, y: Id) {
    && |es| <= |fs|
    && (forall i :: 0 <= i < |es| ==>
          && fs[i] == es[i].(live := fs[i].live, status := fs[i].status)
          && (fs[i].live ==> es[i].live)
          && (i !in priors ==> fs[i] == es[i]))
    && (forall i :: |es| <= i < |fs| ==> fs[i].year == y && fs[i].live && i in createds)
  }

  ghost predicate ProfilesMoved(ps: seq<Profile>, qs: seq<Profile>, movers: set<Id>) {
    && |qs| == |ps|
    && forall p :: 0 <= p < |ps| ==> qs[p].live == ps[p].live && (p !in movers ==> qs[p] == ps[p])
  }

  ghost predicate MovementsFit(w: World, v: World, ms: seq<Movement>) {
    forall m :: m in ms ==>
      && Fits(w, m)
      && (m.created.Some? ==> |w.enrollments| <= m.created.value < |v.enrollments|)
  }

  /** v is w after the movements ms into year y. */
  ghost predicate Moved(w: World, v: World, ms: seq<Movement>, y: Id) {
    && v.years == w.years && v.courses == w.courses && v.fees == w.fees && v.rollovers == w.rollovers
    && v.arrears == w.arrears && v.college == w.college
    && |w.batches| <= |v.batches| && (forall i :: 0 <= i < |w.batches| ==> v.batches[i] == w.batches[i])
    && RowsMoved(w.enrollments, v.enrollments, Priors(ms), Createds(ms), y)
    && ProfilesMoved(w.profiles, v.profiles, Movers(ms))
    && MovementsFit(w, v, ms)
  }

  predicate Fits(w: World, m: Movement) {
    m.prior < |w.enrollments| && w.enrollments[m.prior].profile == m.profile < |w.profiles|
  }

  lemma OneMore(ms: seq<Movement>, m: Movement)
    ensures Priors(ms + [m]) == Priors(ms) + {m.prior}
    ensures Movers(ms + [m]) == Movers(ms) + {m.profile}
    ensures Createds(ms + [m]) == Createds(ms) + (if m.created.Some? then {m.created.value} else {})
  {
    forall x ensures x in ms + [m] <==> x in ms || x == m {}
  }

  lemma RowsMoveTo(es: seq<Enrollment>, fs: seq<Enrollment>, priors: set<Id>, createds: set<Id>, y: Id,
                   e: Id, row: Enrollment)
    requires RowsMoved(es, fs, priors, createds, y) && e < |es| && row.year == y && row.live
    ensures RowsMoved(es, fs[e := fs[e].(live := false)] + [row], priors + {e}, createds + {|fs|}, y)
  {
  }

  lemma MovedByMoveTo(w: World, r: Rolling, e: Id, to: Id, dest: Id)
    requires Moved(w, r.world, r.movements, to) && e < |w.enrollments| && w.enrollments[e].profile < |w.profiles|
    requires MoveTo(r, e, to, dest).Ok?
    ensures var q := MoveTo(r, e, to, dest).value; Moved(w, q.world, q.movements, to)
  {
    var p, fs := w.enrollments[e].profile, r.world.enrollments;
    var m := Movement(p, e, Some(|fs|));
    OneMore(r.movements, m);
    var row := Enrollment(p, to, Some(dest), Active, OpenArrears(r.world, e), true);
    RowsMoveTo(w.enrollments, fs, Priors(r.movements), Createds(r.movements), to, e, row);
    var q := MoveTo(r, e, to, dest).value;
    assert q.world.enrollments == fs[e := fs[e].(live := false)] + [row];
  }

  lemma MovedByGraduation(w: World, r: Rolling, e: Id, to: Id)
    requires Moved(w, r.world, r.movements, to) && e < |w.enrollments| && w.enrollments[e].profile < |w.profiles|
    ensures var q := GraduateNow(r, e); Moved(w, q.world, q.movements, to)
  {
    OneMore(r.movements, Movement(w.enrollments[e].profile, e, Option.None));
  }

  lemma MovedByBatch(w: World, v: World, ms: seq<Movement>, y: Id, course: Id, year: Id, name: Name)
    requires Moved(w, v, ms, y) && AddBatch(v, course, year, name).Ok?
    ensures Moved(w, AddBatch(v, course, year, name).value, ms, y)
  {
  }

  lemma MovedByStudent(w: World, r: Rolling, copies: BatchMap, to: Id, e: Id)
    requires Moved(w, r.world, r.movements, to) && e < |w.enrollments| && w.enrollments[e].profile < |w.profiles|
    requires RollStudent(r, copies, to, e).Ok?
    ensures var q := RollStudent(r, copies, to, e).value; Moved(w, q.world, q.movements, to)
  {
    var v := r.world;
    var b := v.enrollments[e].batch;
    if b.Some? {
      var c, name := v.batches[b.value].course, v.batches[b.value].name;
      var next := NextCourse(v.courses, v.courses[c].department, c);
      if next.Some? {
        if FindExact(v, |v.batches|, next.value, to, name).None? {
          MovedByBatch(w, v, r.movements, to, next.value, to, name);
        }
        var d := Destination(v, next.value, to, name).value;
        MovedByMoveTo(w, r.(world := d.0), e, to, d.1);
      } else if OpenArrears(v, e) == [] {
        MovedByGraduation(w, r, e, to);
      } else {
        MovedByMoveTo(w, r, e, to, copies[b.value]);
      }
    }
  }

  /** The moved rows are exactly those on the roster that have a section. */
  lemma PriorAdded(r: Rolling, copies: BatchMap, to: Id, e: Id)
    requires RollStudent(r, copies, to, e).Ok?
    ensures var q := RollStudent(r, copies, to, e).value;
            e < |r.world.enrollments| &&
            Priors(q.movements) == Priors(r.movements) + if r.world.enrollments[e].batch.Some? then {e} else {}
  {
    if r.world.enrollments[e].batch.Some? {
      var q := RollStudent(r, copies, to, e).value;
      var m := q.movements[|q.movements| - 1];
      assert q.movements == r.movements + [m];
      OneMore(r.movements, m);
    }
  }

  ghost predicate Rostered(w: World, es: seq<Id>) {
    forall i :: 0 <= i < |es| ==> es[i] < |w.enrollments| && w.enrollments[es[i]].profile < |w.profiles|
  }

  function WithSection(w: World, es: seq<Id>): set<Id> {
    set e | e in es && e < |w.enrollments| && w.enrollments[e].batch.Some?
  }

  /** v is w after these roster rows were rolled over. */
  ghost predicate Rolled(w: World, q: Rolling, es: seq<Id>, to: Id) {
    Moved(w, q.world, q.movements, to) && Priors(q.movements) == WithSection(w, es)
  }

  lemma RolledMore(w: World, q: Rolling, copies: BatchMap, to: Id, es: seq<Id>, e: Id)
    requires Rolled(w, q, es, to) && e < |w.enrollments| && w.enrollments[e].profile < |w.profiles|
    requires RollStudent(q, copies, to, e).Ok?
    ensures Rolled(w, RollStudent(q, copies, to, e).value, es + [e], to)
  {
    MovedByStudent(w, q, copies, to, e);
    PriorAdded(q, copies, to, e);
    SectionAdded(w, es, e);
  }

  lemma SectionAdded(w: World, es: seq<Id>, e: Id)
    requires e < |w.enrollments|
    ensures WithSection(w, es + [e]) == WithSection(w, es) + if w.enrollments[e].batch.Some? then {e} else {}
  {
  }

  lemma {:induction false} MovedByAll(w: World, r: Rolling, copies: BatchMap, to: Id, es: seq<Id>)
    requires Moved(w, r.world, r.movements, to) && Rostered(w, es) && r.movements == []
    requires RollStudents(r, copies, to, es).Ok?
    ensures Rolled(w, RollStudents(r, copies, to, es).value, es, to)
  {
    if es != [] {
      var front, e := es[..|es| - 1], es[|es| - 1];
      MovedByAll(w, r, copies, to, front);
      RolledMore(w, RollStudents(r, copies, to, front).value, copies, to, front, e);
      assert es == front + [e];
    }
  }

  lemma {:induction false} MovedByCopies(w: World, from: Id, to: Id, n: nat)
    requires n <= |w.batches| && CopyBatches(w, from, to, n).Ok?
    ensures Moved(w, CopyBatches(w, from, to, n).value.world, [], to)
  {
    if n > 0 {
      MovedByCopies(w, from, to, n - 1);
    }
  }

  lemma RollAllMoves(w: World, from: Id, to: Id)
    requires RollAll(w, from, to).Ok?
    ensures var r := RollAll(w, from, to).value;
            Moved(w, r.world, r.movements, to) && Priors(r.movements) == WithSection(w, Roster(w, from))
  {
    MovedByCopies(w, from, to, |w.batches|);
    var c := CopyBatches(w, from, to, |w.batches|).value;
    MovedByAll(w, Rolling(c.world, []), c.copies, to, Roster(w, from));
  }

  // ---------------------------------------------------------------- what undo puts back

  /** u is v after undoing the movements ms, told against the tables w from before the rollover. */
  ghost predicate RowsUndone(es: seq<Enrollment>, fs: seq<Enrollment>, gs: seq<Enrollment>,
                             priors: set<Id>, createds: set<Id>, y: Id) {
    && |es| <= |fs| == |gs|
    && (forall i :: 0 <= i < |es| ==>
          && gs[i] == es[i].(live := gs[i].live, status := gs[i].status)
          && (gs[i].live ==> es[i].live)
          && gs[i] == if i in priors then es[i] else fs[i])
    && (forall i :: |es| <= i < |fs| ==>
          && gs[i].year == y && fs[i].live
          && gs[i] == if i in createds then fs[i].(live := false, status := Withdrawn) else fs[i])
  }

  ghost predicate ProfilesUndone(ps: seq<Profile>, qs: seq<Profile>, ms: seq<Movement>) {
    && |qs| == |ps|
    && forall p :: 0 <= p < |ps| ==>
         && qs[p] == ps[p].(enrollment := qs[p].enrollment)
         && (p !in Movers(ms) ==> qs[p] == ps[p])
         && (p in Movers(ms) ==> exists m :: m in ms && m.profile == p && qs[p].enrollment == Some(m.prior))
  }

  ghost predicate Undone(w: World, v: World, u: World, ms: seq<Movement>, y: Id) {
    && u == v.(enrollments := u.enrollments, profiles := u.profiles)
    && RowsUndone(w.enrollments, v.enrollments, u.enrollments, Priors(ms), Createds(ms), y)
    && ProfilesUndone(v.profiles, u.profiles, ms)
  }

  /** Every moved row was live and active in the year rolled over. */
  ghost predicate WereActive(w: World, ms: seq<Movement>, from: Id) {
    forall m :: m in ms ==>
      && Fits(w, m) && w.enrollments[m.prior].live && w.enrollments[m.prior].status == Active
      && w.enrollments[m.prior].year == from
  }

  lemma NotContested(es: seq<Enrollment>, gs: seq<Enrollment>, e: Id, y: Id)
    requires UniqueEnrollments(es) && |es| <= |gs| && e < |es| && es[e].live && es[e].year != y
    requires forall i :: 0 <= i < |es| ==> gs[i].profile == es[i].profile && gs[i].year == es[i].year
    requires forall i :: 0 <= i < |es| ==> (gs[i].live ==> es[i].live)
    requires forall i :: |es| <= i < |gs| ==> gs[i].year == y
    ensures !Contested(gs, e)
  {
    forall j | 0 <= j < |gs| && j != e ensures !ActiveIn(gs[j], gs[e].profile, gs[e].year) {
      if j < |es| && es[j].live { assert es[j].profile != es[e].profile || es[j].year != es[e].year; }
    }
  }

  lemma RowsUndoOne(es: seq<Enrollment>, fs: seq<Enrollment>, gs: seq<Enrollment>, priors: set<Id>,
                    createds: set<Id>, y: Id, m: Movement)
    requires RowsUndone(es, fs, gs, priors, createds, y)
    requires m.prior < |es| && es[m.prior].live && es[m.prior].status == Active
    requires m.created.Some? ==> |es| <= m.created.value < |fs|
    ensures var dropped := if m.created.Some? && gs[m.created.value].live
                           then gs[m.created.value := gs[m.created.value].(live := false, status := Withdrawn)] else gs;
            var hs := dropped[m.prior := dropped[m.prior].(live := true, status := Active)];
            RowsUndone(es, fs, hs, priors + {m.prior},
                       createds + (if m.created.Some? then {m.created.value} else {}), y)
  {
  }

  lemma ProfilesUndoOne(ps: seq<Profile>, qs: seq<Profile>, ms: seq<Movement>, m: Movement)
    requires ProfilesUndone(ps, qs, ms) && m.profile < |ps|
    ensures ProfilesUndone(ps, qs[m.profile := qs[m.profile].(enrollment := Some(m.prior))], ms + [m])
  {
    OneMore(ms, m);
    var rs := qs[m.profile := qs[m.profile].(enrollment := Some(m.prior))];
    forall p | 0 <= p < |ps| && p in Movers(ms + [m])
      ensures exists x :: x in ms + [m] && x.profile == p && rs[p].enrollment == Some(x.prior)
    {
      if p == m.profile {
        assert m in ms + [m];
      } else {
        var x :| x in ms && x.profile == p && qs[p].enrollment == Some(x.prior);
        assert x in ms + [m];
      }
    }
  }

  lemma UndoOne(w: World, v: World, u: World, ms: seq<Movement>, m: Movement, from: Id, y: Id)
    requires Undone(w, v, u, ms, y) && WereActive(w, [m], from) && from != y && UniqueEnrollments(w.enrollments)
    requires |v.profiles| == |w.profiles|
    requires m.created.Some? ==> |w.enrollments| <= m.created.value < |v.enrollments|
    ensures UndoMovement(u, m).Ok? && Undone(w, v, UndoMovement(u, m).value, ms + [m], y)
  {
    assert m in [m];
    var dropped := if m.created.Some? then DropEnrollment(u, m.created.value) else u;
    NotContested(w.enrollments, dropped.enrollments, m.prior, y);
    RowsUndoOne(w.enrollments, v.enrollments, u.enrollments, Priors(ms), Createds(ms), y, m);
    ProfilesUndoOne(v.profiles, u.profiles, ms, m);
    OneMore(ms, m);
  }

  lemma {:induction false} UndoAll(w: World, v: World, ms: seq<Movement>, from: Id, y: Id)
    requires RowsUndone(w.enrollments, v.enrollments, v.enrollments, {}, {}, y)
    requires WereActive(w, ms, from) && from != y && UniqueEnrollments(w.enrollments)
    requires |v.profiles| == |w.profiles|
    requires forall m :: m in ms && m.created.Some? ==> |w.enrollments| <= m.created.value < |v.enrollments|
    ensures UndoMovements(v, ms).Ok? && Undone(w, v, UndoMovements(v, ms).value, ms, y)
  {
    if ms != [] {
      var front, m := ms[..|ms| - 1], ms[|ms| - 1];
      assert ms == front + [m];
      UndoAll(w, v, front, from, y);
      UndoOne(w, v, UndoMovements(v, front).value, front, m, from, y);
    }
  }

  // ---------------------------------------------------------------- placements

  ghost predicate DistinctStudents(w: World, es: seq<Id>)
    requires Rostered(w, es)
  {
    forall i, j :: 0 <= i < j < |es| ==> w.enrollments[es[i]].profile != w.enrollments[es[j]].profile
  }

  /** The profile after its placement was restored. */
  function Replaced(v: World, w: World, e: Id): Profile
    requires e < |w.enrollments| && w.enrollments[e].profile < |w.profiles| == |v.profiles|
  {
    var p := w.enrollments[e].profile;
    v.profiles[p].(batch := w.enrollments[e].batch, status := w.profiles[p].status)
  }

  /** u is v with the rostered students' placements, as of w, restored. */
  ghost predicate Placed(w: World, v: World, u: World, es: seq<Id>)
    requires Rostered(w, es) && |v.profiles| == |w.profiles|
  {
    && u == v.(profiles := u.profiles) && |u.profiles| == |v.profiles|
    && (forall i :: 0 <= i < |es| ==> u.profiles[w.enrollments[es[i]].profile] == Replaced(v, w, es[i]))
    && (forall p :: 0 <= p < |v.profiles| && (forall i :: 0 <= i < |es| ==> w.enrollments[es[i]].profile != p)
          ==> u.profiles[p] == v.profiles[p])
  }

  lemma PlacedMore(w: World, v: World, t: World, es: seq<Id>)
    requires Rostered(w, es) && DistinctStudents(w, es) && |v.profiles| == |w.profiles| && es != []
    requires Placed(w, v, t, es[..|es| - 1])
    ensures var e := w.enrollments[es[|es| - 1]];
            Placed(w, v, RestoreStudent(t, Placement(e.profile, e.batch, w.profiles[e.profile].status)), es)
  {
    var front, e := es[..|es| - 1], w.enrollments[es[|es| - 1]];
    var u := RestoreStudent(t, Placement(e.profile, e.batch, w.profiles[e.profile].status));
    forall i | 0 <= i < |front| ensures u.profiles[w.enrollments[es[i]].profile] == Replaced(v, w, es[i]) {
      assert front[i] == es[i];
    }
    forall p | 0 <= p < |v.profiles| && (forall i :: 0 <= i < |es| ==> w.enrollments[es[i]].profile != p)
      ensures u.profiles[p] == v.profiles[p]
    {
      forall i | 0 <= i < |front| ensures w.enrollments[front[i]].profile != p { assert front[i] == es[i]; }
    }
  }

  lemma {:induction false} RestoreEffect(w: World, v: World, es: seq<Id>)
    requires Rostered(w, es) && DistinctStudents(w, es) && |v.profiles| == |w.profiles|
    ensures Placed(w, v, RestoreAll(v, Capture(w, es)), es)
  {
    if es != [] {
      var front := es[..|es| - 1];
      RestoreEffect(w, v, front);
      assert Capture(w, es)[..|es| - 1] == Capture(w, front);
      PlacedMore(w, v, RestoreAll(v, Capture(w, front)), es);
    }
  }

  // ---------------------------------------------------------------- execute, then undo

  lemma RosterDistinct(w: World, y: Id)
    requires UniqueEnrollments(w.enrollments)
    ensures Rostered(w, Roster(w, y)) && DistinctStudents(w, Roster(w, y))
  {
    var es := Roster(w, y);
    forall i, j | 0 <= i < j < |es| ensures w.enrollments[es[i]].profile != w.enrollments[es[j]].profile {
      assert OnRoster(w, y, es[i]) && OnRoster(w, y, es[j]);
    }
  }

  /** The tables before a rollover with the years and runs from after it. */
  function Rebased(w: World, v: World): World {
    w.(years := v.years, rollovers := v.rollovers)
  }

  /** The year, the movements and the run that an accepted rollover leaves behind. */
  lemma ExecuteShape(w: World, following: Name -> Name, now: nat) returns (from: Id, ms: seq<Movement>)
    requires ExecuteRollover(w, following, now).Ok?
    ensures CurrentYear(w.years) == Some(from)
    ensures var to, v := |w.years|, ExecuteRollover(w, following, now).value;
            && !NameTaken(w.years, following(w.years[from].name))
            && v.years == RolledYears(w.years, from, following(w.years[from].name))
            && v.rollovers == w.rollovers + [RolloverRun(from, Some(to), RollSucceeded,
                 Snapshot(Capture(w, Roster(w, from)), ms), Some(now + UNDO_HOURS))]
            && Moved(Rebased(w, v), v, ms, to)
            && Priors(ms) == WithSection(w, Roster(w, from))
  {
    from := CurrentYear(w.years).value;
    var switched := SwitchYears(w, from, following(w.years[from].name)).value;
    var r := RollAll(switched, from, |w.years|).value;
    ms := r.movements;
    RollAllMoves(switched, from, |w.years|);
    RosterKept(w, switched, from, |w.enrollments|);
  }

  /** A student's pointers agree with the enrollment the rollover finds for the student. */
  ghost predicate PointersAgree(w: World, y: Id, p: Id)
    requires p < |w.profiles|
  {
    forall e: Id :: e < |w.enrollments| && OnRoster(w, y, e) && w.enrollments[e].profile == p ==>
      && w.profiles[p].batch == w.enrollments[e].batch
      && (w.enrollments[e].batch.Some? ==> w.profiles[p].enrollment == Some(e))
  }

  predicate SameFlags(a: Year, b: Year) {
    a.name == b.name && a.current == b.current && a.frozen == b.frozen && a.live == b.live
  }

  /** The profile that undo leaves: the roster's section, the old status, and, when the student was
      moved, a pointer at the old enrollment. */
  function Expected(w: World, e: Id): Profile
    requires e < |w.enrollments| && w.enrollments[e].profile < |w.profiles|
  {
    var row := w.profiles[w.enrollments[e].profile];
    row.(batch := w.enrollments[e].batch,
         enrollment := if w.enrollments[e].batch.Some? then Some(e) else row.enrollment)
  }

  lemma UndoneProfile(w: World, v: World, r: World, u: World, ms: seq<Movement>, from: Id, to: Id, e: Id)
    requires UniqueEnrollments(w.enrollments) && Moved(w, v, ms, to) && Priors(ms) == WithSection(w, Roster(w, from))
    requires WereActive(w, ms, from)
    requires e < |w.enrollments| && OnRoster(w, from, e)
    requires |r.profiles| == |v.profiles| && r.profiles[w.enrollments[e].profile] == Replaced(v, w, e)
    requires ProfilesUndone(r.profiles, u.profiles, ms)
    ensures u.profiles[w.enrollments[e].profile] == Expected(w, e)
  {
    var p := w.enrollments[e].profile;
    if w.enrollments[e].batch.Some? {
      assert e in Priors(ms);
      var m :| m in ms && m.prior == e;
      assert Fits(w, m) && m.profile in Movers(ms);
    }
    if p in Movers(ms) {
      var m :| m in ms && m.profile == p && u.profiles[p].enrollment == Some(m.prior);
      assert m.prior in Priors(ms);
      assert w.enrollments[m.prior].live && w.enrollments[m.prior].year == from;
    }
  }

  lemma MovementsActive(w: World, v: World, ms: seq<Movement>, from: Id, to: Id)
    requires Moved(w, v, ms, to) && Priors(ms) == WithSection(w, Roster(w, from))
    ensures WereActive(w, ms, from)
  {
    forall m | m in ms ensures OnRoster(w, from, m.prior) && Fits(w, m) {
      assert m.prior in Priors(ms);
    }
  }

  /** The tables, years aside, that undo leaves. */
  ghost predicate TablesRestored(w: World, u: World, from: Id) {
    && |w.enrollments| <= |u.enrollments| && |u.profiles| == |w.profiles|
    && (forall i :: 0 <= i < |w.enrollments| ==> u.enrollments[i] == w.enrollments[i])
    && (forall i :: |w.enrollments| <= i < |u.enrollments| ==>
          !u.enrollments[i].live && u.enrollments[i].status == Withdrawn)
    && (forall p :: 0 <= p < |w.profiles| ==> (u.profiles[p] == w.profiles[p] <==> PointersAgree(w, from, p)))
  }

  lemma UndoTables(w: World, v: World, ms: seq<Movement>, from: Id, to: Id)
    requires UniqueEnrollments(w.enrollments) && from != to
    requires Moved(w, v, ms, to) && Priors(ms) == WithSection(w, Roster(w, from))
    ensures var r := UndoMovements(RestoreAll(v, Capture(w, Roster(w, from))), ms);
            r.Ok? && TablesRestored(w, r.value, from)
            && r.value == v.(enrollments := r.value.enrollments, profiles := r.value.profiles)
  {
    var es := Roster(w, from);
    RosterDistinct(w, from);
    RestoreEffect(w, v, es);
    MovementsActive(w, v, ms, from, to);
    var r := RestoreAll(v, Capture(w, es));
    UndoAll(w, r, ms, from, to);
    var u := UndoMovements(r, ms).value;
    forall p | 0 <= p < |w.profiles| ensures u.profiles[p] == w.profiles[p] <==> PointersAgree(w, from, p) {
      OneProfile(w, v, u, ms, from, to, p);
    }
  }

  lemma RosteredProfile(w: World, v: World, u: World, ms: seq<Movement>, from: Id, to: Id, i: nat)
    requires UniqueEnrollments(w.enrollments) && Moved(w, v, ms, to) && Priors(ms) == WithSection(w, Roster(w, from))
    requires WereActive(w, ms, from)
    requires ProfilesUndone(RestoreAll(v, Capture(w, Roster(w, from))).profiles, u.profiles, ms)
    requires i < |Roster(w, from)|
    ensures var p := w.enrollments[Roster(w, from)[i]].profile;
            p < |u.profiles| && (u.profiles[p] == w.profiles[p] <==> PointersAgree(w, from, p))
  {
    var es := Roster(w, from);
    var p := w.enrollments[es[i]].profile;
    assert u.profiles[p] == Expected(w, es[i]) by {
      RosterDistinct(w, from);
      RestoreEffect(w, v, es);
      UndoneProfile(w, v, RestoreAll(v, Capture(w, es)), u, ms, from, to, es[i]);
    }
    assert OnRoster(w, from, es[i]);
    forall e: Id | e < |w.enrollments| && OnRoster(w, from, e) && w.enrollments[e].profile == p ensures e == es[i] {
    }
  }

  lemma OtherProfile(w: World, v: World, u: World, ms: seq<Movement>, from: Id, to: Id, p: Id)
    requires UniqueEnrollments(w.enrollments) && Moved(w, v, ms, to) && WereActive(w, ms, from)
    requires Priors(ms) == WithSection(w, Roster(w, from))
    requires ProfilesUndone(RestoreAll(v, Capture(w, Roster(w, from))).profiles, u.profiles, ms)
    requires p < |w.profiles|
    requires forall i :: 0 <= i < |Roster(w, from)| ==> w.enrollments[Roster(w, from)[i]].profile != p
    ensures p < |u.profiles| && u.profiles[p] == w.profiles[p] && PointersAgree(w, from, p)
  {
    var es := Roster(w, from);
    RosterDistinct(w, from);
    RestoreEffect(w, v, es);
    forall m | m in ms ensures m.profile != p {
      assert m.prior in Priors(ms) && Fits(w, m);
      assert m.prior in es;
    }
    forall e: Id | e < |w.enrollments| && OnRoster(w, from, e) ensures w.enrollments[e].profile != p {
      assert e in es;
    }
  }

  lemma OneProfile(w: World, v: World, u: World, ms: seq<Movement>, from: Id, to: Id, p: Id)
    requires UniqueEnrollments(w.enrollments) && Moved(w, v, ms, to) && WereActive(w, ms, from)
    requires Priors(ms) == WithSection(w, Roster(w, from))
    requires ProfilesUndone(RestoreAll(v, Capture(w, Roster(w, from))).profiles, u.profiles, ms)
    requires p < |w.profiles| == |u.profiles|
    ensures u.profiles[p] == w.profiles[p] <==> PointersAgree(w, from, p)
  {
    var es := Roster(w, from);
    if i :| 0 <= i < |es| && w.enrollments[es[i]].profile == p {
      RosteredProfile(w, v, u, ms, from, to, i);
    } else {
      OtherProfile(w, v, u, ms, from, to, p);
    }
  }

  // ---------------------------------------------------------------- years

  function RolledYears(ys: seq<Year>, from: Id, name: Name): (r: seq<Year>)
    requires from < |ys|
    ensures |r| == |ys| + 1
  {
    SetCurrentYear(FreezeYear(ClearCurrent(ys) + [Year(name, 1, true, false, true)], from), |ys|)
  }

  /** The years after a rollover and its undo: every old year has its flags back, except that the
      source year is never left frozen; the new year is neither current nor live. */
  lemma YearsUndone(ys: seq<Year>, from: Id, name: Name)
    requires AtMostOneCurrent(ys) && CurrentYear(ys) == Some(from)
    ensures var n := |ys|;
            var r := UndoYears(RolledYears(ys, from, name), from, n);
            && r.Ok? && |r.value| == n + 1
            && (forall i :: 0 <= i < n && i != from ==> SameFlags(r.value[i], ys[i]))
            && SameFlags(r.value[from], ys[from].(frozen := false))
            && r.value[n].name == name && !r.value[n].current && !r.value[n].live
  {
    RolledFlags(ys, from, name);
    NoneElseCurrent(ys, from);
    UndoneFlags(ys, RolledYears(ys, from, name), from, name);
  }

  lemma NoneElseCurrent(ys: seq<Year>, from: Id)
    requires AtMostOneCurrent(ys) && from < |ys| && ys[from].current
    ensures forall i :: 0 <= i < |ys| && i != from ==> !ys[i].current
  {
    forall i | 0 <= i < |ys| && i != from ensures !ys[i].current {
      var a, b := if i < from then i else from, if i < from then from else i;
      assert !(ys[a].current && ys[b].current);
    }
  }

  /** The old rows lost their current flag, the source is frozen, and the new year is current. */
  ghost predicate RolledOver(ys: seq<Year>, rs: seq<Year>, from: Id, name: Name) {
    && |rs| == |ys| + 1 && from < |ys| && rs[|ys|].current && rs[|ys|].name == name
    && forall i :: 0 <= i < |ys| ==>
         SameFlags(rs[i], ys[i].(current := false, frozen := ys[i].frozen || i == from))
  }

  lemma RolledFlags(ys: seq<Year>, from: Id, name: Name)
    requires from < |ys|
    ensures RolledOver(ys, RolledYears(ys, from, name), from, name)
  {
  }

  lemma UndoneFlags(ys: seq<Year>, rs: seq<Year>, from: Id, name: Name)
    requires RolledOver(ys, rs, from, name) && ys[from].current
    requires forall i :: 0 <= i < |ys| && i != from ==> !ys[i].current
    ensures var n, r := |ys|, UndoYears(rs, from, |ys|);
            && r.Ok? && |r.value| == n + 1
            && (forall i :: 0 <= i < n && i != from ==> SameFlags(r.value[i], ys[i]))
            && SameFlags(r.value[from], ys[from].(frozen := false))
            && r.value[n].name == name && !r.value[n].current && !r.value[n].live
  {
  }

  /** What a rollover followed at once by its undo leaves of the tables w. */
  ghost predicate Restored(w: World, u: World, from: Id)
    requires from < |w.years|
  {
    && TablesRestored(w, u, from)
    && |u.years| == |w.years| + 1 && !u.years[|w.years|].current && !u.years[|w.years|].live
    && (forall y :: 0 <= y < |w.years| && y != from ==> SameFlags(u.years[y], w.years[y]))
    && SameFlags(u.years[from], w.years[from].(frozen := false))
    && u.courses == w.courses && u.fees == w.fees
    && |w.batches| <= |u.batches| && forall b :: 0 <= b < |w.batches| ==> u.batches[b] == w.batches[b]
  }

  /** The tables that undo reaches from a rolled-over state with this run. */
  lemma UndoShape(v: World, run: RolloverRun, now: nat, n: nat)
    requires n < |v.rollovers| && n == |v.rollovers| - 1 && v.rollovers[n] == run
    requires run.status == RollSucceeded && run.expires.Some? && now < run.expires.value
    requires run.to.Some? && run.from < |v.years| && run.to.value < |v.years|
    requires UndoMovements(RestoreAll(v, run.snapshot.placements), run.snapshot.movements).Ok?
    requires UndoYears(v.years, run.from, run.to.value).Ok?
    ensures var u := UndoRollover(v, now);
            var t := UndoMovements(RestoreAll(v, run.snapshot.placements), run.snapshot.movements).value;
            u.Ok? && u.value == t.(years := UndoYears(v.years, run.from, run.to.value).value,
                                   rollovers := u.value.rollovers)
  {
  }

  lemma RebasedTables(w: World, v: World, u: World, from: Id)
    requires TablesRestored(Rebased(w, v), u, from)
    ensures TablesRestored(w, u, from)
  {
    forall p | 0 <= p < |w.profiles|
      ensures PointersAgree(Rebased(w, v), from, p) <==> PointersAgree(w, from, p)
    {
      PointersRebased(w, v, from, p);
    }
  }

  lemma PointersRebased(w: World, v: World, y: Id, p: Id)
    requires p < |w.profiles|
    ensures PointersAgree(Rebased(w, v), y, p) <==> PointersAgree(w, y, p)
  {
    forall e: Id | e < |w.enrollments| ensures OnRoster(Rebased(w, v), y, e) <==> OnRoster(w, y, e) {}
  }

  lemma UndoOfExecute(w: World, following: Name -> Name, executed: nat, undone: nat) returns (from: Id, u: World)
    requires UniqueEnrollments(w.enrollments) && AtMostOneCurrent(w.years)
    requires ExecuteRollover(w, following, executed).Ok? && undone < executed + UNDO_HOURS
    ensures UndoRollover(ExecuteRollover(w, following, executed).value, undone) == Ok(u)
    ensures CurrentYear(w.years) == Some(from) && TablesRestored(w, u, from)
    ensures u.courses == w.courses && u.fees == w.fees && |w.batches| <= |u.batches|
    ensures forall b :: 0 <= b < |w.batches| ==> u.batches[b] == w.batches[b]
    ensures var r := UndoYears(RolledYears(w.years, from, following(w.years[from].name)), from, |w.years|);
            r == Ok(u.years)
  {
    var ms;
    from, ms := ExecuteShape(w, following, executed);
    var v := ExecuteRollover(w, following, executed).value;
    var w0 := Rebased(w, v);
    RosterKept(w, w0, from, |w.enrollments|);
    UndoTables(w0, v, ms, from, |w.years|);
    YearsUndone(w.years, from, following(w.years[from].name));
    UndoShape(v, v.rollovers[|w.rollovers|], undone, |w.rollovers|);
    u := UndoRollover(v, undone).value;
    var t := UndoMovements(RestoreAll(v, Capture(w0, Roster(w0, from))), ms).value;
    assert Capture(w0, Roster(w0, from)) == Capture(w, Roster(w, from));
    assert u == t.(years := u.years, rollovers := u.rollovers);
    assert TablesRestored(w0, u, from);
    RebasedTables(w, v, u, from);
  }

  /** Every accepted rollover can be undone within its window.  Undo restores every earlier enrollment
      exactly, closes every new one, restores the flags of every year (and unfreezes the source), and
      restores a student's profile exactly when its pointers agreed with the student's enrollment. */
  lemma UndoRestores(w: World, following: Name -> Name, executed: nat, undone: nat)
    requires UniqueEnrollments(w.enrollments) && AtMostOneCurrent(w.years)
    requires ExecuteRollover(w, following, executed).Ok? && undone < executed + UNDO_HOURS
    ensures var r := UndoRollover(ExecuteRollover(w, following, executed).value, undone);
            r.Ok? && Restored(w, r.value, CurrentYear(w.years).value)
  {
    var from, u := UndoOfExecute(w, following, executed, undone);
    YearsUndone(w.years, from, following(w.years[from].name));
  }

  /** Why an undo is refused before it begins: there is no succeeded last run, or its window is over. */
  lemma UndoRefused(w: World, now: nat)
    ensures var n := |w.rollovers|;
            && (UndoRollover(w, now) == Err(Rejected) <==> n == 0 || w.rollovers[n - 1].status != RollSucceeded)
            && (UndoRollover(w, now) == Err(Denied) <==>
                  && n > 0 && w.rollovers[n - 1].status == RollSucceeded
                  && (w.rollovers[n - 1].expires.None? || w.rollovers[n - 1].expires.value <= now))
  {
    if w.rollovers != [] {
      var run := w.rollovers[|w.rollovers| - 1];
      UndoErrors(RestoreAll(w, run.snapshot.placements), run.snapshot.movements);
    }
  }

  lemma {:induction false} UndoErrors(w: World, ms: seq<Movement>)
    ensures UndoMovements(w, ms).Err? ==> UndoMovements(w, ms).error == Integrity
  {
    if ms != [] { UndoErrors(w, ms[..|ms| - 1]); }
  }

  /** A rollover can be undone exactly within 24 hours, and only once. */
  lemma UndoWindow(w: World, following: Name -> Name, executed: nat, undone: nat, again: nat)
    requires UniqueEnrollments(w.enrollments) && AtMostOneCurrent(w.years)
    requires ExecuteRollover(w, following, executed).Ok?
    ensures var r := UndoRollover(ExecuteRollover(w, following, executed).value, undone);
            && (r.Ok? <==> undone < executed + 24) && (r.Err? ==> r.error == Denied)
            && (r.Ok? ==> UndoRollover(r.value, again) == Err(Rejected))
  {
    var from, ms := ExecuteShape(w, following, executed);
    UndoRefused(ExecuteRollover(w, following, executed).value, undone);
    if undone < executed + 24 {
      UndoRestores(w, following, executed, undone);
      UndoneOnce(ExecuteRollover(w, following, executed).value, undone, again);
    }
  }

  lemma UndoneOnce(v: World, now: nat, again: nat)
    requires UndoRollover(v, now).Ok?
    ensures UndoRollover(UndoRollover(v, now).value, again) == Err(Rejected)
  {
  }

  /** A rollover that was undone can never be executed again: the deleted year still holds the name. */
  lemma NoSecondRollover(w: World, following: Name -> Name, executed: nat, undone: nat, again: nat)
    requires UniqueEnrollments(w.enrollments) && AtMostOneCurrent(w.years)
    requires ExecuteRollover(w, following, executed).Ok? && undone < executed + UNDO_HOURS
    ensures var r := UndoRollover(ExecuteRollover(w, following, executed).value, undone);
            r.Ok? && ExecuteRollover(r.value, following, again).Err?
  {
    var from, u := UndoOfExecute(w, following, executed, undone);
    YearsUndone(w.years, from, following(w.years[from].name));
    NameHeld(w, u, from, following, again);
  }

  lemma NameHeld(w: World, u: World, from: Id, following: Name -> Name, again: nat)
    requires from < |w.years| < |u.years| && u.years[from].current && u.years[from].live
    requires u.years[from].name == w.years[from].name
    requires u.years[|w.years|].name == following(w.years[from].name)
    requires forall i :: 0 <= i < |u.years| && i != from ==> !u.years[i].current
    ensures ExecuteRollover(u, following, again).Err?
  {
    assert CurrentYear(u.years) == Some(from);
    assert NameTaken(u.years, following(u.years[from].name));
  }
}
