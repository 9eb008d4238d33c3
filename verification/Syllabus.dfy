/** Syllabus units of a subject and each section's progress through them. */
module Syllabus {
  import opened Records
  import opened Text

  datatype Unit = Unit(branch: Id, subject: Id, title: string, order: nat, live: bool)

  /** Section and unit of a progress row; the pair is unique, so the rows form a map to their branch. */
  type Progress = map<(Id, Id), Id>

  datatype Book = Book(units: seq<Unit>, progress: Progress)

  // ---------------------------------------------------------------- the ordered listing

  predicate Belongs(us: seq<Unit>, branch: Id, subject: Id, i: Id) {
    i < |us| && us[i].live && us[i].branch == branch && us[i].subject == subject
  }

  /** Order, then age. */
  predicate Before(us: seq<Unit>, a: Id, b: Id)
    requires a < |us| && b < |us|
  {
    us[a].order < us[b].order || (us[a].order == us[b].order && a < b)
  }

  ghost predicate Ordered(us: seq<Unit>, ids: seq<Id>) {
    && (forall k :: 0 <= k < |ids| ==> ids[k] < |us|)
    && (forall k, l :: 0 <= k < l < |ids| ==> Before(us, ids[k], ids[l]))
  }

  function Insert(us: seq<Unit>, ids: seq<Id>, i: Id): (r: seq<Id>)
    requires (forall k :: 0 <= k < |ids| ==> ids[k] < |us|) && i < |us|
    ensures forall k :: 0 <= k < |r| ==> r[k] < |us|
    ensures forall x: Id :: x in r <==> x in ids || x == i
  {
    if ids == [] || Before(us, ids[|ids| - 1], i) then ids + [i]
    else
      assert ids == ids[..|ids| - 1] + [ids[|ids| - 1]];
      Insert(us, ids[..|ids| - 1], i) + [ids[|ids| - 1]]
  }

  ghost predicate AllBefore(us: seq<Unit>, ids: seq<Id>, i: Id) {
    i < |us| && forall x <- ids :: x < |us| && Before(us, x, i)
  }

  lemma AppendOrdered(us: seq<Unit>, ids: seq<Id>, i: Id)
    requires Ordered(us, ids) && AllBefore(us, ids, i)
    ensures Ordered(us, ids + [i])
  {
  }

  lemma LastIsAfter(us: seq<Unit>, ids: seq<Id>)
    requires Ordered(us, ids) && ids != []
    ensures AllBefore(us, ids[..|ids| - 1], ids[|ids| - 1])
  {
  }

  lemma {:induction false} InsertOrdered(us: seq<Unit>, ids: seq<Id>, i: Id)
    requires Ordered(us, ids) && i < |us| && i !in ids
    ensures Ordered(us, Insert(us, ids, i))
  {
    if ids != [] {
      var front, last := ids[..|ids| - 1], ids[|ids| - 1];
      LastIsAfter(us, ids);
      assert last in ids;
      if Before(us, last, i) {
        assert AllBefore(us, ids, i) by {
          forall x <- ids ensures Before(us, x, i) { assert x in front || x == last; }
        }
        AppendOrdered(us, ids, i);
      } else {
        InsertOrdered(us, front, i);
        AppendOrdered(us, Insert(us, front, i), last);
      }
    }
  }

  function UnitsAmong(us: seq<Unit>, branch: Id, subject: Id, n: nat): (r: seq<Id>)
    requires n <= |us|
    ensures Ordered(us, r)
    ensures forall x: Id :: x in r <==> x < n && Belongs(us, branch, subject, x)
  {
    if n == 0 then []
    else
      var rest := UnitsAmong(us, branch, subject, n - 1);
      if Belongs(us, branch, subject, n - 1) then
        InsertOrdered(us, rest, n - 1);
        Insert(us, rest, n - 1)
      else rest
  }

  function UnitsFor(us: seq<Unit>, branch: Id, subject: Id): (r: seq<Id>)
    ensures Ordered(us, r)
    ensures forall x: Id :: x in r <==> Belongs(us, branch, subject, x)
  {
    UnitsAmong(us, branch, subject, |us|)
  }

  function Members(ids: seq<Id>): (r: set<Id>)
    ensures forall x: Id :: x in r <==> x in ids
  {
    set x <- ids
  }

  lemma SomeMember(a: seq<Id>, b: seq<Id>)
    requires a != [] && forall x: Id :: x in a ==> x in b
    ensures b != []
  {
    assert a[0] in b;
  }

  lemma LastIsLast(us: seq<Unit>, a: seq<Id>, b: seq<Id>)
    requires Ordered(us, a) && Ordered(us, b) && a != [] && b != []
    requires a[|a| - 1] in b && b[|b| - 1] in a
    ensures a[|a| - 1] == b[|b| - 1]
  {
    var i :| 0 <= i < |b| && b[i] == a[|a| - 1];
    var j :| 0 <= j < |a| && a[j] == b[|b| - 1];
  }

  lemma FrontMembers(us: seq<Unit>, a: seq<Id>)
    requires Ordered(us, a) && a != []
    ensures Ordered(us, a[..|a| - 1])
    ensures forall x: Id :: x in a[..|a| - 1] <==> x in a && x != a[|a| - 1]
  {
    assert a == a[..|a| - 1] + [a[|a| - 1]];
  }

  /** Only one sequence lists a given set in order. */
  lemma {:induction false} OrderedUnique(us: seq<Unit>, a: seq<Id>, b: seq<Id>)
    requires Ordered(us, a) && Ordered(us, b)
    requires forall x: Id :: x in a <==> x in b
    ensures a == b
  {
    if a != [] { SomeMember(a, b); }
    if b != [] { SomeMember(b, a); }
    if a != [] {
      var c, d := a[..|a| - 1], b[..|b| - 1];
      assert a[|a| - 1] in b && b[|b| - 1] in a;
      LastIsLast(us, a, b);
      FrontMembers(us, a);
      FrontMembers(us, b);
      assert forall x: Id :: x in c <==> x in a && x != a[|a| - 1];
      assert forall x: Id :: x in d <==> x in b && x != a[|a| - 1];
      OrderedUnique(us, c, d);
      assert a == c + [a[|a| - 1]] && b == d + [a[|a| - 1]];
    }
  }

  /** The listing is of exactly the live units of the branch and subject, by order and then by age. */
  lemma ListingExact(us: seq<Unit>, branch: Id, subject: Id)
    ensures var ids := UnitsFor(us, branch, subject);
            && (forall i: Id :: i in ids <==>
                  i < |us| && us[i].live && us[i].branch == branch && us[i].subject == subject)
            && (forall k, l :: 0 <= k < l < |ids| ==>
                  && ids[k] < |us| && ids[l] < |us|
                  && (us[ids[k]].order < us[ids[l]].order ||
                      (us[ids[k]].order == us[ids[l]].order && ids[k] < ids[l])))
  {
    var ids := UnitsFor(us, branch, subject);
    forall k, l | 0 <= k < l < |ids| ensures ids[k] in ids && ids[l] in ids && Before(us, ids[k], ids[l]) {}
  }

  // ---------------------------------------------------------------- reconciliation, on values

  /** One row of the form; ids that are unknown to the database count as absent. */
  datatype Row = Row(id: Option<Id>, title: string)

  function Cleaned(rows: seq<Row>): (r: seq<Row>)
    ensures forall k :: 0 <= k < |r| ==> r[k].title != ""
  {
    if rows == [] then []
    else
      var last := rows[|rows| - 1];
      Cleaned(rows[..|rows| - 1]) +
      if Strip(last.title) != "" then [Row(last.id, Strip(last.title))] else []
  }

  /** Row c is row r with its title trimmed, which left something. */
  ghost predicate TrimmedRow(r: Row, c: Row) {
    c.id == r.id && !Blank(r.title) && exists i: nat :: Trimmed(r.title, c.title, i)
  }

  /** The cleaned rows are those at these places, in order, trimmed; every row that is not blank is there. */
  ghost predicate CleansTo(rows: seq<Row>, cleaned: seq<Row>, places: seq<nat>) {
    && |places| == |cleaned|
    && (forall k :: 0 <= k < |places| ==> places[k] < |rows| && TrimmedRow(rows[places[k]], cleaned[k]))
    && (forall k, l :: 0 <= k < l < |places| ==> places[k] < places[l])
    && (forall i: nat :: i < |rows| && !Blank(rows[i].title) ==> i in places)
  }

  lemma {:induction false} CleanedExact(rows: seq<Row>) returns (places: seq<nat>)
    ensures CleansTo(rows, Cleaned(rows), places)
  {
    if rows == [] {
      places := [];
    } else {
      var n := |rows| - 1;
      var front := CleanedExact(rows[..n]);
      StripBlank(rows[n].title);
      StripTrims(rows[n].title);
      places := front + if Strip(rows[n].title) != "" then [n] else [];
      CleansMore(rows, Cleaned(rows[..n]), front);
    }
  }

  lemma CleansMore(rows: seq<Row>, cleaned: seq<Row>, front: seq<nat>)
    requires rows != [] && CleansTo(rows[..|rows| - 1], cleaned, front)
    ensures var n := |rows| - 1;
            forall c :: TrimmedRow(rows[n], c) ==> CleansTo(rows, cleaned + [c], front + [n])
    ensures Blank(rows[|rows| - 1].title) ==> CleansTo(rows, cleaned, front)
  {
    var n := |rows| - 1;
    forall i: nat | i < |rows| && !Blank(rows[i].title) ensures i in front || i == n {
      if i < n { assert rows[..n][i] == rows[i]; }
    }
    assert forall i: nat :: i in front ==> i in front + [n];
    assert n in front + [n];
  }

  predicate Names(existing: set<Id>, row: Row) {
    row.id.Some? && row.id.value in existing
  }

  /** The units after the first rows of the form are written. */
  function Written(us: seq<Unit>, branch: Id, subject: Id, existing: set<Id>, rows: seq<Row>): (r: seq<Unit>)
    requires forall x <- existing :: x < |us|
    ensures |us| <= |r| <= |us| + |rows|
  {
    if rows == [] then us
    else
      var v, last := Written(us, branch, subject, existing, rows[..|rows| - 1]), rows[|rows| - 1];
      if Names(existing, last) then
        v[last.id.value := v[last.id.value].(title := last.title, order := |rows|)]
      else v + [Unit(branch, subject, last.title, |rows|, true)]
  }

  /** The unit that each row of the form ends up as. */
  function Given(us: seq<Unit>, branch: Id, subject: Id, existing: set<Id>, rows: seq<Row>): (r: seq<Id>)
    requires forall x <- existing :: x < |us|
    ensures |r| == |rows|
    ensures forall k :: 0 <= k < |r| ==> r[k] < |Written(us, branch, subject, existing, rows)|
  {
    if rows == [] then []
    else
      var front, last := rows[..|rows| - 1], rows[|rows| - 1];
      Given(us, branch, subject, existing, front) +
      [if Names(existing, last) then last.id.value else |Written(us, branch, subject, existing, front)|]
  }

  function Removed(us: seq<Unit>, gone: set<Id>): (r: seq<Unit>)
    ensures |r| == |us|
    ensures forall i :: 0 <= i < |us| ==> r[i] == us[i].(live := us[i].live && i !in gone)
  {
    seq(|us|, i requires 0 <= i < |us| => us[i].(live := us[i].live && i !in gone))
  }

  function Forgotten(p: Progress, gone: set<Id>): Progress {
    map k <- p | k.1 !in gone :: p[k]
  }

  function Existing(us: seq<Unit>, branch: Id, subject: Id): (r: set<Id>)
    ensures forall x: Id :: x in r <==> Belongs(us, branch, subject, x)
  {
    Members(UnitsFor(us, branch, subject))
  }

  function Kept(us: seq<Unit>, branch: Id, subject: Id, rows: seq<Row>): set<Id> {
    Members(Given(us, branch, subject, Existing(us, branch, subject), rows))
  }

  function Sync(b: Book, branch: Id, subject: Id, rows: seq<Row>): Book {
    var existing, cleaned := Existing(b.units, branch, subject), Cleaned(rows);
    var gone := existing - Kept(b.units, branch, subject, cleaned);
    Book(Removed(Written(b.units, branch, subject, existing, cleaned), gone), Forgotten(b.progress, gone))
  }

  // ---------------------------------------------------------------- what reconciliation achieves

  /** No unit is named by two rows. */
  ghost predicate NamedOnce(existing: set<Id>, rows: seq<Row>) {
    forall k, l :: 0 <= k < l < |rows| && Names(existing, rows[k]) && Names(existing, rows[l]) ==>
      rows[k].id != rows[l].id
  }

  /** Where each unit stands after the rows are written: v are the units and g those given to the rows. */
  ghost predicate Stands(us: seq<Unit>, branch: Id, subject: Id, existing: set<Id>, rows: seq<Row>,
                         v: seq<Unit>, g: seq<Id>) {
    && |g| == |rows| && |us| <= |v|
    && (forall i: Id :: i < |us| && i !in g ==> v[i] == us[i])
    && (forall i: Id :: |us| <= i < |v| ==> i in g)
    && (forall k :: 0 <= k < |g| ==> Belongs(v, branch, subject, g[k]))
    && (forall k :: 0 <= k < |g| ==> if Names(existing, rows[k]) then g[k] == rows[k].id.value else |us| <= g[k])
    && (forall k, l :: 0 <= k < l < |g| && g[k] == g[l] ==> Names(existing, rows[k]) && Names(existing, rows[l]))
  }

  lemma StandsMore(us: seq<Unit>, branch: Id, subject: Id, existing: set<Id>, rows: seq<Row>, row: Row,
                   v: seq<Unit>, g: seq<Id>)
    requires forall x <- existing :: x < |us| && Belongs(us, branch, subject, x)
    requires Stands(us, branch, subject, existing, rows, v, g)
    ensures Names(existing, row) ==>
              var u := v[row.id.value := v[row.id.value].(title := row.title, order := |rows| + 1)];
              Stands(us, branch, subject, existing, rows + [row], u, g + [row.id.value])
    ensures !Names(existing, row) ==>
              var u := v + [Unit(branch, subject, row.title, |rows| + 1, true)];
              Stands(us, branch, subject, existing, rows + [row], u, g + [|v|])
  {
    if Names(existing, row) {
      var i := row.id.value;
      assert i in g || v[i] == us[i];
      var u := v[i := v[i].(title := row.title, order := |rows| + 1)];
      assert forall x: Id :: x in g + [i] <==> x in g || x == i;
    } else {
      assert forall x: Id :: x in g + [|v|] <==> x in g || x == |v|;
    }
  }

  lemma {:induction false} WrittenUnits(us: seq<Unit>, branch: Id, subject: Id, existing: set<Id>, rows: seq<Row>)
    requires forall x <- existing :: x < |us| && Belongs(us, branch, subject, x)
    ensures Stands(us, branch, subject, existing, rows,
                   Written(us, branch, subject, existing, rows), Given(us, branch, subject, existing, rows))
  {
    if rows != [] {
      var front, last := rows[..|rows| - 1], rows[|rows| - 1];
      WrittenUnits(us, branch, subject, existing, front);
      StandsMore(us, branch, subject, existing, front, last,
                 Written(us, branch, subject, existing, front), Given(us, branch, subject, existing, front));
      assert rows == front + [last];
    }
  }

  ghost predicate Numbered(branch: Id, subject: Id, rows: seq<Row>, v: seq<Unit>, g: seq<Id>) {
    && |g| == |rows| && (forall k :: 0 <= k < |g| ==> g[k] < |v|)
    && (forall k, l :: 0 <= k < l < |g| ==> g[k] != g[l])
    && (forall k :: 0 <= k < |g| ==> v[g[k]] == Unit(branch, subject, rows[k].title, k + 1, true))
  }

  lemma NumberedMore(branch: Id, subject: Id, rows: seq<Row>, v: seq<Unit>, g: seq<Id>, row: Row, u: seq<Unit>, i: Id)
    requires Numbered(branch, subject, rows, v, g) && i !in g && i < |u| && |v| <= |u|
    requires forall x: Id :: x < |v| && x != i ==> u[x] == v[x]
    requires u[i] == Unit(branch, subject, row.title, |rows| + 1, true)
    ensures Numbered(branch, subject, rows + [row], u, g + [i])
  {
  }

  /** A row that is not named before gets a unit that no earlier row got. */
  lemma PlaceIsNew(us: seq<Unit>, branch: Id, subject: Id, existing: set<Id>, rows: seq<Row>, row: Row,
                   v: seq<Unit>, g: seq<Id>)
    requires Stands(us, branch, subject, existing, rows, v, g) && NamedOnce(existing, rows + [row])
    requires forall x <- existing :: x < |us| && Belongs(us, branch, subject, x)
    ensures Names(existing, row) ==> row.id.value !in g && Belongs(v, branch, subject, row.id.value)
    ensures |v| !in g
  {
    if Names(existing, row) {
      forall k | 0 <= k < |g| ensures g[k] != row.id.value {
        assert (rows + [row])[k] == rows[k] && (rows + [row])[|rows|] == row;
      }
      assert v[row.id.value] == us[row.id.value];
    }
  }

  lemma {:induction false} WrittenValues(us: seq<Unit>, branch: Id, subject: Id, existing: set<Id>, rows: seq<Row>)
    requires forall x <- existing :: x < |us| && Belongs(us, branch, subject, x)
    requires NamedOnce(existing, rows)
    ensures Numbered(branch, subject, rows,
                     Written(us, branch, subject, existing, rows), Given(us, branch, subject, existing, rows))
  {
    if rows != [] {
      var front, last := rows[..|rows| - 1], rows[|rows| - 1];
      WrittenValues(us, branch, subject, existing, front);
      WrittenUnits(us, branch, subject, existing, front);
      var v, g := Written(us, branch, subject, existing, front), Given(us, branch, subject, existing, front);
      var i := if Names(existing, last) then last.id.value else |v|;
      assert rows == front + [last];
      PlaceIsNew(us, branch, subject, existing, front, last, v, g);
      assert Names(existing, last) ==> Belongs(v, branch, subject, i);
      NumberedMore(branch, subject, front, v, g, last, Written(us, branch, subject, existing, rows), i);
    }
  }

  /** The active units afterwards are those given to the rows. */
  lemma SyncUnits(b: Book, branch: Id, subject: Id, rows: seq<Row>)
    ensures var v := Sync(b, branch, subject, rows).units;
            var g := Given(b.units, branch, subject, Existing(b.units, branch, subject), Cleaned(rows));
            forall i: Id :: Belongs(v, branch, subject, i) <==> i in g
  {
    var existing, cleaned := Existing(b.units, branch, subject), Cleaned(rows);
    WrittenUnits(b.units, branch, subject, existing, cleaned);
  }

  lemma {:induction false} FewerThanPlaces(a: seq<Id>, g: seq<Id>, us: seq<Unit>, k: nat, l: nat)
    requires Ordered(us, a) && (forall x: Id :: x in a <==> x in g)
    requires k < l < |g| && g[k] == g[l]
    ensures |a| < |g|
  {
    var once := g[..l] + g[l + 1..];
    var s, t := Members(a), Members(once);
    forall x <- a ensures x in once {
      var i :| 0 <= i < |g| && g[i] == x;
      var at := if i == l then k else i;
      assert once[if at < l then at else at - 1] == x;
    }
    NoRepeats(us, a);
    AtMost(once);
    assert s <= t;
    Fewer(s, t);
  }

  lemma {:induction false} NoRepeats(us: seq<Unit>, a: seq<Id>)
    requires Ordered(us, a)
    ensures |Members(a)| == |a|
  {
    if a != [] {
      var n := |a| - 1;
      NoRepeats(us, a[..n]);
      assert a == a[..n] + [a[n]] && a[n] !in a[..n];
      assert Members(a) == Members(a[..n]) + {a[n]};
    }
  }

  lemma {:induction false} AtMost(a: seq<Id>)
    ensures |Members(a)| <= |a|
  {
    if a != [] {
      var n := |a| - 1;
      AtMost(a[..n]);
      assert a == a[..n] + [a[n]];
      assert Members(a) == Members(a[..n]) + {a[n]};
    }
  }

  lemma Fewer(s: set<Id>, t: set<Id>)
    requires s <= t
    ensures |s| <= |t|
  {
    assert t == s + (t - s);
  }

  /** Row k of the form is unit i. */
  ghost predicate Carries(us: seq<Unit>, branch: Id, subject: Id, existing: set<Id>, before: nat, row: Row,
                          k: nat, i: Id) {
    && i < |us| && us[i] == Unit(branch, subject, row.title, k + 1, true)
    && (if Names(existing, row) then row.id == Some(i) else before <= i)
  }

  lemma GivenOrdered(v: seq<Unit>, branch: Id, subject: Id, existing: set<Id>, before: nat, rows: seq<Row>, g: seq<Id>)
    requires |g| == |rows|
    requires forall k :: 0 <= k < |g| ==> Carries(v, branch, subject, existing, before, rows[k], k, g[k])
    requires forall i: Id :: Belongs(v, branch, subject, i) <==> i in g
    ensures UnitsFor(v, branch, subject) == g
  {
    assert forall k :: 0 <= k < |g| ==> v[g[k]].order == k + 1;
    OrderedUnique(v, UnitsFor(v, branch, subject), g);
  }

  lemma GivenCarries(b: Book, branch: Id, subject: Id, existing: set<Id>, rows: seq<Row>, k: nat)
    requires existing == Existing(b.units, branch, subject) && NamedOnce(existing, rows) && k < |rows|
    ensures var v := Written(b.units, branch, subject, existing, rows);
            var g := Given(b.units, branch, subject, existing, rows);
            var gone := existing - Members(g);
            Carries(Removed(v, gone), branch, subject, existing, |b.units|, rows[k], k, g[k])
  {
    WrittenUnits(b.units, branch, subject, existing, rows);
    WrittenValues(b.units, branch, subject, existing, rows);
  }

  /** Read back in order, the units are the non-blank titles of the form numbered from 1, with their old ids
      where the form gave one, as long as no existing unit is named twice. */
  lemma SyncListsForm(b: Book, branch: Id, subject: Id, rows: seq<Row>)
    requires NamedOnce(Existing(b.units, branch, subject), Cleaned(rows))
    ensures var existing, cleaned := Existing(b.units, branch, subject), Cleaned(rows);
            var v := Sync(b, branch, subject, rows).units;
            var listed := UnitsFor(v, branch, subject);
            && |listed| == |cleaned|
            && forall k :: 0 <= k < |cleaned| ==>
                 Carries(v, branch, subject, existing, |b.units|, cleaned[k], k, listed[k])
  {
    var existing, cleaned := Existing(b.units, branch, subject), Cleaned(rows);
    var v := Sync(b, branch, subject, rows).units;
    var g := Given(b.units, branch, subject, existing, cleaned);
    forall k | 0 <= k < |cleaned| ensures Carries(v, branch, subject, existing, |b.units|, cleaned[k], k, g[k]) {
      GivenCarries(b, branch, subject, existing, cleaned, k);
    }
    SyncUnits(b, branch, subject, rows);
    GivenOrdered(v, branch, subject, existing, |b.units|, cleaned, g);
  }

  /** A form that names a unit twice leaves fewer units than rows. */
  lemma SyncLosesRepeats(b: Book, branch: Id, subject: Id, rows: seq<Row>)
    requires !NamedOnce(Existing(b.units, branch, subject), Cleaned(rows))
    ensures |UnitsFor(Sync(b, branch, subject, rows).units, branch, subject)| < |Cleaned(rows)|
  {
    var existing, cleaned := Existing(b.units, branch, subject), Cleaned(rows);
    var v := Sync(b, branch, subject, rows).units;
    var g := Given(b.units, branch, subject, existing, cleaned);
    SyncUnits(b, branch, subject, rows);
    WrittenUnits(b.units, branch, subject, existing, cleaned);
    var k, l :| 0 <= k < l < |cleaned| && Names(existing, cleaned[k]) && Names(existing, cleaned[l])
                && cleaned[k].id == cleaned[l].id;
    FewerThanPlaces(UnitsFor(v, branch, subject), g, v, k, l);
  }

  lemma GivenNamed(us: seq<Unit>, branch: Id, subject: Id, existing: set<Id>, rows: seq<Row>, i: Id)
    requires existing == Existing(us, branch, subject) && i in existing
    ensures i in Given(us, branch, subject, existing, rows) <==> exists r <- rows :: r.id == Some(i)
  {
    var g := Given(us, branch, subject, existing, rows);
    WrittenUnits(us, branch, subject, existing, rows);
    if i in g {
      var k :| 0 <= k < |g| && g[k] == i;
      assert rows[k].id == Some(i);
    }
    if r :| r in rows && r.id == Some(i) {
      var k :| 0 <= k < |rows| && rows[k] == r;
      assert g[k] == i;
    }
  }

  /** Unit i is live and of this branch and subject. */
  ghost predicate InUse(us: seq<Unit>, branch: Id, subject: Id, i: Id) {
    i < |us| && us[i].live && us[i].branch == branch && us[i].subject == subject
  }

  /** Units not in use are as they were; a unit in use keeps its progress unless no row that is not blank
      names it. */
  lemma SyncFrame(b: Book, branch: Id, subject: Id, rows: seq<Row>)
    ensures var c := Sync(b, branch, subject, rows);
            && |b.units| <= |c.units|
            && (forall i: Id :: i < |b.units| && !InUse(b.units, branch, subject, i) ==> c.units[i] == b.units[i])
            && (forall k :: k in c.progress <==>
                  k in b.progress && (InUse(b.units, branch, subject, k.1) ==>
                    exists r <- rows :: !Blank(r.title) && r.id == Some(k.1)))
            && (forall k :: k in c.progress ==> c.progress[k] == b.progress[k])
  {
    forall u: Id ensures (exists r <- Cleaned(rows) :: r.id == Some(u)) <==>
                         (exists r <- rows :: !Blank(r.title) && r.id == Some(u)) {
      CleanedNames(rows, u);
    }
    SyncKeeps(b, branch, subject, rows);
  }

  lemma CleanedNames(rows: seq<Row>, u: Id)
    ensures (exists r <- Cleaned(rows) :: r.id == Some(u)) <==>
            (exists r <- rows :: !Blank(r.title) && r.id == Some(u))
  {
    var places := CleanedExact(rows);
    var cleaned := Cleaned(rows);
    if r :| r in cleaned && r.id == Some(u) {
      var k :| 0 <= k < |cleaned| && cleaned[k] == r;
      assert rows[places[k]] in rows;
    }
    if r :| r in rows && !Blank(r.title) && r.id == Some(u) {
      var i :| 0 <= i < |rows| && rows[i] == r;
      var k :| 0 <= k < |places| && places[k] == i;
      assert cleaned[k] in cleaned;
    }
  }

  lemma SyncKeeps(b: Book, branch: Id, subject: Id, rows: seq<Row>)
    ensures var c, existing := Sync(b, branch, subject, rows), Existing(b.units, branch, subject);
            && |b.units| <= |c.units|
            && (forall i: Id :: i < |b.units| && i !in existing ==> c.units[i] == b.units[i])
            && (forall k :: k in c.progress <==>
                  k in b.progress && (k.1 in existing ==> exists r <- Cleaned(rows) :: r.id == Some(k.1)))
            && (forall k :: k in c.progress ==> c.progress[k] == b.progress[k])
  {
    var existing, cleaned := Existing(b.units, branch, subject), Cleaned(rows);
    OthersKept(b, branch, subject, rows);
    forall i: Id | i in existing
      ensures i in Kept(b.units, branch, subject, cleaned) <==> exists r <- cleaned :: r.id == Some(i)
    {
      GivenNamed(b.units, branch, subject, existing, cleaned, i);
    }
  }

  lemma OthersKept(b: Book, branch: Id, subject: Id, rows: seq<Row>)
    ensures var c, existing := Sync(b, branch, subject, rows), Existing(b.units, branch, subject);
            && |b.units| <= |c.units|
            && forall i: Id :: i < |b.units| && i !in existing ==> c.units[i] == b.units[i]
  {
    WrittenUnits(b.units, branch, subject, Existing(b.units, branch, subject), Cleaned(rows));
  }

  // ---------------------------------------------------------------- completion

  /** Progress speaks only of active units, under their own branch. */
  ghost predicate ProgressLive(b: Book) {
    forall k <- b.progress :: k.1 < |b.units| && b.units[k.1].live && b.units[k.1].branch == b.progress[k]
  }

  ghost function CompletedIds(b: Book, branch: Id, batch: Id, subject: Id): iset<Id> {
    iset u: Id | (batch, u) in b.progress && b.progress[(batch, u)] == branch
                 && u < |b.units| && b.units[u].subject == subject
  }

  function Deleted(b: Book, i: Id): Book
    requires i < |b.units|
  {
    Book(b.units[i := b.units[i].(live := false)], Forgotten(b.progress, {i}))
  }

  function Unticked(p: Progress, batch: Id, listed: seq<Id>, done: set<Id>): Progress {
    map k <- p | !(k.0 == batch && k.1 in listed && k.1 !in done) :: p[k]
  }

  function Ticks(branch: Id, batch: Id, done: set<Id>): Progress {
    map u <- done :: (batch, u) := branch
  }

  /** Rows outside the class and subject stay; within it the done units have a row and the others none. */
  function Marked(p: Progress, branch: Id, batch: Id, listed: seq<Id>, done: set<Id>): Progress {
    Unticked(p, batch, listed, done) + Ticks(branch, batch, Members(listed) * done)
  }

  lemma OneMoreTick(p: Progress, branch: Id, batch: Id, listed: seq<Id>, i: nat, done: set<Id>)
    requires i < |listed|
    ensures p + Ticks(branch, batch, Members(listed[..i + 1]) * done)
            == if listed[i] in done then
                 (p + Ticks(branch, batch, Members(listed[..i]) * done))[(batch, listed[i]) := branch]
               else p + Ticks(branch, batch, Members(listed[..i]) * done)
  {
    assert listed[..i + 1] == listed[..i] + [listed[i]];
    var before, after := Members(listed[..i]) * done, Members(listed[..i + 1]) * done;
    assert after == if listed[i] in done then before + {listed[i]} else before;
  }

  function SetCompletion(b: Book, branch: Id, batch: Id, subject: Id, requested: set<Id>, teaches: bool): Result<Book> {
    if !teaches then Err(Rejected)
    else
      var listed := UnitsFor(b.units, branch, subject);
      Ok(b.(progress := Marked(b.progress, branch, batch, listed, requested * Members(listed))))
  }

  lemma SyncKeepsProgressLive(b: Book, branch: Id, subject: Id, rows: seq<Row>)
    requires ProgressLive(b)
    ensures ProgressLive(Sync(b, branch, subject, rows))
  {
    var existing, cleaned := Existing(b.units, branch, subject), Cleaned(rows);
    WrittenUnits(b.units, branch, subject, existing, cleaned);
    var c, v := Sync(b, branch, subject, rows), Written(b.units, branch, subject, existing, cleaned);
    forall k <- c.progress ensures c.units[k.1].live && c.units[k.1].branch == c.progress[k] {
      assert k in b.progress;
      if k.1 in Given(b.units, branch, subject, existing, cleaned) {
        assert Belongs(v, branch, subject, k.1);
      }
    }
  }

  /** Deleting a unit takes it out of service with all its progress, and touches nothing else. */
  lemma DeleteKeepsProgressLive(b: Book, i: Id)
    requires i < |b.units|
    ensures var c := Deleted(b, i);
            && c.units == b.units[i := b.units[i].(live := false)]
            && (forall k :: k in c.progress <==> k in b.progress && k.1 != i)
            && (forall k :: k in c.progress ==> c.progress[k] == b.progress[k])
            && (ProgressLive(b) ==> ProgressLive(c))
  {
  }

  /** Afterwards the completed units are exactly those requested that are active; every other section and
      subject is untouched. */
  lemma CompletionExact(b: Book, branch: Id, batch: Id, subject: Id, requested: set<Id>)
    requires ProgressLive(b)
    ensures var c := SetCompletion(b, branch, batch, subject, requested, true).value;
            && ProgressLive(c)
            && c.units == b.units
            && (forall u: Id :: InUse(b.units, branch, subject, u) ==>
                  && ((batch, u) in c.progress <==> u in requested)
                  && ((batch, u) in c.progress ==> c.progress[(batch, u)] == branch))
            && (forall u: Id :: u in CompletedIds(c, branch, batch, subject) <==>
                  u in requested && InUse(b.units, branch, subject, u))
            && (forall k: (Id, Id) :: k.0 != batch || !InUse(b.units, branch, subject, k.1) ==>
                  (k in c.progress <==> k in b.progress) && (k in c.progress ==> c.progress[k] == b.progress[k]))
  {
    var c := SetCompletion(b, branch, batch, subject, requested, true).value;
    forall u: Id ensures u in CompletedIds(c, branch, batch, subject) <==>
                         u in requested && InUse(b.units, branch, subject, u) {
      if (batch, u) in b.progress { assert b.units[u].live; }
    }
  }

  // ---------------------------------------------------------------- the percentage

  /** p is a nearest whole percent. */
  predicate Nearest(p: nat, done: nat, total: nat) {
    2 * (p * total) <= 200 * done + total && 200 * done <= 2 * (p * total) + total
  }

  lemma Division(a: nat, d: nat)
    requires d > 0
    ensures a == (a / d) * d + a % d && a % d < d
  {
  }

  /** The source divides in floating point, which may carry an exact tie either way, so ties decides it. */
  function Percent(done: nat, total: nat, ties: bool): (r: nat)
    requires done <= total
    ensures if total == 0 then r == 0 else Nearest(r, done, total)
  {
    if total == 0 then 0
    else
      var q, rest := 100 * done / total, 100 * done % total;
      Division(100 * done, total);
      assert (q + 1) * total == q * total + total;
      if 2 * rest > total || (2 * rest == total && ties) then q + 1 else q
  }

  lemma Scale(a: nat, b: nat, c: nat)
    requires a <= b
    ensures a * c <= b * c
  {
    assert b * c == a * c + (b - a) * c;
  }

  /** Between 0 and 100; an unfinished syllabus shows 100, or a begun one 0, only from 200 units on. */
  lemma PercentBounds(done: nat, total: nat, p: nat)
    requires done <= total && total > 0 && Nearest(p, done, total)
    ensures p <= 100
    ensures done == total ==> p == 100
    ensures done < total && p == 100 ==> total >= 200 * (total - done)
    ensures done > 0 && p == 0 ==> total >= 200 * done
  {
    if p > 100 { Scale(101, p, total); }
    if p < 100 { Scale(p, 99, total); }
  }

  /** The bound is sharp: from 200 units per missing one on, 100 is a nearest percent. */
  lemma HundredShows(done: nat, total: nat)
    requires done <= total && total > 0
    ensures Nearest(100, done, total) <==> total >= 200 * (total - done)
  {
  }

  lemma NearestBelow(p: nat, q: nat, done: nat, more: nat, total: nat)
    requires Nearest(p, done, total) && Nearest(q, more, total) && done < more && total > 0
    ensures p <= q
  {
    assert (q + 1) * total == q * total + total;
    if p > q { Scale(q + 1, p, total); }
  }

  lemma PercentMonotone(done: nat, more: nat, total: nat, ties: bool)
    requires done <= more <= total
    ensures Percent(done, total, ties) <= Percent(more, total, ties)
  {
    if total > 0 && done < more {
      NearestBelow(Percent(done, total, ties), Percent(more, total, ties), done, more, total);
    }
  }

  // ---------------------------------------------------------------- in place

  class Register {
    var units: seq<Unit>
    var progress: Progress

    constructor (b: Book)
      ensures Rows() == b
    {
      units, progress := b.units, b.progress;
    }

    function Rows(): Book
      reads this
    {
      Book(units, progress)
    }

    method CreateUnit(branch: Id, subject: Id, title: string, order: nat) returns (i: Id)
      modifies this`units
      ensures i == |old(units)| && units == old(units) + [Unit(branch, subject, title, order, true)]
    {
      i := |units|;
      units := units + [Unit(branch, subject, title, order, true)];
    }

    method UpdateUnit(i: Id, title: string, order: nat)
      requires i < |units|
      modifies this`units
      ensures units == old(units)[i := old(units)[i].(title := title, order := order)]
    {
      units := units[i := units[i].(title := title, order := order)];
    }

    method DeleteUnit(i: Id)
      requires i < |units|
      modifies this
      ensures Rows() == Deleted(old(Rows()), i)
    {
      units := units[i := units[i].(live := false)];
      progress := map k <- progress | k.1 !in {i} :: progress[k];
    }

    /** The admin form's save. */
    method SyncUnitsForSubject(branch: Id, subject: Id, rows: seq<Row>) returns (listed: seq<Id>)
      modifies this
      ensures Rows() == Sync(old(Rows()), branch, subject, rows)
      ensures listed == UnitsFor(units, branch, subject)
    {
      var cleaned, before := Cleaned(rows), UnitsFor(units, branch, subject);
      var start := units;
      var existing := Members(before);
      assert existing == Existing(start, branch, subject);
      var kept: seq<Id> := [];
      for i := 0 to |cleaned|
        invariant progress == old(progress)
        invariant units == Written(start, branch, subject, existing, cleaned[..i])
        invariant kept == Given(start, branch, subject, existing, cleaned[..i])
      {
        assert cleaned[..i + 1][..i] == cleaned[..i];
        var row := cleaned[i];
        if Names(existing, row) {
          UpdateUnit(row.id.value, row.title, i + 1);
          kept := kept + [row.id.value];
        } else {
          var created := CreateUnit(branch, subject, row.title, i + 1);
          kept := kept + [created];
        }
      }
      assert cleaned[..|cleaned|] == cleaned;
      DeleteMissing(before, Members(kept));
      assert Members(before) - Members(kept) == existing - Kept(start, branch, subject, cleaned);
      listed := UnitsFor(units, branch, subject);
    }

    method DeleteMissing(before: seq<Id>, kept: set<Id>)
      requires forall k :: 0 <= k < |before| ==> before[k] < |units|
      modifies this
      ensures units == Removed(old(units), Members(before) - kept)
      ensures progress == Forgotten(old(progress), Members(before) - kept)
    {
      for i := 0 to |before|
        invariant units == Removed(old(units), Members(before[..i]) - kept)
        invariant progress == Forgotten(old(progress), Members(before[..i]) - kept)
      {
        assert before[..i + 1] == before[..i] + [before[i]];
        if before[i] !in kept {
          DeleteUnit(before[i]);
          assert Members(before[..i + 1]) - kept == Members(before[..i]) - kept + {before[i]};
        } else {
          assert Members(before[..i + 1]) - kept == Members(before[..i]) - kept;
        }
      }
      assert before[..|before|] == before;
    }

    /** Clears the class's rows for units not completed, then writes one row for each completed unit. */
    method SetClassCompletion(branch: Id, batch: Id, subject: Id, requested: set<Id>, teaches: bool) returns (ok: bool)
      modifies this`progress
      ensures ok == teaches
      ensures Rows() == if teaches then SetCompletion(old(Rows()), branch, batch, subject, requested, true).value
                        else old(Rows())
    {
      if !teaches { return false; }
      var listed := UnitsFor(units, branch, subject);
      var done := requested * Members(listed);
      progress := Unticked(progress, batch, listed, done);
      ghost var cleared := progress;
      for i := 0 to |listed|
        invariant progress == cleared + Ticks(branch, batch, Members(listed[..i]) * done)
      {
        OneMoreTick(cleared, branch, batch, listed, i, done);
        if listed[i] in done {
          progress := progress[(batch, listed[i]) := branch];
        }
      }
      assert listed[..|listed|] == listed;
      ok := true;
    }
  }
}
