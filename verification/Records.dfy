/** The rows of one branch, as values.

    Tables whose rows are only ever soft-deleted are sequences: a row's id is its index,
    creating a row appends it, and index order is creation order.  Names matter to the code
    only through equality and sort order, so a name is its rank in that order. */
module Records {
  type Id = nat

  /** Rank of a name in collation order; rank 0 is the blank name. */
  type Name = nat

  const BLANK: Name := 0

  datatype Option<+T> = None | Some(value: T)

  datatype Error =
    | NotFound
    | Denied
    | Rejected
    | Integrity
    | OtherRunning(session: Id)
    | Crash

  datatype Result<+T> = Ok(value: T) | Err(error: Error)

  datatype Action = Promote | Retain | Graduate | TransferOut | Withdraw | ManualReview | Pending

  /** The four values shared by a student's academic status and an enrollment's status. */
  datatype Standing = Active | Graduated | Transferred | Withdrawn

  datatype Readiness = Ready | Blocked

  datatype BlockReason =
    | PendingPrerequisites
    | ManualReviewRequired
    | NotActive
    | MissingEnrollment
    | DuplicateEnrollment
    | MissingClass
    | MissingSection
    | InvalidSection
    | MissingFee

  datatype Year = Year(name: Name, version: nat, current: bool, frozen: bool, live: bool)

  /** local says that the course's department belongs to the modelled branch. */
  datatype Course = Course(department: Id, name: Name, live: bool, local: bool)

  datatype Batch = Batch(course: Id, year: Id, name: Name, version: nat, live: bool)

  datatype Profile = Profile(status: Standing, batch: Option<Id>, enrollment: Option<Id>, live: bool)

  datatype Enrollment = Enrollment(
    profile: Id, year: Id, batch: Option<Id>, status: Standing, backlog: seq<Id>, live: bool)

  datatype Fee = Fee(name: Name, batch: Option<Id>, year: Id, published: bool, version: nat, live: bool)

  datatype RolloverStatus = RollPending | RollRunning | RollSucceeded | RollCompensated

  /** What a rollover remembers of one rostered student before it moves anyone. */
  datatype Placement = Placement(profile: Id, batch: Option<Id>, status: Standing)

  /** What a rollover did to one student. */
  datatype Movement = Movement(profile: Id, prior: Id, created: Option<Id>)

  datatype Snapshot = Snapshot(placements: seq<Placement>, movements: seq<Movement>)

  datatype RolloverRun = RolloverRun(
    from: Id, to: Option<Id>, status: RolloverStatus, snapshot: Snapshot, expires: Option<nat>)

  datatype Decision = Decision(
    profile: Id, course: Option<Id>, batch: Option<Id>, section: Name,
    recommended: Action, final: Action, overridden: bool,
    targetCourse: Option<Id>, targetBatch: Option<Id>, targetSection: Name,
    fee: Option<Id>, readiness: Option<Readiness>, reasons: seq<BlockReason>)

  /** All the tables of one branch.  arrears gives the open arrear subjects of an enrollment. */
  datatype World = World(
    years: seq<Year>, courses: seq<Course>, batches: seq<Batch>,
    profiles: seq<Profile>, enrollments: seq<Enrollment>, fees: seq<Fee>,
    rollovers: seq<RolloverRun>, arrears: map<Id, seq<Id>>, college: bool)

  predicate Executable(a: Action) {
    a != Pending && a != ManualReview
  }

  predicate Moves(a: Action) {
    a == Promote || a == Retain
  }

  // ---------------------------------------------------------------- look-ups

  predicate ActiveIn(e: Enrollment, p: Id, y: Id) {
    e.live && e.profile == p && e.year == y
  }

  /** The newest live enrollment of a student in a year. */
  function ActiveEnrollment(es: seq<Enrollment>, p: Id, y: Id): (r: Option<Id>)
    ensures r.Some? ==> r.value < |es| && ActiveIn(es[r.value], p, y)
    ensures r.Some? ==> forall j :: r.value < j < |es| ==> !ActiveIn(es[j], p, y)
    ensures r.None? ==> forall j :: 0 <= j < |es| ==> !ActiveIn(es[j], p, y)
  {
    if es == [] then None
    else if ActiveIn(es[|es| - 1], p, y) then Some(|es| - 1)
    else ActiveEnrollment(es[..|es| - 1], p, y)
  }

  predicate IsLocalBatch(w: World, id: Id) {
    id < |w.batches| && w.batches[id].live &&
    w.batches[id].course < |w.courses| && w.courses[w.batches[id].course].local
  }

  /** A live section of this branch, or nothing. */
  function GetBatch(w: World, id: Option<Id>): (r: Option<Id>)
    ensures r.Some? ==> r == id && IsLocalBatch(w, r.value)
    ensures r.None? && id.Some? ==> !IsLocalBatch(w, id.value)
  {
    if id.Some? && IsLocalBatch(w, id.value) then id else None
  }

  function OpenArrears(w: World, enrollment: Id): seq<Id> {
    if w.college && enrollment in w.arrears then w.arrears[enrollment] else []
  }

  /** What row e takes into the next year: its open arrears in a college, elsewhere nothing. */
  predicate CarriesOver(w: World, e: Id, backlog: seq<Id>) {
    && (w.college && e in w.arrears ==> backlog == w.arrears[e])
    && (!w.college || e !in w.arrears ==> backlog == [])
  }

  /** The database constraint: one live enrollment per student and year. */
  ghost predicate UniqueEnrollments(es: seq<Enrollment>) {
    forall i, j :: 0 <= i < j < |es| && es[i].live && es[j].live ==>
      es[i].profile != es[j].profile || es[i].year != es[j].year
  }

  lemma ActiveEnrollmentIs(es: seq<Enrollment>, i: Id)
    requires UniqueEnrollments(es) && i < |es| && es[i].live
    ensures ActiveEnrollment(es, es[i].profile, es[i].year) == Some(i)
  {
    var r := ActiveEnrollment(es, es[i].profile, es[i].year);
    assert ActiveIn(es[i], es[i].profile, es[i].year);
  }

  lemma AddKeepsUnique(es: seq<Enrollment>, e: Enrollment)
    requires UniqueEnrollments(es) && ActiveEnrollment(es, e.profile, e.year).None?
    ensures UniqueEnrollments(es + [e])
  {
    var r := ActiveEnrollment(es, e.profile, e.year);
    assert forall j :: 0 <= j < |es| ==> !ActiveIn(es[j], e.profile, e.year);
  }

  lemma CloseKeepsUnique(es: seq<Enrollment>, i: nat, row: Enrollment)
    requires UniqueEnrollments(es) && i < |es| && !row.live
    ensures UniqueEnrollments(es[i := row])
  {
  }
}
