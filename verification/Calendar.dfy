/** Academic years of one branch: at most one of them is current. */
module Calendar {
  import opened Records

  /** The database constraint: one current year per branch, deleted years included. */
  ghost predicate AtMostOneCurrent(ys: seq<Year>) {
    forall i, j :: 0 <= i < j < |ys| ==> !(ys[i].current && ys[j].current)
  }

  /** The live current year. */
  function CurrentYear(ys: seq<Year>): (r: Option<Id>)
    ensures r.Some? ==> r.value < |ys| && ys[r.value].current && ys[r.value].live
    ensures r.None? ==> forall i :: 0 <= i < |ys| ==> !(ys[i].current && ys[i].live)
  {
    if ys == [] then None
    else if ys[|ys| - 1].current && ys[|ys| - 1].live then Some(|ys| - 1)
    else CurrentYear(ys[..|ys| - 1])
  }

  function ClearCurrent(ys: seq<Year>): (r: seq<Year>)
    ensures |r| == |ys|
    ensures forall i :: 0 <= i < |ys| ==> r[i] == ys[i].(current := false)
  {
    seq(|ys|, i requires 0 <= i < |ys| => ys[i].(current := false))
  }

  /** Names are unique over live and deleted years; the caller's own check sees live ones only. */
  predicate NameTaken(ys: seq<Year>, name: Name) {
    exists i :: 0 <= i < |ys| && ys[i].name == name
  }

  predicate LiveNameTaken(ys: seq<Year>, name: Name) {
    exists i :: 0 <= i < |ys| && ys[i].live && ys[i].name == name
  }

  function CreateYear(ys: seq<Year>, name: Name, current: bool): Result<seq<Year>> {
    if NameTaken(ys, name) then Err(Integrity)
    else Ok((if current then ClearCurrent(ys) else ys) + [Year(name, 1, current, false, true)])
  }

  function SetCurrentYear(ys: seq<Year>, y: Id): (r: seq<Year>)
    requires y < |ys|
    ensures |r| == |ys|
  {
    var row := ys[y];
    ClearCurrent(ys)[y := row.(current := true, version := row.version + 1)]
  }

  function FreezeYear(ys: seq<Year>, y: Id): (r: seq<Year>)
    requires y < |ys|
    ensures |r| == |ys|
  {
    ys[y := ys[y].(frozen := true, version := ys[y].version + 1)]
  }

  function SoftDeleteYear(ys: seq<Year>, y: Id): seq<Year>
    requires y < |ys|
  {
    ys[y := ys[y].(live := false, version := ys[y].version + 1)]
  }

  /** The year switch of a promotion: freeze the source, make the target current. */
  function ActivateTarget(ys: seq<Year>, source: Id, target: Id): seq<Year>
    requires source < |ys| && target < |ys|
  {
    SetCurrentYear(FreezeYear(ys, source), target)
  }

  /** The new year of an undone rollover loses its flag and is deleted, in one save. */
  function DropYear(ys: seq<Year>, y: Id): (r: seq<Year>)
    requires y < |ys|
    ensures |r| == |ys|
  {
    ys[y := ys[y].(current := false, live := false)]
  }

  /** Unfreezes a year and makes it current; refused while another year is current. */
  function ReactivateYear(ys: seq<Year>, y: Id): (r: Result<seq<Year>>)
    requires y < |ys|
    ensures r.Ok? ==> |r.value| == |ys|
  {
    if exists i :: 0 <= i < |ys| && i != y && ys[i].current then Err(Integrity)
    else Ok(ys[y := ys[y].(frozen := false, current := true)])
  }

  /** The year part of undoing a rollover.  The new year loses its flag first; a third year that
      became current meanwhile makes the second save violate the constraint. */
  function UndoYears(ys: seq<Year>, from: Id, to: Id): Result<seq<Year>>
    requires from < |ys| && to < |ys|
  {
    ReactivateYear(DropYear(ys, to), from)
  }

  datatype YearOp =
    | Create(name: Name, current: bool)
    | SetCurrent(year: Id)
    | Freeze(year: Id)
    | SoftDelete(year: Id)
    | Flip(source: Id, target: Id)
    | Rollover(name: Name)
    | Undo(from: Id, to: Id)

  /** One calendar operation; a refused one leaves the years as they were. */
  function Step(ys: seq<Year>, op: YearOp): seq<Year> {
    match op
    case Create(name, current) =>
      var r := CreateYear(ys, name, current);
      if r.Ok? then r.value else ys
    case SetCurrent(y) => if y < |ys| then SetCurrentYear(ys, y) else ys
    case Freeze(y) => if y < |ys| then FreezeYear(ys, y) else ys
    case SoftDelete(y) => if y < |ys| then SoftDeleteYear(ys, y) else ys
    case Flip(s, t) => if s < |ys| && t < |ys| then ActivateTarget(ys, s, t) else ys
    case Rollover(name) =>
      var r := CreateYear(ys, name, true);
      var c := CurrentYear(ys);
      if r.Ok? && c.Some? then ActivateTarget(r.value, c.value, |ys|) else ys
    case Undo(from, to) =>
      if from < |ys| && to < |ys| then
        var r := UndoYears(ys, from, to);
        if r.Ok? then r.value else ys
      else ys
  }

  function Run(ys: seq<Year>, ops: seq<YearOp>): seq<Year> {
    if ops == [] then ys else Step(Run(ys, ops[..|ops| - 1]), ops[|ops| - 1])
  }

  lemma StepKeepsOneCurrent(ys: seq<Year>, op: YearOp)
    requires AtMostOneCurrent(ys)
    ensures AtMostOneCurrent(Step(ys, op))
  {
  }

  lemma {:induction false} OneCurrentAlways(ys: seq<Year>, ops: seq<YearOp>)
    requires AtMostOneCurrent(ys)
    ensures AtMostOneCurrent(Run(ys, ops))
  {
    if ops != [] {
      OneCurrentAlways(ys, ops[..|ops| - 1]);
      StepKeepsOneCurrent(Run(ys, ops[..|ops| - 1]), ops[|ops| - 1]);
    }
  }

  /** Names of years, deleted ones included, are told apart. */
  ghost predicate NamesDiffer(ys: seq<Year>) {
    forall i, j :: 0 <= i < j < |ys| ==> ys[i].name != ys[j].name
  }

  /** What the single saves do to each row: a year is created exactly under a name no row has, and, when it is
      to be current, as the only current one; setting a year current leaves it the only one; deleting a year
      takes it out of service without touching its current flag. */
  lemma SavesExact(ys: seq<Year>, name: Name, current: bool, y: Id)
    ensures var r := CreateYear(ys, name, current);
            && (r.Ok? <==> forall i :: 0 <= i < |ys| ==> ys[i].name != name)
            && (r.Ok? ==>
                  && |r.value| == |ys| + 1 && r.value[|ys|] == Year(name, 1, current, false, true)
                  && forall i :: 0 <= i < |ys| ==>
                       r.value[i] == ys[i].(current := if current then false else ys[i].current))
    ensures y < |ys| ==>
              && (forall i :: 0 <= i < |ys| ==>
                    SetCurrentYear(ys, y)[i] ==
                    ys[i].(current := i == y, version := if i == y then ys[i].version + 1 else ys[i].version))
              && (forall i :: 0 <= i < |ys| ==>
                    FreezeYear(ys, y)[i] ==
                    if i == y then ys[i].(frozen := true, version := ys[i].version + 1) else ys[i])
              && |SoftDeleteYear(ys, y)| == |ys|
              && (forall i :: 0 <= i < |ys| ==>
                    SoftDeleteYear(ys, y)[i] ==
                    if i == y then ys[i].(live := false, version := ys[i].version + 1) else ys[i])
  {
  }

  /** Rows keep their names, and at most one is new, under a name no row has. */
  ghost predicate AddsName(ys: seq<Year>, rs: seq<Year>) {
    && |ys| <= |rs| <= |ys| + 1
    && (forall i :: 0 <= i < |ys| ==> rs[i].name == ys[i].name)
    && (|rs| > |ys| ==> forall i :: 0 <= i < |ys| ==> ys[i].name != rs[|ys|].name)
  }

  lemma StepAddsName(ys: seq<Year>, op: YearOp)
    ensures AddsName(ys, Step(ys, op))
  {
    match op
    case Create(name, current) => SavesExact(ys, name, current, 0);
    case Rollover(name) => SavesExact(ys, name, true, 0);
    case _ =>
  }

  lemma NamesKept(ys: seq<Year>, rs: seq<Year>)
    requires NamesDiffer(ys) && AddsName(ys, rs)
    ensures NamesDiffer(rs)
  {
  }

  /** Over any sequence of year operations names stay apart. */
  lemma {:induction false} NamesStayApart(ys: seq<Year>, ops: seq<YearOp>)
    requires NamesDiffer(ys)
    ensures NamesDiffer(Run(ys, ops))
  {
    if ops != [] {
      NamesStayApart(ys, ops[..|ops| - 1]);
      StepAddsName(Run(ys, ops[..|ops| - 1]), ops[|ops| - 1]);
      NamesKept(Run(ys, ops[..|ops| - 1]), Run(ys, ops));
    }
  }

  /** After a promotion's year switch the target is the one current year and the source is frozen;
      no other year's frozen or live flag moved, and the two saved rows have a new version each. */
  lemma FlipResult(ys: seq<Year>, source: Id, target: Id)
    requires source < |ys| && target < |ys|
    ensures var r := ActivateTarget(ys, source, target);
            && |r| == |ys|
            && (forall i :: 0 <= i < |ys| ==> (r[i].current <==> i == target))
            && (forall i :: 0 <= i < |ys| ==> (r[i].frozen <==> ys[i].frozen || i == source))
            && (forall i :: 0 <= i < |ys| ==> r[i].live == ys[i].live && r[i].name == ys[i].name)
            && (forall i :: 0 <= i < |ys| ==>
                  r[i].version == ys[i].version + (if i == source then 1 else 0) + if i == target then 1 else 0)
  {
  }

  /** Undo is accepted exactly when no year outside the pair is current. */
  lemma UndoYearsAccepted(ys: seq<Year>, from: Id, to: Id)
    requires from < |ys| && to < |ys|
    ensures UndoYears(ys, from, to).Ok? <==>
            forall i :: 0 <= i < |ys| && ys[i].current ==> i == from || i == to
  {
    var dropped := DropYear(ys, to);
    if UndoYears(ys, from, to).Err? {
      var i :| 0 <= i < |dropped| && i != from && dropped[i].current;
      assert ys[i].current;
    } else {
      forall i | 0 <= i < |ys| && ys[i].current ensures i == from || i == to {
        assert i != to ==> dropped[i].current;
      }
    }
  }

  /** Saving the old year as current before the new one lost its flag is what the constraint refuses. */
  lemma ReactivatingFirstRefused(ys: seq<Year>, from: Id, to: Id)
    requires from < |ys| && to < |ys| && from != to && ys[to].current
    ensures ReactivateYear(ys, from).Err?
    ensures AtMostOneCurrent(ys) ==> UndoYears(ys, from, to).Ok?
  {
    UndoYearsAccepted(ys, from, to);
    forall i: Id | i < |ys| && ys[i].current && AtMostOneCurrent(ys) ensures i == to {
      if i != to { OnlyOne(ys, i, to); }
    }
  }

  lemma OnlyOne(ys: seq<Year>, i: Id, j: Id)
    requires AtMostOneCurrent(ys) && i < |ys| && j < |ys| && i != j && ys[i].current
    ensures !ys[j].current
  {
    var a, b := if i < j then i else j, if i < j then j else i;
    assert !(ys[a].current && ys[b].current);
  }
}
