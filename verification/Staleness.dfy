/** The fingerprint taken when preparation is locked, and the comparison that detects drift. */
module Staleness {
  import opened Records
  import opened Execution
  import opened Validation

  datatype Mapping = Mapping(source: Id, target: Id)

  datatype YearPrint = YearPrint(id: Id, version: nat, current: bool, frozen: bool, live: bool)

  datatype BatchPrint =
    | GoneBatch(id: Id)
    | BatchPrint(id: Id, version: nat, live: bool, year: Id, name: Name)

  datatype FeePrint =
    | GoneFee(id: Id)
    | FeePrint(id: Id, version: nat, published: bool, live: bool)

  datatype DecisionPrint = DecisionPrint(
    decision: Id, profile: Id, status: Option<Standing>, batch: Option<Id>,
    enrollment: Option<Id>, enrollmentStatus: Option<Standing>,
    target: Option<Id>, readiness: Option<Readiness>, final: Action)

  datatype Fingerprint = Fingerprint(
    sourceYear: Option<YearPrint>, targetYear: Option<YearPrint>,
    mappings: seq<Mapping>, decisions: seq<DecisionPrint>, fees: seq<FeePrint>)

  datatype Change =
    | FingerprintMissing | SourceYearModified | TargetYearModified | MappingsChanged
    | DecisionRemoved | StudentLeft | ClassChanged | SectionRemoved | SectionChanged | FeeEdited

  // ---------------------------------------------------------------- building

  function PrintYear(w: World, y: Id): Option<YearPrint> {
    if y >= |w.years| then Option.None
    else
      var r := w.years[y];
      Some(YearPrint(y, r.version, r.current, r.frozen, r.live))
  }

  function PrintBatch(w: World, b: Id): (r: BatchPrint)
    ensures r.id == b
  {
    if b >= |w.batches| then GoneBatch(b)
    else
      var r := w.batches[b];
      BatchPrint(b, r.version, r.live, r.year, r.name)
  }

  function PrintFee(w: World, f: Id): (r: FeePrint)
    ensures r.id == f
  {
    if f >= |w.fees| then GoneFee(f)
    else
      var r := w.fees[f];
      FeePrint(f, r.version, r.published, r.live)
  }

  function PrintDecision(w: World, source: Id, d: Decision, id: Id): (r: DecisionPrint)
    ensures r.decision == id
  {
    var profile := ProfileAt(w, d.profile);
    var enrollment := ActiveEnrollment(w.enrollments, d.profile, source);
    DecisionPrint(
      id, d.profile,
      if profile.Some? then Some(profile.value.status) else Option.None,
      if profile.Some? then profile.value.batch else Option.None,
      enrollment,
      if enrollment.Some? then Some(w.enrollments[enrollment.value].status) else Option.None,
      d.targetBatch, d.readiness, d.final)
  }

  function PrintDecisions(w: World, source: Id, ds: seq<Decision>): (r: seq<DecisionPrint>)
    ensures |r| == |ds|
    ensures forall i :: 0 <= i < |ds| ==> r[i] == PrintDecision(w, source, ds[i], i)
  {
    seq(|ds|, i requires 0 <= i < |ds| => PrintDecision(w, source, ds[i], i))
  }

  predicate HasFee(fs: seq<FeePrint>, id: Id) {
    exists i :: 0 <= i < |fs| && fs[i].id == id
  }

  /** One print per fee structure in use, in order of first use. */
  function PrintFees(w: World, ds: seq<Decision>): seq<FeePrint> {
    if ds == [] then []
    else
      var rest, fee := PrintFees(w, ds[..|ds| - 1]), ds[|ds| - 1].fee;
      if fee.None? || HasFee(rest, fee.value) then rest else rest + [PrintFee(w, fee.value)]
  }

  function Build(w: World, plan: Plan, mappings: seq<Mapping>): Fingerprint {
    Fingerprint(PrintYear(w, plan.source), PrintYear(w, plan.target), mappings,
                PrintDecisions(w, plan.source, plan.decisions), PrintFees(w, plan.decisions))
  }

  method BuildFingerprint(w: World, plan: Plan, mappings: seq<Mapping>) returns (fp: Fingerprint)
    ensures fp == Build(w, plan, mappings)
  {
    var maps := [];
    for i := 0 to |mappings|
      invariant maps == mappings[..i]
    {
      maps := maps + [mappings[i]];
    }
    var ds := plan.decisions;
    var prints, fees := [], [];
    for i := 0 to |ds|
      invariant prints == PrintDecisions(w, plan.source, ds)[..i]
      invariant fees == PrintFees(w, ds[..i])
    {
      prints := prints + [PrintDecision(w, plan.source, ds[i], i)];
      if ds[i].fee.Some? && !HasFee(fees, ds[i].fee.value) {
        fees := fees + [PrintFee(w, ds[i].fee.value)];
      }
      assert ds[..i + 1][..i] == ds[..i];
    }
    assert ds[..|ds|] == ds && mappings[..|mappings|] == mappings;
    fp := Fingerprint(PrintYear(w, plan.source), PrintYear(w, plan.target), maps, prints, fees);
  }

  // ---------------------------------------------------------------- comparing

  datatype Drift = NoDrift | Removed | Changed | Crashes

  /** Both sides are looked up now, so the lock-time state of a section is never compared.  A section
      on one side only makes the look-up of a field fail, unless the other row is missing. */
  function BatchDrift(w: World, stored: Option<Id>, live: Option<Id>): Drift {
    if stored.None? && live.None? then NoDrift
    else if stored.None? then Crashes
    else
      var s := PrintBatch(w, stored.value);
      if s.GoneBatch? then Removed
      else if live.None? then Crashes
      else
        var l := PrintBatch(w, live.value);
        if l.GoneBatch? then Removed else if s != l then Changed else NoDrift
  }

  function Find(ds: seq<DecisionPrint>, id: Id): (r: Option<DecisionPrint>)
    ensures r.Some? ==> r.value in ds && r.value.decision == id
    ensures r.None? ==> forall i :: 0 <= i < |ds| ==> ds[i].decision != id
  {
    if ds == [] then Option.None
    else if ds[|ds| - 1].decision == id then Some(ds[|ds| - 1])
    else Find(ds[..|ds| - 1], id)
  }

  function FindFee(fs: seq<FeePrint>, id: Id): (r: Option<FeePrint>)
    ensures r.Some? ==> r.value in fs && r.value.id == id
    ensures r.None? ==> !HasFee(fs, id)
  {
    if fs == [] then Option.None
    else if fs[|fs| - 1].id == id then Some(fs[|fs| - 1])
    else FindFee(fs[..|fs| - 1], id)
  }

  function MappingSet(ms: seq<Mapping>): set<Mapping> {
    set m | m in ms
  }

  function YearChanges(stored: Fingerprint, live: Fingerprint): seq<Change> {
    (if stored.sourceYear != live.sourceYear then [SourceYearModified] else []) +
    (if stored.targetYear != live.targetYear then [TargetYearModified] else []) +
    (if MappingSet(stored.mappings) != MappingSet(live.mappings) then [MappingsChanged] else [])
  }

  /** The changes after looking at one more stored decision. */
  function DecisionChange(w: World, sd: DecisionPrint, ld: Option<DecisionPrint>, acc: seq<Change>)
    : Result<seq<Change>>
  {
    if ld.None? then Ok(acc + [DecisionRemoved])
    else
      var a := acc + (if sd.status != ld.value.status then [StudentLeft] else [])
                   + (if sd.batch != ld.value.batch then [ClassChanged] else []);
      match BatchDrift(w, sd.target, ld.value.target)
      case Crashes => Err(Crash)
      case NoDrift => Ok(a)
      case Removed => Ok(if SectionRemoved in a then a else a + [SectionRemoved])
      case Changed => Ok(if SectionChanged in a then a else a + [SectionChanged])
  }

  function DecisionChanges(w: World, sds: seq<DecisionPrint>, lds: seq<DecisionPrint>, acc: seq<Change>)
    : Result<seq<Change>>
  {
    if sds == [] then Ok(acc)
    else
      var sd := sds[|sds| - 1];
      match DecisionChanges(w, sds[..|sds| - 1], lds, acc)
      case Err(e) => Err(e)
      case Ok(a) => DecisionChange(w, sd, Find(lds, sd.decision), a)
  }

  function FeeChanges(stored: seq<FeePrint>, live: seq<FeePrint>, acc: seq<Change>): seq<Change> {
    if stored == [] then acc
    else
      var sf := stored[|stored| - 1];
      FeeChanges(stored[..|stored| - 1], live, acc) +
      if FindFee(live, sf.id) != Some(sf) then [FeeEdited] else []
  }

  /** The messages of the comparison, or the exception it raises. */
  function Compare(w: World, stored: Option<Fingerprint>, live: Fingerprint): Result<seq<Change>> {
    if stored.None? then Ok([FingerprintMissing])
    else
      match DecisionChanges(w, stored.value.decisions, live.decisions, YearChanges(stored.value, live))
      case Err(e) => Err(e)
      case Ok(a) => Ok(FeeChanges(stored.value.fees, live.fees, a))
  }

  method CompareFingerprints(w: World, stored: Option<Fingerprint>, live: Fingerprint)
    returns (r: Result<seq<Change>>)
    ensures r == Compare(w, stored, live)
  {
    if stored.None? { return Ok([FingerprintMissing]); }
    var fp := stored.value;
    var start := YearChanges(fp, live);
    var changes := start;
    for i := 0 to |fp.decisions|
      invariant DecisionChanges(w, fp.decisions[..i], live.decisions, start) == Ok(changes)
    {
      var sd := fp.decisions[i];
      var next := DecisionChange(w, sd, Find(live.decisions, sd.decision), changes);
      assert fp.decisions[..i + 1][..i] == fp.decisions[..i];
      if next.Err? {
        ErrorSticks(w, fp.decisions, live.decisions, start, i + 1);
        return Err(next.error);
      }
      changes := next.value;
    }
    assert fp.decisions[..|fp.decisions|] == fp.decisions;
    var before := changes;
    for i := 0 to |fp.fees|
      invariant changes == FeeChanges(fp.fees[..i], live.fees, before)
    {
      if FindFee(live.fees, fp.fees[i].id) != Some(fp.fees[i]) { changes := changes + [FeeEdited]; }
      assert fp.fees[..i + 1][..i] == fp.fees[..i];
    }
    assert fp.fees[..|fp.fees|] == fp.fees;
    r := Ok(changes);
  }

  lemma {:induction false} ErrorSticks(w: World, sds: seq<DecisionPrint>, lds: seq<DecisionPrint>,
                                       acc: seq<Change>, n: nat)
    requires n <= |sds| && DecisionChanges(w, sds[..n], lds, acc).Err?
    ensures DecisionChanges(w, sds, lds, acc) == DecisionChanges(w, sds[..n], lds, acc)
  {
    if n < |sds| {
      assert sds[..|sds| - 1][..n] == sds[..n];
      ErrorSticks(w, sds[..|sds| - 1], lds, acc, n);
    } else {
      assert sds[..n] == sds;
    }
  }

  // ---------------------------------------------------------------- what no message means

  /** The same existing section on both sides, or none on either. */
  predicate SameSection(w: World, stored: Option<Id>, live: Option<Id>) {
    stored == live && (stored.Some? ==> stored.value < |w.batches|)
  }

  predicate SameStudent(w: World, sd: DecisionPrint, ld: Option<DecisionPrint>) {
    && ld.Some? && sd.status == ld.value.status && sd.batch == ld.value.batch
    && SameSection(w, sd.target, ld.value.target)
  }

  ghost predicate Unchanged(w: World, stored: Fingerprint, live: Fingerprint) {
    && stored.sourceYear == live.sourceYear && stored.targetYear == live.targetYear
    && MappingSet(stored.mappings) == MappingSet(live.mappings)
    && (forall sd :: sd in stored.decisions ==> SameStudent(w, sd, Find(live.decisions, sd.decision)))
    && (forall sf :: sf in stored.fees ==> FindFee(live.fees, sf.id) == Some(sf))
  }

  lemma ChangeQuiet(w: World, sd: DecisionPrint, ld: Option<DecisionPrint>, acc: seq<Change>)
    ensures var r := DecisionChange(w, sd, ld, acc);
            && (r.Ok? ==> |r.value| >= |acc|)
            && (r == Ok([]) <==> acc == [] && SameStudent(w, sd, ld))
  {
  }

  lemma {:induction false} DecisionsQuiet(w: World, sds: seq<DecisionPrint>, lds: seq<DecisionPrint>, acc: seq<Change>)
    ensures var r := DecisionChanges(w, sds, lds, acc);
            && (r.Ok? ==> |r.value| >= |acc|)
            && (r == Ok([]) <==> acc == [] && forall sd :: sd in sds ==> SameStudent(w, sd, Find(lds, sd.decision)))
  {
    if sds != [] {
      var front, sd := sds[..|sds| - 1], sds[|sds| - 1];
      DecisionsQuiet(w, front, lds, acc);
      assert sds == front + [sd];
      var a := DecisionChanges(w, front, lds, acc);
      if a.Ok? { ChangeQuiet(w, sd, Find(lds, sd.decision), a.value); }
    }
  }

  lemma {:induction false} FeesQuiet(stored: seq<FeePrint>, live: seq<FeePrint>, acc: seq<Change>)
    ensures FeeChanges(stored, live, acc) == [] <==>
            acc == [] && forall sf :: sf in stored ==> FindFee(live, sf.id) == Some(sf)
  {
    if stored != [] {
      FeesQuiet(stored[..|stored| - 1], live, acc);
      assert stored == stored[..|stored| - 1] + [stored[|stored| - 1]];
    }
  }

  /** The comparison is silent exactly when the plan it would execute is the plan that was locked. */
  lemma SilentMeansUnchanged(w: World, stored: Option<Fingerprint>, live: Fingerprint)
    ensures Compare(w, stored, live) == Ok([]) <==> stored.Some? && Unchanged(w, stored.value, live)
  {
    if stored.Some? {
      var start := YearChanges(stored.value, live);
      DecisionsQuiet(w, stored.value.decisions, live.decisions, start);
      var r := DecisionChanges(w, stored.value.decisions, live.decisions, start);
      if r.Ok? { FeesQuiet(stored.value.fees, live.fees, r.value); }
    }
  }

  /** What makes the comparison report a change. */
  ghost predicate Reported(w: World, stored: Fingerprint, live: Fingerprint, c: Change) {
    match c
    case FingerprintMissing => false
    case SourceYearModified => stored.sourceYear != live.sourceYear
    case TargetYearModified => stored.targetYear != live.targetYear
    case MappingsChanged => MappingSet(stored.mappings) != MappingSet(live.mappings)
    case FeeEdited => exists sf <- stored.fees :: FindFee(live.fees, sf.id) != Some(sf)
    case _ => exists sd <- stored.decisions :: Differs(w, sd, Find(live.decisions, sd.decision), c)
  }

  /** What a stored decision and the live one of its id have to do with a change. */
  ghost predicate Differs(w: World, sd: DecisionPrint, ld: Option<DecisionPrint>, c: Change) {
    match c
    case DecisionRemoved => ld.None?
    case StudentLeft => ld.Some? && sd.status != ld.value.status
    case ClassChanged => ld.Some? && sd.batch != ld.value.batch
    case SectionRemoved => ld.Some? && SectionGone(w, sd.target, ld.value.target)
    case SectionChanged => ld.Some? && SectionReplaced(w, sd.target, ld.value.target)
    case _ => false
  }

  /** A section was chosen and its row, or that of the one chosen instead, is not there. */
  ghost predicate SectionGone(w: World, stored: Option<Id>, live: Option<Id>) {
    stored.Some? && (stored.value >= |w.batches| || (live.Some? && live.value >= |w.batches|))
  }

  /** Two sections were chosen, one after the other, and both rows are there. */
  ghost predicate SectionReplaced(w: World, stored: Option<Id>, live: Option<Id>) {
    stored.Some? && live.Some? && stored != live && stored.value < |w.batches| && live.value < |w.batches|
  }

  lemma ChangeReports(w: World, sd: DecisionPrint, ld: Option<DecisionPrint>, acc: seq<Change>, c: Change)
    ensures var r := DecisionChange(w, sd, ld, acc);
            r.Ok? ==> (c in r.value <==> c in acc || Differs(w, sd, ld, c))
  {
  }

  lemma {:induction false} DecisionsReport(w: World, sds: seq<DecisionPrint>, lds: seq<DecisionPrint>,
                                           acc: seq<Change>, c: Change)
    ensures var r := DecisionChanges(w, sds, lds, acc);
            r.Ok? ==> (c in r.value <==> c in acc || exists sd <- sds :: Differs(w, sd, Find(lds, sd.decision), c))
  {
    if sds != [] {
      var front, sd := sds[..|sds| - 1], sds[|sds| - 1];
      DecisionsReport(w, front, lds, acc, c);
      assert sds == front + [sd];
      var a := DecisionChanges(w, front, lds, acc);
      if a.Ok? { ChangeReports(w, sd, Find(lds, sd.decision), a.value, c); }
    }
  }

  lemma {:induction false} FeesReport(stored: seq<FeePrint>, live: seq<FeePrint>, acc: seq<Change>, c: Change)
    ensures c in FeeChanges(stored, live, acc) <==>
            c in acc || (c == FeeEdited && exists sf <- stored :: FindFee(live, sf.id) != Some(sf))
  {
    if stored != [] {
      var front, sf := stored[..|stored| - 1], stored[|stored| - 1];
      FeesReport(front, live, acc, c);
      assert stored == front + [sf];
    }
  }

  /** The list of a comparison that does not raise has each change exactly when there is cause for it. */
  lemma ReportExact(w: World, stored: Fingerprint, live: Fingerprint, c: Change)
    requires Compare(w, Some(stored), live).Ok?
    ensures c in Compare(w, Some(stored), live).value <==> Reported(w, stored, live, c)
  {
    var start := YearChanges(stored, live);
    DecisionsReport(w, stored.decisions, live.decisions, start, c);
    var a := DecisionChanges(w, stored.decisions, live.decisions, start);
    FeesReport(stored.fees, live.fees, a.value, c);
    YearsReport(stored, live, c);
  }

  lemma YearsReport(stored: Fingerprint, live: Fingerprint, c: Change)
    ensures c in YearChanges(stored, live) <==>
            || (c == SourceYearModified && stored.sourceYear != live.sourceYear)
            || (c == TargetYearModified && stored.targetYear != live.targetYear)
            || (c == MappingsChanged && MappingSet(stored.mappings) != MappingSet(live.mappings))
  {
  }

  /** One stored decision that still exists has a section on one side only; where it is the stored one,
      the section's row exists. */
  predicate OneSided(w: World, sd: DecisionPrint, ld: Option<DecisionPrint>) {
    && ld.Some? && (sd.target.None? <==> ld.value.target.Some?)
    && (sd.target.Some? ==> sd.target.value < |w.batches|)
  }

  lemma OneSidedRaises(w: World, sd: DecisionPrint, ld: Option<DecisionPrint>, acc: seq<Change>)
    ensures DecisionChange(w, sd, ld, acc).Err? <==> OneSided(w, sd, ld)
  {
  }

  /** The comparison raises exactly when some stored decision that still exists had a section and lost it,
      the section's row still being there, or had none and got one. */
  lemma {:induction false} RaisesExactly(w: World, sds: seq<DecisionPrint>, lds: seq<DecisionPrint>, acc: seq<Change>)
    ensures DecisionChanges(w, sds, lds, acc).Err? <==>
            exists sd :: sd in sds && OneSided(w, sd, Find(lds, sd.decision))
  {
    if sds != [] {
      var front, sd := sds[..|sds| - 1], sds[|sds| - 1];
      RaisesExactly(w, front, lds, acc);
      assert sds == front + [sd];
      var a := DecisionChanges(w, front, lds, acc);
      if a.Ok? { OneSidedRaises(w, sd, Find(lds, sd.decision), a.value); }
      if OneSided(w, sd, Find(lds, sd.decision)) { assert sd in sds; }
      if x :| x in front && OneSided(w, x, Find(lds, x.decision)) { assert x in sds; }
    }
  }

  /** The print of one ready decision to retain a student, with the given section. */
  function RetainPrint(target: Option<Id>): DecisionPrint {
    DecisionPrint(0, 0, Some(Active), Option.None, Option.None, Option.None, target, Some(Ready), Retain)
  }

  function RetainOnly(target: Option<Id>): Fingerprint {
    Fingerprint(Option.None, Option.None, [], [RetainPrint(target)], [])
  }

  /** A decision locked without a section and given one makes the comparison raise; one locked with a
      section whose row is gone gets a message instead. */
  lemma OneSidedExample(w: World)
    requires |w.batches| == 1
    ensures Compare(w, Some(RetainOnly(Option.None)), RetainOnly(Some(0))) == Err(Crash)
    ensures Compare(w, Some(RetainOnly(Some(1))), RetainOnly(Option.None)) == Ok([SectionRemoved])
  {
    OneDecision(w, RetainPrint(Option.None), RetainPrint(Some(0)));
    OneDecision(w, RetainPrint(Some(1)), RetainPrint(Option.None));
    var none: seq<Change> := [];
    assert none + [] + [] == none && none + [SectionRemoved] == [SectionRemoved];
    assert BatchDrift(w, Some(1), Option.None) == Removed;
    assert DecisionChange(w, RetainPrint(Some(1)), Some(RetainPrint(Option.None)), none) == Ok([SectionRemoved]);
    assert FeeChanges([], [], [SectionRemoved]) == [SectionRemoved];
  }

  lemma OneDecision(w: World, sd: DecisionPrint, ld: DecisionPrint)
    requires sd.decision == ld.decision
    ensures DecisionChanges(w, [sd], [ld], []) == DecisionChange(w, sd, Some(ld), [])
  {
    assert [sd][..0] == [] && DecisionChanges(w, [], [ld], []) == Ok([]);
    assert Find([ld], sd.decision) == Some(ld);
  }

  // ---------------------------------------------------------------- a fresh fingerprint

  lemma {:induction false} FindInOrder(ds: seq<DecisionPrint>, i: nat)
    requires forall k :: 0 <= k < |ds| ==> ds[k].decision == k
    requires i < |ds|
    ensures Find(ds, i) == Some(ds[i])
  {
    if ds[|ds| - 1].decision != i { FindInOrder(ds[..|ds| - 1], i); }
  }

  ghost predicate UniqueFees(fs: seq<FeePrint>) {
    forall i, j :: 0 <= i < j < |fs| ==> fs[i].id != fs[j].id
  }

  lemma {:induction false} FeesUnique(w: World, ds: seq<Decision>)
    ensures UniqueFees(PrintFees(w, ds))
  {
    if ds != [] {
      FeesUnique(w, ds[..|ds| - 1]);
    }
  }

  lemma {:induction false} FindFeeIn(fs: seq<FeePrint>, f: FeePrint)
    requires UniqueFees(fs) && f in fs
    ensures FindFee(fs, f.id) == Some(f)
  {
    var last := fs[|fs| - 1];
    assert fs == fs[..|fs| - 1] + [last];
    if last.id == f.id {
      var i :| 0 <= i < |fs| && fs[i] == f;
    } else {
      FindFeeIn(fs[..|fs| - 1], f);
    }
  }

  /** A fingerprint is never stale against itself, provided every chosen section's row exists. */
  lemma FreshFingerprint(w: World, plan: Plan, mappings: seq<Mapping>)
    ensures var fp := Build(w, plan, mappings);
            Compare(w, Some(fp), fp) == Ok([]) <==>
            forall i :: 0 <= i < |plan.decisions| && plan.decisions[i].targetBatch.Some? ==>
              plan.decisions[i].targetBatch.value < |w.batches|
  {
    var fp := Build(w, plan, mappings);
    SilentMeansUnchanged(w, Some(fp), fp);
    FeesUnique(w, plan.decisions);
    forall sf | sf in fp.fees ensures FindFee(fp.fees, sf.id) == Some(sf) { FindFeeIn(fp.fees, sf); }
    forall i | 0 <= i < |plan.decisions|
      ensures fp.decisions[i] in fp.decisions
      ensures SameStudent(w, fp.decisions[i], Find(fp.decisions, fp.decisions[i].decision)) <==>
              (plan.decisions[i].targetBatch.Some? ==> plan.decisions[i].targetBatch.value < |w.batches|)
    {
      FindInOrder(fp.decisions, i);
    }
  }

  lemma {:induction false} DriftIgnoresRows(w: World, w': World, sds: seq<DecisionPrint>, lds: seq<DecisionPrint>,
                                            acc: seq<Change>)
    requires |w'.batches| == |w.batches|
    ensures DecisionChanges(w', sds, lds, acc) == DecisionChanges(w, sds, lds, acc)
  {
    if sds != [] { DriftIgnoresRows(w, w', sds[..|sds| - 1], lds, acc); }
  }

  /** No edit of a destination section, its removal from service included, is ever reported: the
      verdict depends on the sections only through which rows exist. */
  lemma SectionEditsUnnoticed(w: World, bs: seq<Batch>, plan: Plan, mappings: seq<Mapping>, stored: Option<Fingerprint>)
    requires |bs| == |w.batches|
    ensures var w' := w.(batches := bs);
            Compare(w', stored, Build(w', plan, mappings)) == Compare(w, stored, Build(w, plan, mappings))
  {
    var w' := w.(batches := bs);
    var live, live' := Build(w, plan, mappings), Build(w', plan, mappings);
    assert live'.decisions == live.decisions;
    FeesIgnoreSections(w, bs, plan.decisions);
    if stored.Some? {
      DriftIgnoresRows(w, w', stored.value.decisions, live.decisions, YearChanges(stored.value, live));
    }
  }

  lemma {:induction false} FeesIgnoreSections(w: World, bs: seq<Batch>, ds: seq<Decision>)
    ensures PrintFees(w.(batches := bs), ds) == PrintFees(w, ds)
  {
    if ds != [] { FeesIgnoreSections(w, bs, ds[..|ds| - 1]); }
  }

  // ---------------------------------------------------------------- what drift means for the tables

  /** The year is in both tables with the same version and flags, or in neither. */
  ghost predicate SameYear(w: World, v: World, y: Id) {
    && (y < |w.years| <==> y < |v.years|)
    && (y < |w.years| ==>
          && v.years[y].version == w.years[y].version && v.years[y].current == w.years[y].current
          && v.years[y].frozen == w.years[y].frozen && v.years[y].live == w.years[y].live)
  }

  /** The student is in both tables with the same status and section, or in neither. */
  ghost predicate SameStanding(w: World, v: World, p: Id) {
    && (p < |w.profiles| <==> p < |v.profiles|)
    && (p < |w.profiles| ==>
          v.profiles[p].status == w.profiles[p].status && v.profiles[p].batch == w.profiles[p].batch)
  }

  ghost predicate SameFee(w: World, v: World, f: Id) {
    && (f < |w.fees| <==> f < |v.fees|)
    && (f < |w.fees| ==>
          && v.fees[f].version == w.fees[f].version && v.fees[f].published == w.fees[f].published
          && v.fees[f].live == w.fees[f].live)
  }

  /** The student is as before, and the section chosen exists. */
  ghost predicate SameRow(w: World, v: World, d: Decision) {
    SameStanding(w, v, d.profile) && (d.targetBatch.Some? ==> d.targetBatch.value < |v.batches|)
  }

  /** Everything the check watches is on tables v as it was on tables w; of a section it is that it exists. */
  ghost predicate NoDriftSince(w: World, v: World, plan: Plan) {
    && SameYear(w, v, plan.source) && SameYear(w, v, plan.target)
    && (forall i :: 0 <= i < |plan.decisions| ==> SameRow(w, v, plan.decisions[i]))
    && (forall i :: 0 <= i < |plan.decisions| && plan.decisions[i].fee.Some? ==>
          SameFee(w, v, plan.decisions[i].fee.value))
  }

  /** The printed fees are those of the decisions. */
  lemma {:induction false} PrintedFees(w: World, ds: seq<Decision>, f: FeePrint)
    ensures f in PrintFees(w, ds) <==>
            exists i :: 0 <= i < |ds| && ds[i].fee.Some? && f == PrintFee(w, ds[i].fee.value)
  {
    if ds != [] {
      var front, n := ds[..|ds| - 1], |ds| - 1;
      PrintedFees(w, front, f);
      if i :| 0 <= i < |front| && front[i].fee.Some? && f == PrintFee(w, front[i].fee.value) {
        assert ds[i].fee.Some? && f == PrintFee(w, ds[i].fee.value);
      }
      if ds[n].fee.Some? && f == PrintFee(w, ds[n].fee.value) && HasFee(PrintFees(w, front), f.id) {
        var k :| 0 <= k < |PrintFees(w, front)| && PrintFees(w, front)[k].id == f.id;
        PrintedFees(w, front, PrintFees(w, front)[k]);
      }
    }
  }

  /** The print of a fee in use is found, and no other of that id. */
  lemma FeeFound(w: World, ds: seq<Decision>, i: nat)
    requires i < |ds| && ds[i].fee.Some?
    ensures FindFee(PrintFees(w, ds), ds[i].fee.value) == Some(PrintFee(w, ds[i].fee.value))
  {
    PrintedFees(w, ds, PrintFee(w, ds[i].fee.value));
    FeesUnique(w, ds);
    FindFeeIn(PrintFees(w, ds), PrintFee(w, ds[i].fee.value));
  }

  lemma FeesAgree(w: World, v: World, ds: seq<Decision>)
    ensures (forall sf :: sf in PrintFees(w, ds) ==> FindFee(PrintFees(v, ds), sf.id) == Some(sf)) <==>
            forall i :: 0 <= i < |ds| && ds[i].fee.Some? ==> SameFee(w, v, ds[i].fee.value)
  {
    forall i | 0 <= i < |ds| && ds[i].fee.Some?
      ensures var sf := PrintFee(w, ds[i].fee.value);
              && sf in PrintFees(w, ds)
              && (FindFee(PrintFees(v, ds), sf.id) == Some(sf) <==> SameFee(w, v, ds[i].fee.value))
    {
      PrintedFees(w, ds, PrintFee(w, ds[i].fee.value));
      FeeFound(v, ds, i);
    }
    forall sf | sf in PrintFees(w, ds)
      ensures exists i :: 0 <= i < |ds| && ds[i].fee.Some? && sf == PrintFee(w, ds[i].fee.value)
    {
      PrintedFees(w, ds, sf);
    }
  }

  lemma StudentAgrees(w: World, v: World, source: Id, ds: seq<Decision>, i: nat)
    requires i < |ds|
    ensures var sd := PrintDecisions(w, source, ds)[i];
            SameStudent(v, sd, Find(PrintDecisions(v, source, ds), sd.decision)) <==> SameRow(w, v, ds[i])
  {
    FindInOrder(PrintDecisions(v, source, ds), i);
  }

  lemma StudentsAgree(w: World, v: World, source: Id, ds: seq<Decision>)
    ensures (forall sd :: sd in PrintDecisions(w, source, ds) ==>
               SameStudent(v, sd, Find(PrintDecisions(v, source, ds), sd.decision))) <==>
            forall i :: 0 <= i < |ds| ==> SameRow(w, v, ds[i])
  {
    var prints := PrintDecisions(w, source, ds);
    forall i: nat | i < |ds|
      ensures prints[i] in prints
      ensures SameStudent(v, prints[i], Find(PrintDecisions(v, source, ds), prints[i].decision)) <==>
              SameRow(w, v, ds[i])
    {
      StudentAgrees(w, v, source, ds, i);
    }
  }

  /** A plan locked on tables w is found unchanged on tables v exactly when the rows the check watches agree:
      both years, every student's status and section, every fee in use; and every chosen section exists. */
  lemma DriftExact(w: World, v: World, plan: Plan, mappings: seq<Mapping>)
    ensures Compare(v, Some(Build(w, plan, mappings)), Build(v, plan, mappings)) == Ok([]) <==>
            NoDriftSince(w, v, plan)
  {
    SilentMeansUnchanged(v, Some(Build(w, plan, mappings)), Build(v, plan, mappings));
    FeesAgree(w, v, plan.decisions);
    StudentsAgree(w, v, plan.source, plan.decisions);
  }

  /** The student's live row of a year is the same, with the same status, or there is none. */
  ghost predicate SameEnrollment(w: World, v: World, p: Id, y: Id) {
    var e, f := ActiveEnrollment(w.enrollments, p, y), ActiveEnrollment(v.enrollments, p, y);
    e == f && (e.Some? ==> w.enrollments[e.value].status == v.enrollments[f.value].status)
  }

  lemma {:induction false} SameFees(w: World, v: World, ds: seq<Decision>)
    ensures PrintFees(w, ds) == PrintFees(v, ds) <==>
            forall i :: 0 <= i < |ds| && ds[i].fee.Some? ==> SameFee(w, v, ds[i].fee.value)
  {
    if PrintFees(w, ds) == PrintFees(v, ds) {
      forall i | 0 <= i < |ds| && ds[i].fee.Some? ensures SameFee(w, v, ds[i].fee.value) {
        FeeFound(w, ds, i);
        FeeFound(v, ds, i);
      }
    } else if ds != [] && PrintFees(w, ds[..|ds| - 1]) != PrintFees(v, ds[..|ds| - 1]) {
      SameFees(w, v, ds[..|ds| - 1]);
    }
  }

  /** Two fingerprints of one plan are equal exactly when both years, every student's status, section and
      source enrollment, and every fee in use agree: the check compares less than the fingerprint holds. */
  lemma FingerprintTells(w: World, v: World, plan: Plan, mappings: seq<Mapping>)
    ensures Build(w, plan, mappings) == Build(v, plan, mappings) <==>
            && SameYear(w, v, plan.source) && SameYear(w, v, plan.target)
            && (forall i :: 0 <= i < |plan.decisions| ==>
                  var p := plan.decisions[i].profile;
                  SameStanding(w, v, p) && SameEnrollment(w, v, p, plan.source))
            && (forall i :: 0 <= i < |plan.decisions| && plan.decisions[i].fee.Some? ==>
                  SameFee(w, v, plan.decisions[i].fee.value))
  {
    SameFees(w, v, plan.decisions);
    var a, b := PrintDecisions(w, plan.source, plan.decisions), PrintDecisions(v, plan.source, plan.decisions);
    forall i: nat | i < |plan.decisions|
      ensures a[i] == b[i] <==>
              var p := plan.decisions[i].profile;
              SameStanding(w, v, p) && SameEnrollment(w, v, p, plan.source)
    {
      SamePrint(w, v, plan.source, plan.decisions[i], i);
    }
  }

  lemma SamePrint(w: World, v: World, source: Id, d: Decision, i: nat)
    ensures PrintDecision(w, source, d, i) == PrintDecision(v, source, d, i) <==>
            SameStanding(w, v, d.profile) && SameEnrollment(w, v, d.profile, source)
  {
  }
}
