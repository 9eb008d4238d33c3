/** Sequential user ids: canonical years, the counters, and the bounded search for a free id. */
module IdGeneration {
  import opened Records
  import opened Text
  import opened Templates

  // ---------------------------------------------------------------- the canonical year

  /** Callers pass a year's row, a label such as "2025-26", or nothing. */
  datatype YearRef = NoYear | RowFrom(start: nat) | Label(text: string)

  const MAX_YEAR: nat := 9999

  function Span(n: nat): string {
    Decimal(n) + "-" + Decimal(n + 1)
  }

  function CanonicalYear(y: YearRef): string {
    match y
    case NoYear => ""
    case RowFrom(n) => Span(n)
    case Label(t) =>
      var s := Strip(t);
      if |s| >= 4 && AllDigits(s[..4]) then Span(Value(s[..4])) else s
  }

  lemma FourDigits(n: nat)
    requires n <= MAX_YEAR
    ensures |Decimal(n)| <= 4 && (|Decimal(n)| == 4 <==> n >= 1000)
  {
    assert |Decimal(n / 10)| <= |Decimal(n)|;
  }

  lemma ValueOfFront(s: string)
    requires AllDigits(s) && s != []
    ensures AllDigits(s[..|s| - 1]) && Value(s) <= 10 * Value(s[..|s| - 1]) + 9
  {
  }

  lemma {:induction false} ValueBound(s: string)
    requires AllDigits(s) && |s| == 4
    ensures Value(s) <= MAX_YEAR
  {
    var a := s[..|s| - 1];
    ValueOfFront(s);
    var b := a[..|a| - 1];
    ValueOfFront(a);
    var c := b[..|b| - 1];
    ValueOfFront(b);
    ValueOfFront(c);
    assert Value(c[..|c| - 1]) == 0;
  }

  /** Both entry doors reach one counter: a label that starts with a year means that year's row. */
  lemma DoorsAgree(n: nat, text: string)
    requires 1000 <= n <= MAX_YEAR && Decimal(n) <= Strip(text)
    ensures CanonicalYear(Label(text)) == CanonicalYear(RowFrom(n))
  {
    FourDigits(n);
    DecimalValue(n);
    assert Strip(text)[..4] == Decimal(n);
  }

  /** The canonical key of a year is its number, a dash and the next; a label that begins with four digits is
      taken for that year, and any other label stands for itself. */
  lemma KeyReads(y: YearRef)
    ensures y == NoYear ==> CanonicalYear(y) == ""
    ensures y.RowFrom? ==> CanonicalYear(y) == Decimal(y.start) + "-" + Decimal(y.start + 1)
    ensures y.Label? ==>
              var s := Strip(y.text);
              CanonicalYear(y) == if |s| >= 4 && AllDigits(s[..4])
                                  then Decimal(Value(s[..4])) + "-" + Decimal(Value(s[..4]) + 1) else s
  {
  }

  /** Four leading digits of "digits-digits" are all the digits before the dash. */
  lemma FourOfSpan(d: string, rest: string)
    requires d != [] && rest != [] && AllDigits(d) && AllDigits(rest) && |d| <= 4
    ensures var k := d + "-" + rest;
            && Strip(k) == k
            && (|k| >= 4 && AllDigits(k[..4]) <==> |d| == 4)
            && (|d| == 4 ==> k[..4] == d)
  {
    var k := d + "-" + rest;
    assert IsDigit(k[0]) && IsDigit(k[|k| - 1]);
    assert k[|d|] == '-';
    if |d| < 4 && |k| >= 4 { assert k[..4][|d|] == '-'; }
  }

  lemma SpanStable(n: nat)
    requires n <= MAX_YEAR
    ensures CanonicalYear(Label(Span(n))) == Span(n)
  {
    FourDigits(n);
    DecimalValue(n);
    FourOfSpan(Decimal(n), Decimal(n + 1));
  }

  /** A canonical key is its own canonical key. */
  lemma CanonicalStable(y: YearRef)
    requires y.RowFrom? ==> y.start <= MAX_YEAR
    ensures CanonicalYear(Label(CanonicalYear(y))) == CanonicalYear(y)
  {
    match y {
      case NoYear =>
      case RowFrom(n) => SpanStable(n);
      case Label(t) =>
        var s := Strip(t);
        if |s| >= 4 && AllDigits(s[..4]) {
          ValueBound(s[..4]);
          SpanStable(Value(s[..4]));
        }
    }
  }

  // ---------------------------------------------------------------- rendering

  function YearDigits(key: string): string {
    if |key| >= 4 && AllDigits(key[..4]) then key[..4] else ""
  }

  /** Everything but the sequence filled in. */
  function Prepared(format: string, code: string, key: string, role: string): string {
    var y := YearDigits(key);
    Replace(Replace(Replace(Replace(format, BRANCH, code), YEAR, y), YY, if y == "" then "" else y[2..]), ROLE, role)
  }

  function Render(format: string, code: string, key: string, n: nat, width: nat, role: string): string {
    Replace(Prepared(format, code, key, role), SEQ, SequenceText(n, width))
  }

  lemma PreparedKeepsSeq(format: string, code: string, key: string, role: string)
    requires Contains(format, SEQ)
    ensures Contains(Prepared(format, code, key, role), SEQ)
  {
    var y := YearDigits(key);
    var f1 := Replace(format, BRANCH, code);
    var f2 := Replace(f1, YEAR, y);
    var f3 := Replace(f2, YY, if y == "" then "" else y[2..]);
    SeqSurvives(format, BRANCH, code);
    SeqSurvives(f1, YEAR, y);
    SeqSurvives(f2, YY, if y == "" then "" else y[2..]);
    SeqSurvives(f3, ROLE, role);
  }

  /** Two sequence numbers render differently exactly when the filled-in template still has the token. */
  lemma RenderTells(format: string, code: string, key: string, m: nat, n: nat, width: nat, role: string)
    requires m != n
    ensures Render(format, code, key, m, width, role) != Render(format, code, key, n, width, role)
            <==> Contains(Prepared(format, code, key, role), SEQ)
  {
    var t := Prepared(format, code, key, role);
    if Contains(t, SEQ) {
      if Render(format, code, key, m, width, role) == Render(format, code, key, n, width, role) {
        ReplaceInjective(t, SEQ, SequenceText(m, width), SequenceText(n, width));
        SequenceTextInjective(m, n, width);
      }
    } else {
      ReplaceNothing(t, SEQ, SequenceText(m, width));
      ReplaceNothing(t, SEQ, SequenceText(n, width));
    }
  }

  lemma PreparedAlike(format: string, code: string, key: string, other: string, role: string)
    requires |YearDigits(key)| == |YearDigits(other)|
    ensures Alike(Prepared(format, code, key, role), Prepared(format, code, other, role))
  {
    var y, z := YearDigits(key), YearDigits(other);
    var f := Replace(format, BRANCH, code);
    Reflexive(f);
    assert Alike(y, z);
    AlikeReplace(f, f, YEAR, y, z);
    var yy, zz := if y == "" then "" else y[2..], if z == "" then "" else z[2..];
    assert Alike(yy, zz);
    AlikeReplace(Replace(f, YEAR, y), Replace(f, YEAR, z), YY, yy, zz);
    Reflexive(role);
    AlikeReplace(Replace(Replace(f, YEAR, y), YY, yy), Replace(Replace(f, YEAR, z), YY, zz), ROLE, role, role);
  }

  /** Two keys leave the same number of year digits in the template, or the template has no place for them. */
  predicate YearsAlign(format: string, code: string, key: string, other: string) {
    || |YearDigits(key)| == |YearDigits(other)|
    || (!Contains(Replace(format, BRANCH, code), YEAR) && !Contains(Replace(format, BRANCH, code), YY))
  }

  lemma NoMark(format: string, code: string, key: string, other: string, role: string)
    requires !Contains(Replace(format, BRANCH, code), YEAR) && !Contains(Replace(format, BRANCH, code), YY)
    ensures Prepared(format, code, key, role) == Prepared(format, code, other, role)
  {
    var f, y, z := Replace(format, BRANCH, code), YearDigits(key), YearDigits(other);
    ReplaceNothing(f, YEAR, y);
    ReplaceNothing(f, YEAR, z);
    ReplaceNothing(f, YY, if y == "" then "" else y[2..]);
    ReplaceNothing(f, YY, if z == "" then "" else z[2..]);
  }

  /** With the sequence token in the template, a rendered id gives its number back, whatever the years, as
      long as they align. */
  lemma RenderTellsAcross(format: string, code: string, key: string, other: string,
                          m: nat, n: nat, width: nat, role: string)
    requires Contains(format, SEQ) && YearsAlign(format, code, key, other)
    requires Render(format, code, key, m, width, role) == Render(format, code, other, n, width, role)
    ensures m == n
  {
    var s, t := Prepared(format, code, key, role), Prepared(format, code, other, role);
    PreparedKeepsSeq(format, code, key, role);
    if |YearDigits(key)| == |YearDigits(other)| {
      PreparedAlike(format, code, key, other, role);
    } else {
      NoMark(format, code, key, other, role);
      Reflexive(s);
    }
    AlikeInjective(s, t, SEQ, SequenceText(m, width), SequenceText(n, width));
    SequenceTextInjective(m, n, width);
  }

  // ---------------------------------------------------------------- what an id reads

  /** The year an id can show: a row's, or the four digits that a label begins with, from 1000 on; else none. */
  function ShownYear(y: YearRef): string {
    match y
    case NoYear => ""
    case RowFrom(n) => if n >= 1000 then Decimal(n) else ""
    case Label(t) =>
      var s := Strip(t);
      if |s| >= 4 && AllDigits(s[..4]) && s[0] != '0' then s[..4] else ""
  }

  lemma SpanDigits(n: nat)
    requires n <= MAX_YEAR
    ensures YearDigits(Span(n)) == if n >= 1000 then Decimal(n) else ""
  {
    FourDigits(n);
    FourOfSpan(Decimal(n), Decimal(n + 1));
  }

  lemma LabelDigits(s: string)
    requires |s| >= 4 && AllDigits(s[..4])
    ensures YearDigits(Span(Value(s[..4]))) == if s[0] != '0' then s[..4] else ""
  {
    var d := s[..4];
    ValueBound(d);
    SpanDigits(Value(d));
    FourDigits(Value(d));
    if d[0] != '0' {
      DecimalOf(d);
    } else {
      LeadingZero(d);
    }
  }

  lemma LeadingZero(d: string)
    requires |d| == 4 && AllDigits(d) && d[0] == '0'
    ensures Value(d) < 1000
  {
    var c, b, a := d[..3], d[..3][..2], d[..3][..2][..1];
    assert a[..0] == [] && Value(a) == 0;
    assert Value(b) == 10 * Value(a) + (b[1] as int - '0' as int);
    assert Value(c) == 10 * Value(b) + (c[2] as int - '0' as int);
  }

  lemma DigitsShown(y: YearRef)
    requires y.RowFrom? ==> y.start <= MAX_YEAR
    ensures YearDigits(CanonicalYear(y)) == ShownYear(y)
  {
    match y {
      case NoYear =>
      case RowFrom(n) => SpanDigits(n);
      case Label(t) => if |Strip(t)| >= 4 && AllDigits(Strip(t)[..4]) { LabelDigits(Strip(t)); }
    }
  }

  // ---------------------------------------------------------------- counters

  datatype Key = Key(branch: Id, faculty: bool, year: string)

  type Counters = map<Key, nat>

  function Current(c: Counters, k: Key): nat {
    if k in c then c[k] else 0
  }

  function Advance(c: Counters, k: Key): Counters {
    c[k := Current(c, k) + 1]
  }

  /** Any interleaving of callers is one sequence of increments. */
  function Bumps(c: Counters, steps: seq<Key>): Counters {
    if steps == [] then c else Advance(Bumps(c, steps[..|steps| - 1]), steps[|steps| - 1])
  }

  /** The number that increment i hands out. */
  function Handed(c: Counters, steps: seq<Key>, i: nat): nat
    requires i < |steps|
  {
    Current(Bumps(c, steps[..i]), steps[i]) + 1
  }

  lemma {:induction false} BumpsGrow(c: Counters, steps: seq<Key>, i: nat, k: Key)
    requires i <= |steps|
    ensures Current(Bumps(c, steps[..i]), k) <= Current(Bumps(c, steps), k)
  {
    if i < |steps| {
      assert steps[..|steps| - 1][..i] == steps[..i];
      BumpsGrow(c, steps[..|steps| - 1], i, k);
    } else {
      assert steps[..i] == steps;
    }
  }

  /** No counter hands the same number to two callers. */
  lemma HandedOnce(c: Counters, steps: seq<Key>, i: nat, j: nat)
    requires i < j < |steps| && steps[i] == steps[j]
    ensures Handed(c, steps, i) < Handed(c, steps, j)
  {
    assert steps[..i + 1][..i] == steps[..i];
    assert steps[..j][..i + 1] == steps[..i + 1];
    BumpsGrow(c, steps[..j], i + 1, steps[i]);
  }

  // ---------------------------------------------------------------- allocation

  const MAX_ATTEMPTS: nat := 100

  /** checked is false when the branch has no tenant to look up taken ids in. */
  datatype Request = Request(
    branch: Id, code: string, faculty: bool, format: string, width: nat, yearly: bool, year: YearRef, checked: bool)

  function CounterKey(r: Request): Key {
    Key(r.branch, r.faculty, if !r.faculty && r.yearly then CanonicalYear(r.year) else "")
  }

  function Candidate(r: Request, n: nat): string {
    Render(r.format, r.code, CanonicalYear(r.year), n, r.width, if r.faculty then "FAC" else "STU")
  }

  /** An id reads as its format with every slot filled at once: the branch code, the four digits of the year and
      their last two, FAC for faculty and STU for students, and the number filled with zeros to the width. */
  lemma CandidateReads(r: Request, ps: seq<Piece>, n: nat)
    requires r.format == Spelled(ps) && PlainTexts(ps) && Plain(r.code)
    requires r.year.RowFrom? ==> r.year.start <= 9999
    ensures var y := ShownYear(r.year);
            && |y| in {0, 4} && AllDigits(y)
            && Candidate(r, n) ==
               Filled(ps, Values(r.code, y, if y == "" then "" else y[2..], if r.faculty then "FAC" else "STU",
                                 SequenceText(n, r.width)))
  {
    DigitsShown(r.year);
    ShownDigits(r.year);
    var y := ShownYear(r.year);
    RenderReads(ps, r.code, CanonicalYear(r.year), n, r.width, if r.faculty then "FAC" else "STU",
                y, if y == "" then "" else y[2..]);
  }

  lemma ShownDigits(y: YearRef)
    requires y.RowFrom? ==> y.start <= MAX_YEAR
    ensures |ShownYear(y)| in {0, 4} && AllDigits(ShownYear(y))
  {
    if y.RowFrom? { FourDigits(y.start); }
  }

  lemma RenderReads(ps: seq<Piece>, code: string, key: string, n: nat, width: nat, role: string, y: string, yy: string)
    requires PlainTexts(ps) && Plain(code) && Plain(role)
    requires y == YearDigits(key) && yy == if y == "" then "" else y[2..]
    ensures Render(Spelled(ps), code, key, n, width, role) ==
            Filled(ps, Values(code, y, yy, role, SequenceText(n, width)))
  {
    DigitsPlain(y);
    DigitsPlain(yy);
    RenderIs(Spelled(ps), code, key, n, width, role, y, yy);
    SequentialIsSimultaneous(ps, Values(code, y, yy, role, SequenceText(n, width)));
  }

  lemma DigitsPlain(s: string)
    requires AllDigits(s)
    ensures Plain(s)
  {
  }

  lemma RenderIs(format: string, code: string, key: string, n: nat, width: nat, role: string, y: string, yy: string)
    requires y == YearDigits(key) && yy == if y == "" then "" else y[2..]
    ensures Render(format, code, key, n, width, role) ==
            Replace(Replace(Replace(Replace(Replace(format, BRANCH, code), YEAR, y), YY, yy), ROLE, role),
                    SEQ, SequenceText(n, width))
  {
  }

  /** Two requests draw on one counter exactly when branch and role are the same and, for students numbered by
      the year, the year is. */
  lemma CounterShared(r: Request, s: Request)
    requires r.yearly == s.yearly
    ensures CounterKey(r) == CounterKey(s) <==>
            && r.branch == s.branch && r.faculty == s.faculty
            && (!r.faculty && r.yearly ==> CanonicalYear(r.year) == CanonicalYear(s.year))
  {
  }

  predicate Free(r: Request, taken: set<string>, n: nat) {
    !r.checked || Candidate(r, n) !in taken
  }

  /** The id, if any, is that of the first free number among the next hundred. */
  ghost predicate Allocates(r: Request, taken: set<string>, last: nat, last': nat, id: Option<string>) {
    if id.Some? then
      && last < last' <= last + MAX_ATTEMPTS && Free(r, taken, last') && id.value == Candidate(r, last')
      && forall n :: last < n < last' ==> !Free(r, taken, n)
    else
      && last' == last + MAX_ATTEMPTS
      && forall n :: last < n <= last' ==> !Free(r, taken, n)
  }

  class CounterTable {
    var counters: Counters

    constructor ()
      ensures counters == map[]
    {
      counters := map[];
    }

    method NextSequence(k: Key) returns (n: nat)
      modifies this
      ensures counters == Advance(old(counters), k) && n == Current(counters, k)
    {
      n := Current(counters, k) + 1;
      counters := counters[k := n];
    }

    method GenerateUserId(r: Request, taken: set<string>) returns (id: Option<string>)
      modifies this
      ensures Allocates(r, taken, Current(old(counters), CounterKey(r)), Current(counters, CounterKey(r)), id)
      ensures forall k: Key :: k != CounterKey(r) ==> Current(counters, k) == Current(old(counters), k)
    {
      var k := CounterKey(r);
      for i := 0 to MAX_ATTEMPTS
        invariant Current(counters, k) == Current(old(counters), k) + i
        invariant forall n :: Current(old(counters), k) < n <= Current(counters, k) ==> !Free(r, taken, n)
        invariant forall k': Key :: k' != k ==> Current(counters, k') == Current(old(counters), k')
      {
        var n := NextSequence(k);
        var candidate := Candidate(r, n);
        if !r.checked || candidate !in taken { return Some(candidate); }
      }
      id := Option.None;
    }
  }

  /** A set that holds n different ids has at least n members. */
  lemma {:induction false} Pigeonhole(ids: seq<string>, taken: set<string>)
    requires forall k, l :: 0 <= k < l < |ids| ==> ids[k] != ids[l]
    requires forall k :: 0 <= k < |ids| ==> ids[k] in taken
    ensures |ids| <= |taken|
  {
    if ids != [] { Pigeonhole(ids[..|ids| - 1], taken - {ids[|ids| - 1]}); }
  }

  /** With the sequence token in the template, an id gives its number back. */
  lemma CandidateTells(r: Request, m: nat, n: nat)
    requires Contains(r.format, SEQ) && Candidate(r, m) == Candidate(r, n)
    ensures m == n
  {
    var key, role := CanonicalYear(r.year), if r.faculty then "FAC" else "STU";
    PreparedKeepsSeq(r.format, r.code, key, role);
    if m != n { RenderTells(r.format, r.code, key, m, n, r.width, role); }
  }

  function NextHundred(r: Request, last: nat): (ids: seq<string>)
    ensures |ids| == MAX_ATTEMPTS && forall k :: 0 <= k < |ids| ==> ids[k] == Candidate(r, last + 1 + k)
  {
    seq(MAX_ATTEMPTS, k requires 0 <= k < MAX_ATTEMPTS => Candidate(r, last + 1 + k))
  }

  lemma PairDiffers(r: Request, last: nat, k: nat, l: nat)
    requires Contains(r.format, SEQ) && k < l < MAX_ATTEMPTS
    ensures NextHundred(r, last)[k] != NextHundred(r, last)[l]
  {
    if NextHundred(r, last)[k] == NextHundred(r, last)[l] { CandidateTells(r, last + 1 + k, last + 1 + l); }
  }

  lemma HundredDiffer(r: Request, last: nat)
    requires Contains(r.format, SEQ)
    ensures var ids := NextHundred(r, last); forall k, l :: 0 <= k < l < |ids| ==> ids[k] != ids[l]
  {
    var ids := NextHundred(r, last);
    forall k, l | 0 <= k < l < |ids| ensures ids[k] != ids[l] { PairDiffers(r, last, k, l); }
  }

  lemma HundredTaken(r: Request, taken: set<string>, last: nat)
    requires forall n :: last < n <= last + MAX_ATTEMPTS ==> !Free(r, taken, n)
    ensures var ids := NextHundred(r, last); forall k :: 0 <= k < |ids| ==> ids[k] in taken
  {
    var ids := NextHundred(r, last);
    forall k | 0 <= k < |ids| ensures ids[k] in taken { assert !Free(r, taken, last + 1 + k); }
  }

  /** With the sequence token in the template, an allocation fails only when a hundred ids are taken. */
  lemma FewTakenSucceeds(r: Request, taken: set<string>, last: nat, last': nat, id: Option<string>)
    requires Contains(r.format, SEQ) && Allocates(r, taken, last, last', id) && |taken| < MAX_ATTEMPTS
    ensures id.Some?
  {
    if id.None? {
      HundredDiffer(r, last);
      HundredTaken(r, taken, last);
      Pigeonhole(NextHundred(r, last), taken);
    }
  }

  // ---------------------------------------------------------------- two allocations of one counter

  /** Two requests under one numbering scheme: the same template, branch code, width and role, which draw
      on one counter.  Their years may differ, and so may the doors they come through. */
  predicate SameScheme(r: Request, s: Request) {
    && r.format == s.format && r.code == s.code && r.width == s.width
    && r.faculty == s.faculty && r.yearly == s.yearly && CounterKey(r) == CounterKey(s)
  }

  predicate Align(r: Request, s: Request) {
    YearsAlign(r.format, r.code, CanonicalYear(r.year), CanonicalYear(s.year))
  }

  /** Two allocations of one counter never yield the same id, whatever others do in between, as long as
      both years have digits, neither has, or the template does not show the year. */
  lemma AllocationsDiffer(r: Request, s: Request, c: Counters, steps: seq<Key>, i: nat, j: nat)
    requires Contains(r.format, SEQ) && SameScheme(r, s) && Align(r, s)
    requires i < |steps| && j < |steps| && i != j && steps[i] == steps[j] == CounterKey(r)
    ensures Candidate(r, Handed(c, steps, i)) != Candidate(s, Handed(c, steps, j))
  {
    if i < j { HandedOnce(c, steps, i, j); } else { HandedOnce(c, steps, j, i); }
    if Candidate(r, Handed(c, steps, i)) == Candidate(s, Handed(c, steps, j)) {
      RenderTellsAcross(r.format, r.code, CanonicalYear(r.year), CanonicalYear(s.year),
                        Handed(c, steps, i), Handed(c, steps, j), r.width, if r.faculty then "FAC" else "STU");
    }
  }

  /** A counter that restarts each year serves one canonical year only, so its allocations always differ. */
  lemma YearlyAllocationsDiffer(r: Request, s: Request, c: Counters, steps: seq<Key>, i: nat, j: nat)
    requires Contains(r.format, SEQ) && SameScheme(r, s) && !r.faculty && r.yearly
    requires i < |steps| && j < |steps| && i != j && steps[i] == steps[j] == CounterKey(r)
    ensures Candidate(r, Handed(c, steps, i)) != Candidate(s, Handed(c, steps, j))
  {
    AllocationsDiffer(r, s, c, steps, i, j);
  }

  // ---------------------------------------------------------------- years that do not align

  /** A template, the branch filled in, that shows the year once and after it the number, with braces
      nowhere else. */
  function YearThenNumber(before: string, between: string, after: string): string {
    before + (YEAR + (between + (SEQ + after)))
  }

  predicate Brackets(before: string, between: string, after: string) {
    Plain(before) && Plain(between) && Plain(after)
  }

  lemma SeqGone(text: string, after: string, n: string)
    requires Plain(text) && Plain(after)
    ensures Replace(text + (SEQ + after), SEQ, n) == text + n + after
  {
    assert Braced(SEQ);
    PlainStays(text, SEQ + after, SEQ, n);
    TokenGoes(after, SEQ, n);
    PlainWhole(after, SEQ, n);
    assert text + (n + after) == text + n + after;
  }

  lemma SeqStays(text: string, after: string, token: string, put: string)
    requires Plain(text) && Plain(after) && Braced(token) && token[1] != 'S'
    ensures Replace(text + (SEQ + after), token, put) == text + (SEQ + after)
  {
    PlainStays(text, SEQ + after, token, put);
    OtherStays(SEQ, after, token, put);
    PlainWhole(after, token, put);
  }

  /** Such a template with everything filled in. */
  lemma ShapeRendered(format: string, code: string, before: string, between: string, after: string,
                      key: string, n: nat, width: nat, role: string)
    requires Brackets(before, between, after)
    requires Replace(format, BRANCH, code) == YearThenNumber(before, between, after)
    ensures Render(format, code, key, n, width, role) ==
            before + YearDigits(key) + between + SequenceText(n, width) + after
  {
    var y, text := YearDigits(key), before + YearDigits(key) + between;
    YearFilled(before, between, after, y);
    AlsoPlain(before, y, between);
    SeqStays(text, after, YY, if y == "" then "" else y[2..]);
    SeqStays(text, after, ROLE, role);
    SeqGone(text, after, SequenceText(n, width));
  }

  lemma AlsoPlain(before: string, y: string, between: string)
    requires Plain(before) && AllDigits(y) && Plain(between)
    ensures Plain(before + y + between)
  {
  }

  lemma YearFilled(before: string, between: string, after: string, y: string)
    requires Brackets(before, between, after)
    ensures Replace(YearThenNumber(before, between, after), YEAR, y) == before + y + between + (SEQ + after)
  {
    var rest := between + (SEQ + after);
    PlainStays(before, YEAR + rest, YEAR, y);
    TokenGoes(rest, YEAR, y);
    SeqStays(between, after, YEAR, y);
    Regroup(before, y, between, SEQ + after);
  }

  lemma Regroup(a: string, b: string, c: string, d: string)
    ensures a + (b + (c + d)) == a + b + c + d
  {
  }

  /** The text between year and number repeats the year's digits, and the digits that would follow do not
      begin with a zero. */
  predicate RepeatsYear(y: string, between: string)
    requires y != ""
  {
    between <= y + between && (y + between)[|between|] != '0'
  }

  lemma {:induction false} RepeatsDigits(y: string, between: string, n: nat)
    requires y != "" && AllDigits(y) && between <= y + between && n <= |between|
    ensures AllDigits(between[..n])
  {
    if n > 0 {
      RepeatsDigits(y, between, n - 1);
      var k := n - 1;
      assert between[k] == (y + between)[k];
      assert k >= |y| ==> between[k] == between[k - |y|] == between[..k][k - |y|];
      assert between[..n] == between[..n - 1] + [between[k]];
    }
  }

  /** Strips what two ids have in common. */
  lemma Stripped(before: string, x: string, y: string, after: string)
    ensures before + x + after == before + y + after <==> x == y
  {
    if before + x + after == before + y + after {
      var l, r := before + x + after, before + y + after;
      assert |x| == |y|;
      assert x == l[|before|..|before| + |x|] && y == r[|before|..|before| + |y|];
    }
  }

  /** The number without a year and the year with a number after it read the same. */
  predicate ReadsSame(y: string, between: string, m: nat, n: nat, width: nat) {
    between + SequenceText(m, width) == y + between + SequenceText(n, width)
  }

  lemma ReadsSameOnly(y: string, between: string, m: nat, n: nat, width: nat)
    requires |y| == 4 && ReadsSame(y, between, m, n, width)
    ensures RepeatsYear(y, between)
  {
    var a, b := SequenceText(m, width), SequenceText(n, width);
    var l, r := between + a, y + between + b;
    assert |a| == |b| + 4 && |b| >= width;
    assert l[..|between|] == between && r[..|between|] == (y + between)[..|between|];
    assert l[|between|] == a[0] && r[|between|] == (y + between)[|between|];
    UnfilledText(m, width);
  }

  lemma ReadsSameFor(y: string, between: string, n: nat, width: nat) returns (m: nat)
    requires |y| == 4 && AllDigits(y) && RepeatsYear(y, between)
    ensures ReadsSame(y, between, m, n, width)
  {
    var b, yb := SequenceText(n, width), y + between;
    var text := yb[|between|..] + b;
    TextDigits(y, between, b);
    ReadOff(between, yb, b);
    TextOf(text, width);
    m := Value(text);
  }

  lemma TextDigits(y: string, between: string, b: string)
    requires |y| == 4 && AllDigits(y) && RepeatsYear(y, between) && AllDigits(b)
    ensures var text := (y + between)[|between|..] + b;
            AllDigits(text) && |text| == 4 + |b| && text[0] != '0'
  {
    RepeatsDigits(y, between, |between|);
    assert between[..|between|] == between;
    var rest := (y + between)[|between|..];
    assert rest[0] == (y + between)[|between|];
  }

  lemma ReadOff(between: string, yb: string, b: string)
    requires between <= yb
    ensures between + (yb[|between|..] + b) == yb + b
  {
    assert yb == between + yb[|between|..];
  }

  /** Under such a template an id of a year and an id without one coincide, for some two numbers, exactly
      when the text between year and number repeats the year; and then every number of the year has one. */
  lemma CollisionsExactly(format: string, code: string, before: string, between: string, after: string,
                          key: string, width: nat, role: string)
    requires Brackets(before, between, after) && YearDigits(key) != ""
    requires Replace(format, BRANCH, code) == YearThenNumber(before, between, after)
    ensures (exists n: nat :: HasTwin(format, code, key, n, width, role)) <==> RepeatsYear(YearDigits(key), between)
    ensures RepeatsYear(YearDigits(key), between) ==>
              forall n: nat :: HasTwin(format, code, key, n, width, role)
  {
    forall n: nat
      ensures HasTwin(format, code, key, n, width, role) <==> RepeatsYear(YearDigits(key), between)
    {
      TwinExactly(format, code, before, between, after, key, n, width, role);
    }
    assert HasTwin(format, code, key, 1, width, role) <==> RepeatsYear(YearDigits(key), between);
  }

  /** The id of number m without a year is the id of number n in the year. */
  predicate Coincide(format: string, code: string, key: string, m: nat, n: nat, width: nat, role: string) {
    Render(format, code, "", m, width, role) == Render(format, code, key, n, width, role)
  }

  /** The id of number n in the year is also that of some number without a year. */
  ghost predicate HasTwin(format: string, code: string, key: string, n: nat, width: nat, role: string) {
    exists m: nat :: Coincide(format, code, key, m, n, width, role)
  }

  lemma TwinExactly(format: string, code: string, before: string, between: string, after: string,
                    key: string, n: nat, width: nat, role: string)
    requires Brackets(before, between, after) && YearDigits(key) != ""
    requires Replace(format, BRANCH, code) == YearThenNumber(before, between, after)
    ensures HasTwin(format, code, key, n, width, role) <==> RepeatsYear(YearDigits(key), between)
  {
    var y := YearDigits(key);
    if HasTwin(format, code, key, n, width, role) {
      var m: nat :| Coincide(format, code, key, m, n, width, role);
      CoincideReads(format, code, before, between, after, key, m, n, width, role);
      ReadsSameOnly(y, between, m, n, width);
    }
    if RepeatsYear(y, between) {
      var m := ReadsSameFor(y, between, n, width);
      CoincideReads(format, code, before, between, after, key, m, n, width, role);
    }
  }

  lemma CoincideReads(format: string, code: string, before: string, between: string, after: string,
                      key: string, m: nat, n: nat, width: nat, role: string)
    requires Brackets(before, between, after)
    requires Replace(format, BRANCH, code) == YearThenNumber(before, between, after)
    ensures Coincide(format, code, key, m, n, width, role) <==> ReadsSame(YearDigits(key), between, m, n, width)
  {
    var y, a, b := YearDigits(key), SequenceText(m, width), SequenceText(n, width);
    ShapeRendered(format, code, before, between, after, "", m, width, role);
    ShapeRendered(format, code, before, between, after, key, n, width, role);
    assert YearDigits("") == "";
    Inner(before, "", between, a, after);
    Inner(before, y, between, b, after);
    assert "" + between + a == between + a;
    Stripped(before, between + a, y + between + b, after);
  }

  lemma Inner(before: string, a: string, b: string, c: string, after: string)
    ensures before + a + b + c + after == before + (a + b + c) + after
  {
  }

  /** A dash, or any other text that does not begin with a digit, keeps the years of such a template apart. */
  lemma SeparatorKeepsApart(y: string, between: string)
    requires y != "" && AllDigits(y) && between != "" && !IsDigit(between[0])
    ensures !RepeatsYear(y, between)
  {
  }

  const DEFAULT_STUDENT_FORMAT := "{BRANCH}/{YEAR}/{SEQ}"

  /** Under a template with a separator between year and number an id gives its number back, whether or
      not the years align. */
  lemma SeparatedTells(r: Request, s: Request, before: string, between: string, after: string, m: nat, n: nat)
    requires SameScheme(r, s) && Brackets(before, between, after)
    requires Replace(r.format, BRANCH, r.code) == YearThenNumber(before, between, after)
    requires between != "" && !IsDigit(between[0]) && Candidate(r, m) == Candidate(s, n)
    ensures m == n
  {
    var y, z := YearDigits(CanonicalYear(r.year)), YearDigits(CanonicalYear(s.year));
    CandidateShape(r, before, between, after, m);
    CandidateShape(s, before, between, after, n);
    ShapesTell(before, between, after, y, z, m, n, r.width);
  }

  lemma CandidateShape(r: Request, before: string, between: string, after: string, n: nat)
    requires Brackets(before, between, after)
    requires Replace(r.format, BRANCH, r.code) == YearThenNumber(before, between, after)
    ensures Candidate(r, n) ==
            before + YearDigits(CanonicalYear(r.year)) + between + SequenceText(n, r.width) + after
  {
    ShapeRendered(r.format, r.code, before, between, after, CanonicalYear(r.year), n, r.width,
                  if r.faculty then "FAC" else "STU");
  }

  lemma ShapesTell(before: string, between: string, after: string, y: string, z: string,
                   m: nat, n: nat, width: nat)
    requires |y| in {0, 4} && |z| in {0, 4} && AllDigits(y) && AllDigits(z)
    requires between != "" && !IsDigit(between[0])
    requires before + y + between + SequenceText(m, width) + after ==
             before + z + between + SequenceText(n, width) + after
    ensures m == n
  {
    var a, b := SequenceText(m, width), SequenceText(n, width);
    Inner(before, y, between, a, after);
    Inner(before, z, between, b, after);
    Stripped(before, y + between + a, z + between + b, after);
    SameYears(y, z, between, a, b);
    SameTail(y + between, z + between, a, b);
    SequenceTextInjective(m, n, width);
  }

  /** The first character tells whether there is a year. */
  lemma SameYears(y: string, z: string, between: string, a: string, b: string)
    requires |y| in {0, 4} && |z| in {0, 4} && AllDigits(y) && AllDigits(z)
    requires between != "" && !IsDigit(between[0]) && y + between + a == z + between + b
    ensures |y| == |z|
  {
    assert (y + between + a)[0] == if y == "" then between[0] else y[0];
    assert (z + between + b)[0] == if z == "" then between[0] else z[0];
  }

  lemma SameTail(x: string, y: string, a: string, b: string)
    requires |x| == |y| && x + a == y + b
    ensures a == b
  {
    assert (x + a)[|x|..] == a && (y + b)[|y|..] == b;
  }

  /** Under the default format the ids that one counter hands out for students always differ, with or
      without a year, through either door and in every interleaving. */
  lemma DefaultStudentIdsDiffer(r: Request, s: Request, c: Counters, steps: seq<Key>, i: nat, j: nat)
    requires r.format == DEFAULT_STUDENT_FORMAT && Plain(r.code) && SameScheme(r, s)
    requires i < |steps| && j < |steps| && i != j && steps[i] == steps[j] == CounterKey(r)
    ensures Candidate(r, Handed(c, steps, i)) != Candidate(s, Handed(c, steps, j))
  {
    if i < j { HandedOnce(c, steps, i, j); } else { HandedOnce(c, steps, j, i); }
    DefaultShape(r.code);
    if Candidate(r, Handed(c, steps, i)) == Candidate(s, Handed(c, steps, j)) {
      SeparatedTells(r, s, r.code + "/", "/", "", Handed(c, steps, i), Handed(c, steps, j));
    }
  }

  lemma DefaultShape(code: string)
    requires Plain(code)
    ensures Replace(DEFAULT_STUDENT_FORMAT, BRANCH, code) == YearThenNumber(code + "/", "/", "")
    ensures Brackets(code + "/", "/", "")
  {
    var shape := YearThenNumber("/", "/", "");
    DefaultText();
    TokenGoes(shape, BRANCH, code);
    NoBranchIn("/", "/", "", code);
    Regroup2(code, "/", YEAR + ("/" + (SEQ + "")));
  }

  lemma Regroup2(a: string, b: string, c: string)
    ensures a + (b + c) == a + b + c
  {
  }

  lemma DefaultText()
    ensures DEFAULT_STUDENT_FORMAT == BRANCH + YearThenNumber("/", "/", "")
  {
    assert SEQ + "" == SEQ;
    assert "/" + SEQ == "/{SEQ}";
    assert YEAR + "/{SEQ}" == "{YEAR}/{SEQ}";
    assert "/" + "{YEAR}/{SEQ}" == "/{YEAR}/{SEQ}";
  }

  /** A template without the branch token keeps its shape. */
  lemma NoBranchIn(before: string, between: string, after: string, code: string)
    requires Brackets(before, between, after)
    ensures Replace(YearThenNumber(before, between, after), BRANCH, code) == YearThenNumber(before, between, after)
  {
    var rest := between + (SEQ + after);
    PlainStays(before, YEAR + rest, BRANCH, code);
    OtherStays(YEAR, rest, BRANCH, code);
    SeqStays(between, after, BRANCH, code);
  }

  /** A student admitted where ids are numbered across years, in a branch with or without a current year. */
  function Admission(format: string, width: nat, year: YearRef): Request {
    Request(0, "SCH", false, format, width, false, year, true)
  }

  /** An allocation that succeeds hands out the first of the next hundred ids that is not in use, or simply
      the next one where ids are not looked up. */
  lemma FirstFree(r: Request, taken: set<string>, last: nat, last': nat, id: string)
    requires Allocates(r, taken, last, last', Some(id))
    ensures last < last' <= last + 100 && id == Candidate(r, last')
    ensures if r.checked then id !in taken && forall n :: last < n < last' ==> Candidate(r, n) in taken
            else last' == last + 1
  {
    assert r.checked || Free(r, taken, last + 1);
    forall n | last < n < last' ensures r.checked && Candidate(r, n) in taken { assert !Free(r, taken, n); }
  }

  /** An allocated id that is looked up belongs to no active user. */
  lemma AllocatedIsFree(r: Request, taken: set<string>, last: nat, last': nat, id: string)
    requires r.checked && Allocates(r, taken, last, last', Some(id))
    ensures id !in taken
  {
  }

  /** Two requests whose candidates coincide are allocated the same id exactly as long as nobody active
      holds it when the second comes. */
  lemma ReusedExactly(s: Request, n: nat, taken: set<string>)
    requires s.checked && n > 0
    ensures Allocates(s, taken, n - 1, n, Some(Candidate(s, n))) <==> Candidate(s, n) !in taken
  {
  }

  /** Admissions numbered across years under {YEAR}{SEQ}: number 1 in 2025 and, once that student is no
      longer active, a later number in a branch without a current year are allocated the same id. */
  lemma UnalignedCollide(width: nat, taken: set<string>) returns (m: nat)
    requires Candidate(Admission("{YEAR}{SEQ}", width, RowFrom(2025)), 1) !in taken
    ensures var r, s := Admission("{YEAR}{SEQ}", width, RowFrom(2025)), Admission("{YEAR}{SEQ}", width, NoYear);
            var id := Candidate(r, 1);
            && SameScheme(r, s) && m > 1
            && Allocates(r, {}, 0, 1, Some(id)) && Allocates(s, taken, m - 1, m, Some(id))
  {
    m := LaterTwin(width);
    ReusedExactly(Admission("{YEAR}{SEQ}", width, RowFrom(2025)), 1, {});
    ReusedExactly(Admission("{YEAR}{SEQ}", width, NoYear), m, taken);
  }

  lemma LaterTwin(width: nat) returns (m: nat)
    ensures m > 1
    ensures Candidate(Admission("{YEAR}{SEQ}", width, NoYear), m) ==
            Candidate(Admission("{YEAR}{SEQ}", width, RowFrom(2025)), 1)
  {
    var key := CanonicalYear(RowFrom(2025));
    YearDigitsOf2025();
    NoBranch();
    m := ReadsSameFor("2025", "", 1, width);
    CoincideReads("{YEAR}{SEQ}", "SCH", "", "", "", key, m, 1, width, "STU");
    Longer("2025", m, width);
  }

  /** A text with four more characters is another number's, and not that of zero or one. */
  lemma Longer(y: string, m: nat, width: nat)
    requires |y| == 4 && ReadsSame(y, "", m, 1, width)
    ensures m > 1
  {
    var a, b := SequenceText(m, width), SequenceText(1, width);
    assert "" + a == a && y + "" + b == y + b;
    assert |a| == |b| + 4 && |Decimal(0)| == |Decimal(1)| == 1;
  }

  lemma YearDigitsOf2025()
    ensures YearDigits(CanonicalYear(RowFrom(2025))) == "2025"
  {
    DecimalOf2025();
    assert Span(2025)[..4] == "2025";
  }

  lemma DecimalOf2025()
    ensures Decimal(2025) == "2025"
  {
    assert Decimal(2) == "2" && Decimal(20) == "20" && Decimal(202) == "202";
  }

  lemma NoBranch()
    ensures Replace("{YEAR}{SEQ}", BRANCH, "SCH") == YearThenNumber("", "", "")
  {
    assert SEQ + "" == SEQ && "" + SEQ == SEQ && YEAR + SEQ == "{YEAR}{SEQ}" && "" + "{YEAR}{SEQ}" == "{YEAR}{SEQ}";
    NoBranchIn("", "", "", "SCH");
  }

  // ---------------------------------------------------------------- when an allocation fails

  /** An allocation fails exactly when ids are looked up and the next hundred are all taken. */
  lemma FailsExactly(r: Request, taken: set<string>, last: nat, last': nat, id: Option<string>)
    requires Allocates(r, taken, last, last', id)
    ensures id.None? <==>
            r.checked && forall n :: last < n <= last + 100 ==> Candidate(r, n) in taken
    ensures id.None? ==> last' == last + 100
  {
    if id.None? {
      assert !Free(r, taken, last + 1);
      forall n | last < n <= last + MAX_ATTEMPTS ensures Candidate(r, n) in taken { assert !Free(r, taken, n); }
    } else {
      assert Free(r, taken, last');
    }
  }

  /** Where the template does not show the year and numbering restarts with it, the first allocation of a
      new year fails exactly when the first hundred ids of an earlier year are all in use. */
  lemma RestartFailsExactly(r: Request, earlier: YearRef, taken: set<string>, last': nat, id: Option<string>)
    requires r.checked && Allocates(r, taken, 0, last', id)
    requires !Contains(Replace(r.format, BRANCH, r.code), YEAR) && !Contains(Replace(r.format, BRANCH, r.code), YY)
    ensures id.None? <==>
            forall n :: 1 <= n <= MAX_ATTEMPTS ==> Candidate(r.(year := earlier), n) in taken
  {
    FailsExactly(r, taken, 0, last', id);
    forall n: nat ensures Candidate(r, n) == Candidate(r.(year := earlier), n) { YearLeavesNoMark(r, earlier, n); }
  }

  /** A template without a year token renders the same in every year. */
  lemma YearLeavesNoMark(r: Request, other: YearRef, n: nat)
    requires !Contains(Replace(r.format, BRANCH, r.code), YEAR) && !Contains(Replace(r.format, BRANCH, r.code), YY)
    ensures Candidate(r, n) == Candidate(r.(year := other), n)
  {
    NoMark(r.format, r.code, CanonicalYear(r.year), CanonicalYear(other), if r.faculty then "FAC" else "STU");
  }
}
