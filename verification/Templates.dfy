/** Filling in a template: decimal numbers, and replacing the tokens of an id format. */
module Templates {
  // ---------------------------------------------------------------- decimal text

  predicate IsDigit(c: char) {
    '0' <= c <= '9'
  }

  predicate AllDigits(s: string) {
    forall i :: 0 <= i < |s| ==> IsDigit(s[i])
  }

  function Decimal(n: nat): (r: string)
    ensures r != [] && AllDigits(r)
  {
    (if n < 10 then [] else Decimal(n / 10)) + [('0' as int + n % 10) as char]
  }

  function Value(s: string): nat
    requires AllDigits(s)
  {
    if s == [] then 0 else 10 * Value(s[..|s| - 1]) + (s[|s| - 1] as int - '0' as int)
  }

  lemma {:induction false} DecimalValue(n: nat)
    ensures Value(Decimal(n)) == n
  {
    if n >= 10 {
      DecimalValue(n / 10);
      assert Decimal(n)[..|Decimal(n)| - 1] == Decimal(n / 10);
    }
  }

  function ZeroFill(s: string, width: nat): (r: string)
    ensures |r| == if |s| < width then width else |s|
    ensures AllDigits(s) ==> AllDigits(r)
    decreases width - |s|
  {
    if |s| < width then ZeroFill("0" + s, width) else s
  }

  lemma {:induction false} ZeroValue(s: string)
    requires AllDigits(s)
    ensures Value("0" + s) == Value(s)
  {
    if s != [] {
      ZeroValue(s[..|s| - 1]);
      assert ("0" + s)[..|s|] == "0" + s[..|s| - 1];
    }
  }

  lemma {:induction false} FilledValue(s: string, width: nat)
    requires AllDigits(s)
    ensures Value(ZeroFill(s, width)) == Value(s)
    decreases width - |s|
  {
    if |s| < width {
      ZeroValue(s);
      FilledValue("0" + s, width);
    }
  }

  function SequenceText(n: nat, width: nat): (r: string)
    ensures AllDigits(r)
  {
    ZeroFill(Decimal(n), if width < 1 then 1 else width)
  }

  lemma SequenceTextInjective(m: nat, n: nat, width: nat)
    requires SequenceText(m, width) == SequenceText(n, width)
    ensures m == n
  {
    var w := if width < 1 then 1 else width;
    FilledValue(Decimal(m), w);
    FilledValue(Decimal(n), w);
    DecimalValue(m);
    DecimalValue(n);
  }

  // ---------------------------------------------------------------- templates

  /** Replaces every occurrence, left to right, without rescanning what was put in. */
  function Replace(s: string, token: string, put: string): string
    requires token != []
  {
    if |s| < |token| then s
    else if token <= s then put + Replace(s[|token|..], token, put)
    else [s[0]] + Replace(s[1..], token, put)
  }

  predicate At(s: string, token: string, i: nat) {
    i + |token| <= |s| && s[i..i + |token|] == token
  }

  predicate Contains(s: string, token: string) {
    exists i: nat :: i <= |s| && At(s, token, i)
  }

  lemma ContainsTail(a: string, b: string, token: string)
    requires Contains(b, token)
    ensures Contains(a + b, token)
  {
    var i: nat :| i <= |b| && At(b, token, i);
    assert At(a + b, token, |a| + i);
  }

  lemma ContainsRest(s: string, token: string)
    requires token != [] && Contains(s, token) && !(token <= s)
    ensures s != [] && Contains(s[1..], token)
  {
    var i: nat :| i <= |s| && At(s, token, i);
    assert i > 0;
    assert At(s[1..], token, i - 1);
  }

  lemma {:induction false} ReplaceNothing(s: string, token: string, put: string)
    requires token != [] && !Contains(s, token)
    ensures Replace(s, token, put) == s
  {
    if |s| >= |token| {
      if token <= s { assert At(s, token, 0); }
      assert s == s[..1] + s[1..];
      if Contains(s[1..], token) { ContainsTail(s[..1], s[1..], token); }
      ReplaceNothing(s[1..], token, put);
    }
  }

  lemma {:induction false} ReplaceGrows(s: string, token: string, a: string, b: string)
    requires token != [] && |a| <= |b|
    ensures |Replace(s, token, a)| <= |Replace(s, token, b)|
    ensures |a| == |b| ==> |Replace(s, token, a)| == |Replace(s, token, b)|
    ensures |a| < |b| && Contains(s, token) ==> |Replace(s, token, a)| < |Replace(s, token, b)|
  {
    if |s| >= |token| {
      if token <= s {
        ReplaceGrows(s[|token|..], token, a, b);
      } else {
        ReplaceGrows(s[1..], token, a, b);
        if Contains(s, token) { ContainsRest(s, token); }
      }
    }
  }

  lemma {:induction false} ReplaceTellsSame(s: string, token: string, a: string, b: string)
    requires token != [] && |a| == |b| && Contains(s, token)
    requires Replace(s, token, a) == Replace(s, token, b)
    ensures a == b
  {
    if |s| >= |token| {
      if token <= s {
        var x, y := Replace(s[|token|..], token, a), Replace(s[|token|..], token, b);
        assert (a + x)[..|a|] == a && (b + y)[..|a|] == b;
      } else {
        ContainsRest(s, token);
        var x, y := Replace(s[1..], token, a), Replace(s[1..], token, b);
        assert ([s[0]] + x)[1..] == x && ([s[0]] + y)[1..] == y;
        ReplaceTellsSame(s[1..], token, a, b);
      }
    }
  }

  /** What was put in for a token that occurs can be told from the result. */
  lemma ReplaceInjective(s: string, token: string, a: string, b: string)
    requires token != [] && Contains(s, token) && Replace(s, token, a) == Replace(s, token, b)
    ensures a == b
  {
    if |a| <= |b| { ReplaceGrows(s, token, a, b); }
    if |b| <= |a| { ReplaceGrows(s, token, b, a); }
    ReplaceTellsSame(s, token, a, b);
  }

  const BRANCH := "{BRANCH}"
  const YEAR := "{YEAR}"
  const YY := "{YY}"
  const ROLE := "{ROLE}"
  const SEQ := "{SEQ}"

  /** A braced word that cannot be confused with the sequence token. */
  predicate OtherToken(t: string) {
    |t| >= 2 && t[0] == '{' && t[1] != 'S' && forall k :: 1 <= k < |t| ==> t[k] != '{'
  }

  lemma ReplacePlain(s: string, token: string, put: string)
    requires OtherToken(token) && s != [] && s[0] != '{'
    ensures Replace(s, token, put) == [s[0]] + Replace(s[1..], token, put)
  {
    assert s == [s[0]] + s[1..];
  }

  lemma ReplaceAtSeq(s: string, token: string, put: string)
    requires OtherToken(token) && SEQ <= s
    ensures Contains(Replace(s, token, put), SEQ)
  {
    var r := Replace(s, token, put);
    var s1, s2, s3, s4 := s[1..], s[1..][1..], s[1..][1..][1..], s[1..][1..][1..][1..];
    assert s[0] == '{' && s[1] == 'S';
    ReplacePlain(s1, token, put);
    ReplacePlain(s2, token, put);
    ReplacePlain(s3, token, put);
    ReplacePlain(s4, token, put);
    assert s == [s[0]] + s1;
    assert r == ['{'] + Replace(s1, token, put);
    assert r[..5] == SEQ;
    assert At(r, SEQ, 0);
  }

  /** Filling in another token leaves the sequence token where it was found. */
  lemma {:induction false} SeqSurvives(s: string, token: string, put: string)
    requires OtherToken(token) && Contains(s, SEQ)
    ensures Contains(Replace(s, token, put), SEQ)
  {
    var i: nat :| i <= |s| && At(s, SEQ, i);
    if i == 0 {
      ReplaceAtSeq(s, token, put);
    } else if |s| >= |token| {
      assert SEQ[0] == '{' && s[i..i + |SEQ|][0] == s[i];
      var skip := if token <= s then |token| else 1;
      assert At(s[skip..], SEQ, i - skip);
      SeqSurvives(s[skip..], token, put);
      ContainsTail(if token <= s then put else [s[0]], Replace(s[skip..], token, put), SEQ);
    }
  }

  // ---------------------------------------------------------------- templates that differ in digits

  /** Equal but for which digits stand where digits stand. */
  ghost predicate Alike(a: string, b: string) {
    |a| == |b| && forall i :: 0 <= i < |a| ==> a[i] == b[i] || (IsDigit(a[i]) && IsDigit(b[i]))
  }

  predicate NoDigits(t: string) {
    forall i :: 0 <= i < |t| ==> !IsDigit(t[i])
  }

  lemma AlikeAt(a: string, b: string, token: string, i: nat)
    requires Alike(a, b) && NoDigits(token)
    ensures At(a, token, i) <==> At(b, token, i)
  {
    if i + |token| <= |a| {
      var x, y := a[i..i + |token|], b[i..i + |token|];
      forall k | 0 <= k < |token| ensures x[k] == token[k] <==> y[k] == token[k] {
        assert x[k] == a[i + k] && y[k] == b[i + k];
      }
      assert x == token ==> y == token;
      assert y == token ==> x == token;
    }
  }

  lemma AlikePrefix(a: string, b: string, token: string)
    requires Alike(a, b) && NoDigits(token)
    ensures token <= a <==> token <= b
  {
    AlikeAt(a, b, token, 0);
    assert token <= a <==> At(a, token, 0);
    assert token <= b <==> At(b, token, 0);
  }

  lemma AlikeJoin(a: string, b: string, x: string, y: string)
    requires Alike(a, b) && Alike(x, y)
    ensures Alike(a + x, b + y)
  {
  }

  lemma AlikeTail(a: string, b: string, n: nat)
    requires Alike(a, b) && n <= |a|
    ensures Alike(a[n..], b[n..])
  {
  }

  /** Filling alike strings into alike templates gives alike results. */
  lemma {:induction false} AlikeReplace(a: string, b: string, token: string, x: string, y: string)
    requires token != [] && NoDigits(token) && Alike(a, b) && Alike(x, y)
    ensures Alike(Replace(a, token, x), Replace(b, token, y))
  {
    if |a| >= |token| {
      AlikePrefix(a, b, token);
      var skip := if token <= a then |token| else 1;
      AlikeTail(a, b, skip);
      AlikeReplace(a[skip..], b[skip..], token, x, y);
      AlikeJoin(if token <= a then x else [a[0]], if token <= a then y else [b[0]],
                Replace(a[skip..], token, x), Replace(b[skip..], token, y));
    }
  }

  /** What was put in for a token can be told from the results even of two alike templates. */
  lemma {:induction false} AlikeTellsSame(a: string, b: string, token: string, x: string, y: string)
    requires token != [] && NoDigits(token) && Alike(a, b) && |x| == |y| && Contains(a, token)
    requires Replace(a, token, x) == Replace(b, token, y)
    ensures x == y
  {
    if |a| >= |token| {
      AlikePrefix(a, b, token);
      if token <= a {
        var u, v := Replace(a[|token|..], token, x), Replace(b[|token|..], token, y);
        assert (x + u)[..|x|] == x && (y + v)[..|y|] == y;
      } else {
        ContainsRest(a, token);
        AlikeTail(a, b, 1);
        var u, v := Replace(a[1..], token, x), Replace(b[1..], token, y);
        assert ([a[0]] + u)[1..] == u && ([b[0]] + v)[1..] == v;
        AlikeTellsSame(a[1..], b[1..], token, x, y);
      }
    }
  }

  lemma Reflexive(a: string)
    ensures Alike(a, a)
  {
  }

  lemma AlikeInjective(a: string, b: string, token: string, x: string, y: string)
    requires token != [] && NoDigits(token) && Alike(a, b) && Contains(a, token)
    requires Replace(a, token, x) == Replace(b, token, y)
    ensures x == y
  {
    Reflexive(y);
    AlikeReplace(a, b, token, y, y);
    if |x| <= |y| { ReplaceGrows(a, token, x, y); }
    if |y| <= |x| { ReplaceGrows(a, token, y, x); }
    AlikeTellsSame(a, b, token, x, y);
  }

  // ---------------------------------------------------------------- text without braces

  predicate Plain(s: string) {
    forall i :: 0 <= i < |s| ==> s[i] != '{'
  }

  predicate Braced(t: string) {
    |t| >= 2 && t[0] == '{' && Plain(t[1..])
  }

  /** Text without braces is copied. */
  lemma {:induction false} PlainStays(a: string, rest: string, token: string, put: string)
    requires Plain(a) && Braced(token)
    ensures Replace(a + rest, token, put) == a + Replace(rest, token, put)
  {
    if a == "" {
      assert a + rest == rest;
    } else {
      PlainStays(a[1..], rest, token, put);
      assert a + rest == [a[0]] + (a[1..] + rest) && a == [a[0]] + a[1..];
      HeadStays(a[0], a[1..] + rest, token, put);
    }
  }

  lemma HeadStays(c: char, rest: string, token: string, put: string)
    requires c != '{' && Braced(token)
    ensures Replace([c] + rest, token, put) == [c] + Replace(rest, token, put)
  {
    var s := [c] + rest;
    assert s[0] == c && s[1..] == rest;
  }

  /** The token is replaced where it stands first. */
  lemma TokenGoes(rest: string, token: string, put: string)
    requires token != []
    ensures Replace(token + rest, token, put) == put + Replace(rest, token, put)
  {
    assert (token + rest)[|token|..] == rest;
  }

  /** Another braced word is copied. */
  lemma OtherStays(other: string, rest: string, token: string, put: string)
    requires Braced(other) && Braced(token) && other[1] != token[1]
    ensures Replace(other + rest, token, put) == other + Replace(rest, token, put)
  {
    DifferentStays(other, rest, token, put, 1);
  }

  /** A braced word that differs from the token somewhere is copied. */
  lemma DifferentStays(other: string, rest: string, token: string, put: string, k: nat)
    requires Braced(other) && Braced(token) && k < |other| && k < |token| && other[k] != token[k]
    ensures Replace(other + rest, token, put) == other + Replace(rest, token, put)
  {
    var s, tail := other + rest, other[1..];
    assert s[0] == '{' && s[k] == other[k] && s[1..] == tail + rest;
    assert Replace(s, token, put) == [s[0]] + Replace(s[1..], token, put);
    PlainStays(tail, rest, token, put);
    assert other == ['{'] + tail;
  }

  lemma PlainWhole(a: string, token: string, put: string)
    requires Plain(a) && Braced(token)
    ensures Replace(a, token, put) == a
  {
    PlainStays(a, "", token, put);
    assert a + "" == a;
  }

  // ---------------------------------------------------------------- numbers from digits

  /** Digits that do not begin with a zero are the decimal of their value. */
  lemma {:induction false} DecimalOf(s: string)
    requires s != [] && AllDigits(s) && (|s| > 1 ==> s[0] != '0')
    ensures Decimal(Value(s)) == s
  {
    var front, d := s[..|s| - 1], s[|s| - 1] as int - '0' as int;
    assert s == front + [s[|s| - 1]];
    if front == [] {
      assert Value(front) == 0;
    } else {
      DecimalOf(front);
      Positive(front);
      var v, u := Value(s), Value(front);
      assert v == 10 * u + d && v / 10 == u && v % 10 == d;
    }
  }

  lemma {:induction false} Positive(s: string)
    requires s != [] && AllDigits(s) && s[0] != '0'
    ensures Value(s) > 0
  {
    if |s| > 1 { Positive(s[..|s| - 1]); }
  }

  /** A decimal of more than one digit does not begin with a zero. */
  lemma {:induction false} NoLeadingZero(n: nat)
    ensures |Decimal(n)| > 1 ==> Decimal(n)[0] != '0'
    ensures n > 0 ==> Decimal(n)[0] != '0'
  {
    if n >= 10 {
      NoLeadingZero(n / 10);
      assert Decimal(n)[0] == Decimal(n / 10)[0];
    }
  }

  /** A sequence text longer than its width is not filled, so it does not begin with a zero. */
  lemma UnfilledText(n: nat, width: nat)
    requires |SequenceText(n, width)| > width && |SequenceText(n, width)| > 1
    ensures SequenceText(n, width)[0] != '0'
  {
    NoLeadingZero(n);
  }

  lemma TextOf(s: string, width: nat)
    requires s != [] && AllDigits(s) && (|s| > 1 ==> s[0] != '0') && |s| >= width
    ensures SequenceText(Value(s), width) == s
  {
    DecimalOf(s);
  }

  // ---------------------------------------------------------------- a template as text and slots

  datatype Slot = BranchSlot | YearSlot | ShortYearSlot | RoleSlot | NumberSlot

  datatype Piece = Word(text: string) | Token(slot: Slot)

  function Mark(k: Slot): string {
    match k
    case BranchSlot => "{BRANCH}"
    case YearSlot => "{YEAR}"
    case ShortYearSlot => "{YY}"
    case RoleSlot => "{ROLE}"
    case NumberSlot => "{SEQ}"
  }

  /** The template that the pieces spell. */
  function Spelled(ps: seq<Piece>): string {
    if ps == [] then ""
    else (if ps[0].Word? then ps[0].text else Mark(ps[0].slot)) + Spelled(ps[1..])
  }

  /** The text that each slot is filled with. */
  datatype Values = Values(branch: string, year: string, shortYear: string, role: string, number: string)
  {
    function Of(k: Slot): string {
      match k
      case BranchSlot => branch
      case YearSlot => year
      case ShortYearSlot => shortYear
      case RoleSlot => role
      case NumberSlot => number
    }
  }

  /** The pieces with every slot filled at once. */
  function Filled(ps: seq<Piece>, v: Values): string {
    if ps == [] then ""
    else (if ps[0].Word? then ps[0].text else v.Of(ps[0].slot)) + Filled(ps[1..], v)
  }

  function Put(ps: seq<Piece>, k: Slot, text: string): (r: seq<Piece>)
    ensures |r| == |ps|
  {
    seq(|ps|, i requires 0 <= i < |ps| => if ps[i] == Token(k) then Word(text) else ps[i])
  }

  predicate PlainTexts(ps: seq<Piece>) {
    forall i :: 0 <= i < |ps| && ps[i].Word? ==> Plain(ps[i].text)
  }

  lemma MarksDiffer(j: Slot, k: Slot) returns (at: nat)
    requires j != k
    ensures Braced(Mark(j)) && Braced(Mark(k)) && at < |Mark(j)| && at < |Mark(k)| && Mark(j)[at] != Mark(k)[at]
  {
    at := if {j, k} == {YearSlot, ShortYearSlot} then 2 else 1;
  }

  /** Replacing a token's every occurrence fills its slots and leaves the other pieces. */
  lemma {:induction false} ReplaceFills(ps: seq<Piece>, k: Slot, text: string)
    requires PlainTexts(ps)
    ensures Replace(Spelled(ps), Mark(k), text) == Spelled(Put(ps, k, text))
  {
    if ps != [] {
      var rest, first := Spelled(ps[1..]), ps[0];
      ReplaceFills(ps[1..], k, text);
      assert Put(ps, k, text)[1..] == Put(ps[1..], k, text);
      if first.Word? {
        assert Braced(Mark(k));
        PlainStays(first.text, rest, Mark(k), text);
      } else if first.slot == k {
        TokenGoes(rest, Mark(k), text);
      } else {
        var at := MarksDiffer(first.slot, k);
        DifferentStays(Mark(first.slot), rest, Mark(k), text, at);
      }
    }
  }

  lemma PutKeepsPlain(ps: seq<Piece>, k: Slot, text: string)
    requires PlainTexts(ps) && Plain(text)
    ensures PlainTexts(Put(ps, k, text))
  {
  }

  function PutAll(ps: seq<Piece>, v: Values): seq<Piece> {
    Put(Put(Put(Put(Put(ps, BranchSlot, v.branch), YearSlot, v.year), ShortYearSlot, v.shortYear), RoleSlot, v.role),
        NumberSlot, v.number)
  }

  lemma {:induction false} PutAllFills(ps: seq<Piece>, v: Values)
    ensures Spelled(PutAll(ps, v)) == Filled(ps, v)
  {
    if ps != [] {
      PutAllFills(ps[1..], v);
      assert PutAll(ps, v)[1..] == PutAll(ps[1..], v);
      assert PutAll(ps, v)[0] == if ps[0].Word? then ps[0] else Word(v.Of(ps[0].slot));
    }
  }

  lemma Marks()
    ensures Mark(BranchSlot) == BRANCH && Mark(YearSlot) == YEAR && Mark(ShortYearSlot) == YY
    ensures Mark(RoleSlot) == ROLE && Mark(NumberSlot) == SEQ
  {
  }

  /** Replacing the tokens one after the other, in this order, fills all slots at once, as long as no text and
      no value has an opening brace. */
  lemma SequentialIsSimultaneous(ps: seq<Piece>, v: Values)
    requires PlainTexts(ps) && Plain(v.branch) && Plain(v.year) && Plain(v.shortYear) && Plain(v.role)
    ensures Replace(Replace(Replace(Replace(Replace(Spelled(ps), BRANCH, v.branch), YEAR, v.year),
                                    YY, v.shortYear), ROLE, v.role), SEQ, v.number) == Filled(ps, v)
  {
    Marks();
    var a := Put(ps, BranchSlot, v.branch);
    var b := Put(a, YearSlot, v.year);
    var c := Put(b, ShortYearSlot, v.shortYear);
    var d := Put(c, RoleSlot, v.role);
    ReplaceFills(ps, BranchSlot, v.branch);
    PutKeepsPlain(ps, BranchSlot, v.branch);
    ReplaceFills(a, YearSlot, v.year);
    PutKeepsPlain(a, YearSlot, v.year);
    ReplaceFills(b, ShortYearSlot, v.shortYear);
    PutKeepsPlain(b, ShortYearSlot, v.shortYear);
    ReplaceFills(c, RoleSlot, v.role);
    PutKeepsPlain(c, RoleSlot, v.role);
    ReplaceFills(d, NumberSlot, v.number);
    PutAllFills(ps, v);
  }

  /** The text of a number: its digits, filled with zeros to the width. */
  lemma SequenceTextIs(n: nat, width: nat)
    ensures var s := SequenceText(n, width);
            && AllDigits(s) && Value(s) == n
            && |s| == (if |Decimal(n)| >= width then |Decimal(n)| else width)
            && (|s| > width && |s| > 1 ==> s[0] != '0')
  {
    FilledValue(Decimal(n), if width < 1 then 1 else width);
    DecimalValue(n);
    if |SequenceText(n, width)| > width && |SequenceText(n, width)| > 1 { UnfilledText(n, width); }
  }
}
