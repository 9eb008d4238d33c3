/** The few string operations that titles and identifiers go through. */
module Text {
  predicate IsSpace(c: char) {
    c == ' ' || '\t' <= c <= '\r'
  }

  function StripLeft(s: string): (r: string)
    ensures r != [] ==> !IsSpace(r[0])
    ensures s != [] && !IsSpace(s[0]) ==> r == s
  {
    if s != [] && IsSpace(s[0]) then StripLeft(s[1..]) else s
  }

  function StripRight(s: string): (r: string)
    ensures r <= s
    ensures r != [] ==> !IsSpace(r[|r| - 1])
    ensures s != [] && !IsSpace(s[|s| - 1]) ==> r == s
  {
    if s != [] && IsSpace(s[|s| - 1]) then StripRight(s[..|s| - 1]) else s
  }

  function Strip(s: string): (r: string)
    ensures r != [] ==> !IsSpace(r[0]) && !IsSpace(r[|r| - 1])
    ensures s != [] && !IsSpace(s[0]) && !IsSpace(s[|s| - 1]) ==> r == s
  {
    StripRight(StripLeft(s))
  }

  predicate Blank(s: string) {
    forall i :: 0 <= i < |s| ==> s[i] == ' ' || '\t' <= s[i] <= '\r'
  }

  /** r is s without i leading and the trailing blanks, and neither begins nor ends with a blank. */
  ghost predicate Trimmed(s: string, r: string, i: nat) {
    && i + |r| <= |s| && s[i..i + |r|] == r && Blank(s[..i]) && Blank(s[i + |r|..])
    && (r != [] ==> !Blank(r[..1]) && !Blank(r[|r| - 1..]))
  }

  lemma {:induction false} LeftTrimmed(s: string) returns (i: nat)
    ensures i <= |s| && s[i..] == StripLeft(s) && Blank(s[..i])
  {
    if s != [] && IsSpace(s[0]) {
      var k := LeftTrimmed(s[1..]);
      i := k + 1;
      assert s[i..] == s[1..][k..];
      forall j | 0 <= j < i ensures IsSpace(s[..i][j]) { if j > 0 { assert s[..i][j] == s[1..][..k][j - 1]; } }
    } else {
      i := 0;
    }
  }

  lemma {:induction false} RightTrimmed(s: string)
    ensures StripRight(s) <= s && Blank(s[|StripRight(s)|..])
  {
    if s != [] && IsSpace(s[|s| - 1]) {
      var n := |s| - 1;
      RightTrimmed(s[..n]);
      var r := StripRight(s);
      assert r == StripRight(s[..n]);
      forall j | 0 <= j < |s[|r|..]| ensures IsSpace(s[|r|..][j]) {
        if |r| + j < n { assert s[|r|..][j] == s[..n][|r|..][j]; }
      }
    }
  }

  /** Stripping takes off exactly the blanks at both ends. */
  lemma StripTrims(s: string)
    ensures exists i: nat :: Trimmed(s, Strip(s), i)
  {
    var i := LeftTrimmed(s);
    var t, r := StripLeft(s), Strip(s);
    RightTrimmed(t);
    assert s[i..i + |r|] == t[..|r|] == r && s[i + |r|..] == t[|r|..];
    assert r != [] ==> !IsSpace(r[..1][0]) && !IsSpace(r[|r| - 1..][0]);
    assert Trimmed(s, r, i);
  }

  /** Nothing is left exactly of a blank text. */
  lemma StripBlank(s: string)
    ensures Strip(s) == "" <==> Blank(s)
  {
    StripTrims(s);
    var i: nat :| Trimmed(s, Strip(s), i);
    TrimmedBlank(s, Strip(s), i);
  }

  lemma TrimmedBlank(s: string, r: string, i: nat)
    requires Trimmed(s, r, i)
    ensures r == "" <==> Blank(s)
  {
    if r == "" {
      forall j | 0 <= j < |s| ensures IsSpace(s[j]) {
        assert s[j] == if j < i then s[..i][j] else s[i..][j - i];
      }
    } else {
      assert r[..1][0] == r[0] == s[i];
    }
  }
}
