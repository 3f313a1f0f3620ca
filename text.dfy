/**
 * Java's String.trim() and the "blank" test built on it.
 * trim() strips every leading and trailing character whose code is at most U+0020;
 * `s.trim().isEmpty()` therefore holds exactly when every character of s is such a character.
 */
module Text {

  /** A character that String.trim() strips. */
  predicate IsSpace(c: char) {
    c <= ' '
  }

  /** Every character of s would be stripped by trim(). */
  predicate AllSpace(s: string) {
    forall i :: 0 <= i < |s| ==> IsSpace(s[i])
  }

  /** s with its leading space characters removed. */
  function TrimStart(s: string): (r: string)
    ensures |r| <= |s| && r == s[|s| - |r|..]
    ensures AllSpace(s[..|s| - |r|])
    ensures r == [] || !IsSpace(r[0])
  {
    if s == [] || !IsSpace(s[0]) then s else TrimStart(s[1..])
  }

  /** s with its trailing space characters removed. */
  function TrimEnd(s: string): (r: string)
    ensures |r| <= |s| && r == s[..|r|]
    ensures AllSpace(s[|r|..])
    ensures r == [] || !IsSpace(r[|r| - 1])
  {
    if s == [] || !IsSpace(s[|s| - 1]) then s else TrimEnd(s[..|s| - 1])
  }

  /** String.trim(): the infix of s left after stripping spaces at both ends. */
  function Trim(s: string): (r: string)
    ensures r == [] || (!IsSpace(r[0]) && !IsSpace(r[|r| - 1]))
    ensures exists i, j :: 0 <= i <= j <= |s| && r == s[i..j] && AllSpace(s[..i]) && AllSpace(s[j..])
  {
    var t := TrimStart(s);
    var r := TrimEnd(t);
    TrimIsInfix(s, t, r);
    r
  }

  /** Stripping the start and then the end leaves an infix of s bordered by spaces. */
  lemma TrimIsInfix(s: string, t: string, r: string)
    requires |t| <= |s| && t == s[|s| - |t|..] && AllSpace(s[..|s| - |t|]) && (t == [] || !IsSpace(t[0]))
    requires |r| <= |t| && r == t[..|r|] && AllSpace(t[|r|..]) && (r == [] || !IsSpace(r[|r| - 1]))
    ensures r == [] || (!IsSpace(r[0]) && !IsSpace(r[|r| - 1]))
    ensures exists i, j :: 0 <= i <= j <= |s| && r == s[i..j] && AllSpace(s[..i]) && AllSpace(s[j..])
  {
    var i := |s| - |t|;
    var j := i + |r|;
    if r != [] {
      assert r[0] == t[0];
    }
    assert AllSpace(s[..i]);
    assert r == s[i..j] by {
      assert r == t[..|r|] && t == s[i..];
    }
    assert AllSpace(s[j..]) by {
      assert AllSpace(t[|r|..]) && t == s[i..];
      assert s[j..] == t[|r|..];
    }
  }

  /** `s.trim().isEmpty()`: holds exactly when every character of s is a space. */
  predicate IsBlank(s: string): (r: bool)
    ensures r <==> AllSpace(s)
  {
    BlankIffAllSpace(s);
    Trim(s) == []
  }

  /** A string is blank exactly when all of its characters are spaces. */
  lemma {:induction false} BlankIffAllSpace(s: string)
    ensures Trim(s) == [] <==> AllSpace(s)
  {
    var i, j :| 0 <= i <= j <= |s| && Trim(s) == s[i..j] && AllSpace(s[..i]) && AllSpace(s[j..]);
    if Trim(s) == [] {
      assert i == j;
      forall k | 0 <= k < |s| ensures IsSpace(s[k]) {
        if k < i { assert s[..i][k] == s[k]; } else { assert s[j..][k - j] == s[k]; }
      }
    } else {
      assert !IsSpace(s[i]);
    }
  }

  /** A string holding some non-space character (such as '@') is not blank. */
  lemma NotBlankWhenHolding(s: string, c: char)
    requires c in s && !IsSpace(c)
    ensures !IsBlank(s)
  {
    BlankIffAllSpace(s);
  }
}
