/** `String.prototype.trim`, `startsWith` and `endsWith` over strings of
    Unicode scalar values. */
module Text {

  /** The code points `trim` removes: ECMAScript WhiteSpace (tab, vertical
      tab, form feed, BOM and every space separator of category Zs) and
      LineTerminator (LF, CR, LS, PS). */
  predicate IsSpace(c: char) {
    c == '\t' || c == '\n' || c == '\U{000B}' || c == '\U{000C}' || c == '\r'
    || c == ' ' || c == '\U{00A0}' || c == '\U{1680}'
    || ('\U{2000}' <= c <= '\U{200A}')
    || c == '\U{2028}' || c == '\U{2029}' || c == '\U{202F}' || c == '\U{205F}'
    || c == '\U{3000}' || c == '\U{FEFF}'
  }

  predicate AllSpace(s: string) {
    forall i :: 0 <= i < |s| ==> IsSpace(s[i])
  }

  /** Drops the leading white space: what is left is a suffix of `s`, what
      was dropped is all white space, and what is left does not start with it. */
  function TrimStart(s: string): (r: string)
    ensures |r| <= |s| && r == s[|s| - |r|..]
    ensures AllSpace(s[..|s| - |r|])
    ensures r != [] ==> !IsSpace(r[0])
  {
    if s != [] && IsSpace(s[0]) then TrimStart(s[1..]) else s
  }

  /** Drops the trailing white space: what is left is a prefix of `s`, what
      was dropped is all white space, and what is left does not end with it. */
  function TrimEnd(s: string): (r: string)
    ensures |r| <= |s| && r == s[..|r|]
    ensures AllSpace(s[|r|..])
    ensures r != [] ==> !IsSpace(r[|r| - 1])
  {
    if s != [] && IsSpace(s[|s| - 1]) then TrimEnd(s[..|s| - 1]) else s
  }

  /** `s.trim()`. It is empty exactly when `s` is all white space, and
      otherwise neither starts nor ends with white space. */
  function Trim(s: string): (r: string)
    ensures |r| <= |s|
    ensures r == [] <==> AllSpace(s)
    ensures r != [] ==> !IsSpace(r[0]) && !IsSpace(r[|r| - 1])
  {
    var t := TrimStart(s);
    assert t == [] ==> s[..|s|] == s;
    TrimEnd(t)
  }

  /** Dropping the leading white space stops at the first other character. */
  lemma {:induction false} TrimStartStops(s: string, i: nat)
    requires i <= |s| && AllSpace(s[..i])
    requires i < |s| ==> !IsSpace(s[i])
    ensures TrimStart(s) == s[i..]
  {
    if i > 0 {
      assert IsSpace(s[0]) by { assert s[..i][0] == s[0]; }
      var rest, spaces := s[1..], s[1..][..i - 1];
      forall n | 0 <= n < |spaces| ensures IsSpace(spaces[n]) {
        assert spaces[n] == s[..i][n + 1];
      }
      TrimStartStops(rest, i - 1);
    }
  }

  /** Dropping the trailing white space stops at the last other character. */
  lemma {:induction false} TrimEndStops(s: string, j: nat)
    requires j <= |s| && AllSpace(s[j..])
    requires j > 0 ==> !IsSpace(s[j - 1])
    ensures TrimEnd(s) == s[..j]
    decreases |s| - j
  {
    if j < |s| {
      var n := |s| - 1;
      assert s[j..][n - j] == s[n];
      assert s[..n][j..] == s[j..n];
      assert forall x | 0 <= x < n - j :: s[j..n][x] == s[j..][x];
      TrimEndStops(s[..n], j);
      assert s[..n][..j] == s[..j];
    }
  }

  /** White space followed by white space is white space. */
  lemma AllSpaceConcat(s: string, i: nat)
    requires i <= |s| && AllSpace(s[..i]) && AllSpace(s[i..])
    ensures AllSpace(s)
  {
    forall n | 0 <= n < |s| ensures IsSpace(s[n]) {
      if n < i { assert s[..i][n] == s[n]; } else { assert s[i..][n - i] == s[n]; }
    }
  }

  /** Trimming the end of a suffix of `s` stops where it stops on `s`. */
  lemma TrimEndOfSuffix(s: string, i: nat, j: nat)
    requires i < j <= |s| && AllSpace(s[j..]) && !IsSpace(s[j - 1])
    ensures TrimEnd(s[i..]) == s[i..j]
  {
    var t := s[i..];
    assert t[j - i..] == s[j..];
    assert t[j - i - 1] == s[j - 1];
    TrimEndStops(t, j - i);
    assert t[..j - i] == s[i..j];
  }

  /** Trim is determined by its description: whenever `s` splits into white
      space, a core that neither starts nor ends with white space, and white
      space, `s.trim()` is that core. */
  lemma TrimIsCore(s: string, i: nat, j: nat)
    requires i <= j <= |s|
    requires AllSpace(s[..i]) && AllSpace(s[j..])
    requires i < j ==> !IsSpace(s[i]) && !IsSpace(s[j - 1])
    ensures Trim(s) == s[i..j]
  {
    if i == j {
      AllSpaceConcat(s, i);
      assert s[i..j] == [];
    } else {
      TrimStartStops(s, i);
      TrimEndOfSuffix(s, i, j);
    }
  }

  /** Trimming twice is trimming once. */
  lemma TrimIdempotent(s: string)
    ensures Trim(Trim(s)) == Trim(s)
  {
    var r := Trim(s);
    assert r[..0] == [] && r[|r|..] == [];
    TrimIsCore(r, 0, |r|);
    assert r[0..|r|] == r;
  }

  /** `s.startsWith(p)`. */
  predicate StartsWith(s: string, p: string) {
    |p| <= |s| && s[..|p|] == p
  }

  /** `s.endsWith(p)`. */
  predicate EndsWith(s: string, p: string) {
    |p| <= |s| && s[|s| - |p|..] == p
  }
}
