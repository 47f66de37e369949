/**
 * The few `java.lang.String` operations the sample relies on: `trim`,
 * `startsWith`, `indexOf`, `toLowerCase` and `equalsIgnoreCase`.
 */
module JavaStrings {

  /** `p` occurs in `s` starting at index `i`. */
  predicate OccursAt(s: string, p: string, i: int)
  {
    0 <= i && i + |p| <= |s| && s[i..i + |p|] == p
  }

  /** `p` occurs at `i` and nowhere before. */
  predicate FirstAt(s: string, p: string, i: int)
  {
    OccursAt(s, p, i) && forall j :: 0 <= j < i ==> !OccursAt(s, p, j)
  }

  predicate Contains(s: string, p: string)
  {
    exists i :: 0 <= i <= |s| && OccursAt(s, p, i)
  }

  /** `s.startsWith(p)`. */
  predicate StartsWith(s: string, p: string)
  {
    |p| <= |s| && s[..|p|] == p
  }

  /** `s.indexOf(p, from)`: the first occurrence of `p` at or after `from`, or -1. */
  function IndexFrom(s: string, p: string, from: nat): (r: int)
    ensures r == -1 || (from <= r && OccursAt(s, p, r))
    ensures forall j :: from <= j && (r == -1 || j < r) ==> !OccursAt(s, p, j)
    decreases |s| - from
  {
    if from + |p| > |s| then -1
    else if s[from..from + |p|] == p then from
    else IndexFrom(s, p, from + 1)
  }

  /** `s.indexOf(p)`: the first occurrence of `p` in `s`, or -1 when there is none. */
  function IndexOf(s: string, p: string): (r: int)
    ensures r == -1 <==> !Contains(s, p)
    ensures r != -1 ==> FirstAt(s, p, r)
  {
    IndexFrom(s, p, 0)
  }

  /** `trim` removes every character whose code is at most U+0020. */
  predicate IsTrimmed(c: char)
  {
    c <= ' '
  }

  function TrimStart(s: string): string
  {
    if s != [] && IsTrimmed(s[0]) then TrimStart(s[1..]) else s
  }

  function TrimEnd(s: string): string
  {
    if s != [] && IsTrimmed(s[|s| - 1]) then TrimEnd(s[..|s| - 1]) else s
  }

  /** `s.trim()`. */
  function Trim(s: string): string
  {
    TrimEnd(TrimStart(s))
  }

  /** `r` is the slice of `s` at offset `a`, and only trimmed characters lie outside it. */
  predicate CutFrom(s: string, r: string, a: int)
  {
    && 0 <= a <= a + |r| <= |s| && r == s[a..a + |r|]
    && (forall k :: 0 <= k < a ==> IsTrimmed(s[k]))
    && (forall k :: a + |r| <= k < |s| ==> IsTrimmed(s[k]))
  }

  lemma {:induction false} TrimStartCuts(s: string)
    ensures CutFrom(s, TrimStart(s), |s| - |TrimStart(s)|)
    ensures TrimStart(s) != [] ==> !IsTrimmed(TrimStart(s)[0])
  {
    if s != [] && IsTrimmed(s[0]) {
      TrimStartCuts(s[1..]);
    }
  }

  lemma {:induction false} TrimEndCuts(s: string)
    ensures CutFrom(s, TrimEnd(s), 0)
    ensures TrimEnd(s) != [] ==> !IsTrimmed(TrimEnd(s)[|TrimEnd(s)| - 1])
  {
    if s != [] && IsTrimmed(s[|s| - 1]) {
      TrimEndCuts(s[..|s| - 1]);
    }
  }

  /**
   * `s.trim()` is the slice of `s` that neither starts nor ends with a trimmed
   * character, and everything cut off on either side is a trimmed character.
   */
  lemma TrimCuts(s: string)
    ensures exists a :: CutFrom(s, Trim(s), a)
    ensures Trim(s) == [] || (!IsTrimmed(Trim(s)[0]) && !IsTrimmed(Trim(s)[|Trim(s)| - 1]))
  {
    var t := TrimStart(s);
    var r := TrimEnd(t);
    var a := |s| - |t|;
    assert Trim(s) == r;
    TrimStartCuts(s);
    TrimEndCuts(t);
    assert r == s[a..a + |r|];
    assert forall k :: a + |r| <= k < |s| ==> s[k] == t[k - a];
    assert CutFrom(s, r, a);
    if r != [] {
      assert r[0] == t[0];
    }
  }

  /**
   * `Character.toUpperCase` on the characters that matter here: the ASCII
   * letters, and the two non-ASCII letters whose upper case is an ASCII letter
   * (dotless i U+0131 and long s U+017F). Other characters are left unchanged.
   */
  function UpperCase(c: char): char
  {
    if 'a' <= c <= 'z' then (c as int - 32) as char
    else if c == 'ı' then 'I'
    else if c == 'ſ' then 'S'
    else c
  }

  /**
   * `Character.toLowerCase` on the ASCII letters and the two non-ASCII letters
   * whose lower case is an ASCII letter (dotted I U+0130 and Kelvin sign U+212A).
   */
  function LowerCase(c: char): char
  {
    if 'A' <= c <= 'Z' then (c as int + 32) as char
    else if c == 'İ' then 'i'
    else if c == 'K' then 'k'
    else c
  }

  /** The per-character test of `String.equalsIgnoreCase` (`regionMatches` with ignoreCase). */
  predicate SameIgnoringCase(a: char, b: char)
  {
    a == b || UpperCase(a) == UpperCase(b) || LowerCase(UpperCase(a)) == LowerCase(UpperCase(b))
  }

  /** `s.equalsIgnoreCase(t)`, compared character by character from the front. */
  predicate EqualsIgnoreCase(s: string, t: string)
  {
    |s| == |t| && (s == [] || (SameIgnoringCase(s[0], t[0]) && EqualsIgnoreCase(s[1..], t[1..])))
  }

  /** Two strings are equal ignoring case exactly when they have the same length and agree ignoring case at every index. */
  lemma {:induction false} EqualsIgnoreCaseAt(s: string, t: string)
    ensures EqualsIgnoreCase(s, t) <==> |s| == |t| && forall k :: 0 <= k < |s| ==> SameIgnoringCase(s[k], t[k])
  {
    if s != [] && |s| == |t| {
      EqualsIgnoreCaseAt(s[1..], t[1..]);
      assert forall k :: 1 <= k < |s| ==> s[k] == s[1..][k - 1] && t[k] == t[1..][k - 1];
    }
  }

  /** `s.toLowerCase()`, character by character. */
  function ToLower(s: string): (r: string)
    ensures |r| == |s| && forall k :: 0 <= k < |s| ==> r[k] == LowerCase(s[k])
  {
    if s == [] then [] else [LowerCase(s[0])] + ToLower(s[1..])
  }
}
