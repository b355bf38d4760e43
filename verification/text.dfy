/**
 * The string primitives the search box relies on: `trim`, `toLowerCase` and
 * `includes`, restricted to ASCII (see README: full Unicode case mapping and
 * the non-ASCII white space that `trim` also removes are not modelled).
 */
module Text {

  /** The ASCII white space removed by `String.prototype.trim`:
      space, tab, line feed, vertical tab, form feed, carriage return. */
  predicate IsSpace(c: char) {
    c == ' ' || c == '\t' || c == '\n' || c == '\r' || c == '\U{B}' || c == '\U{C}'
  }

  predicate AllSpace(s: string) {
    forall i :: 0 <= i < |s| ==> IsSpace(s[i])
  }

  /** Positions `lo` up to `hi` of `s` are all white space. `AllSpace(s)` is
      `SpaceBetween(s, 0, |s|)`; the ranged form lets the trimming contracts
      speak of a part of `s` without building the slice, which keeps their
      proofs small. */
  predicate SpaceBetween(s: string, lo: int, hi: int) {
    forall i :: lo <= i < hi && 0 <= i < |s| ==> IsSpace(s[i])
  }

  predicate IsUpper(c: char) {
    'A' <= c <= 'Z'
  }

  /** ASCII lower-casing of one character. */
  function LowerChar(c: char): (r: char)
    ensures !IsUpper(r)
    ensures !IsUpper(c) ==> r == c
    ensures IsUpper(c) ==> 'a' <= r <= 'z' && r as int - c as int == 'a' as int - 'A' as int
    ensures IsSpace(r) <==> IsSpace(c)
  {
    if IsUpper(c) then (c as int - 'A' as int + 'a' as int) as char else c
  }

  /** `s.toLowerCase()`, character by character. */
  function Lower(s: string): (r: string)
    ensures |r| == |s|
    ensures forall i :: 0 <= i < |s| ==> r[i] == LowerChar(s[i])
    ensures forall i :: 0 <= i < |r| ==> !IsUpper(r[i])
  {
    seq(|s|, i requires 0 <= i < |s| => LowerChar(s[i]))
  }

  /** `trimStart`: drops the leading white space and nothing else. */
  function TrimStart(s: string): (r: string)
    ensures |r| <= |s| && r == s[|s| - |r|..]
    ensures r == [] || !IsSpace(r[0])
    ensures SpaceBetween(s, 0, |s| - |r|)
  {
    if |s| > 0 && IsSpace(s[0]) then TrimStart(s[1..]) else s
  }

  /** `trimEnd`: drops the trailing white space and nothing else. */
  function TrimEnd(s: string): (r: string)
    ensures |r| <= |s| && r == s[..|r|]
    ensures r == [] || !IsSpace(r[|r| - 1])
    ensures SpaceBetween(s, |r|, |s|)
  {
    if |s| > 0 && IsSpace(s[|s| - 1]) then
      TrimEnd(s[..|s| - 1])
    else s
  }

  /** `s[a..b]` is surrounded by white space only: what trimming leaves. */
  predicate SpaceAround(s: string, a: int, b: int) {
    0 <= a <= b <= |s| && SpaceBetween(s, 0, a) && SpaceBetween(s, b, |s|)
  }

  /** `s.trim()`: a contiguous slice of `s` with only white space around it,
      that neither starts nor ends with white space itself, and is empty
      exactly when `s` is all white space. */
  function Trim(s: string): (r: string)
    ensures exists a, b :: SpaceAround(s, a, b) && r == s[a..b]
    ensures r == [] || (!IsSpace(r[0]) && !IsSpace(r[|r| - 1]))
    ensures r == [] <==> AllSpace(s)
  {
    var t := TrimStart(s);
    var r := TrimEnd(t);
    TrimmedSlice(s, t, r);
    r
  }

  /** `r` is `s` with its leading white space cut off (giving `t`) and then
      its trailing white space cut off. */
  lemma {:induction false} TrimmedSlice(s: string, t: string, r: string)
    requires |t| <= |s| && t == s[|s| - |t|..] && (t == [] || !IsSpace(t[0]))
    requires SpaceBetween(s, 0, |s| - |t|)
    requires |r| <= |t| && r == t[..|r|] && (r == [] || !IsSpace(r[|r| - 1]))
    requires SpaceBetween(t, |r|, |t|)
    ensures var a := |s| - |t|;
      && SpaceAround(s, a, a + |r|)
      && r == s[a..a + |r|]
      && (r == [] <==> AllSpace(s))
  {
    var a := |s| - |t|;
    SliceOfSuffix(s, a, |r|);
    SpaceAfterSlice(s, t, a, r);
    KeptEmptyIffAllSpace(s, a, a + |r|);
  }

  /** What is left between only-white-space margins is empty exactly when
      the whole string is white space, provided it does not start with white
      space itself. */
  lemma {:induction false} KeptEmptyIffAllSpace(s: string, a: int, b: int)
    requires SpaceAround(s, a, b)
    requires a == b || !IsSpace(s[a])
    ensures a == b <==> AllSpace(s)
  {
  }

  /** White space after the kept part of a suffix is white space of `s`. */
  lemma {:induction false} SpaceAfterSlice(s: string, t: string, a: int, r: string)
    requires 0 <= a <= |s| && t == s[a..] && |r| <= |t|
    requires SpaceBetween(t, |r|, |t|)
    ensures SpaceBetween(s, a + |r|, |s|)
  {
    forall i | a + |r| <= i < |s| ensures IsSpace(s[i]) {
      assert s[i] == t[i - a];
    }
  }

  lemma {:induction false} SliceOfSuffix(s: string, a: int, n: int)
    requires 0 <= a <= |s| && 0 <= n <= |s| - a
    ensures s[a..][..n] == s[a..a + n] && s[a..][n..] == s[a + n..]
  {
  }

  /** `pattern` occurs in `text` starting at position `i`. */
  predicate OccursAt(pattern: string, text: string, i: int) {
    0 <= i <= |text| - |pattern| && text[i..i + |pattern|] == pattern
  }

  /** `text.includes(pattern)`: tries every start position from left to right. */
  predicate Includes(text: string, pattern: string)
    decreases |text|
  {
    if pattern <= text then true
    else if |text| == 0 then false
    else Includes(text[1..], pattern)
  }

  /** An occurrence at position `i` is found by `Includes`. */
  lemma {:induction false} OccursIncludes(text: string, pattern: string, i: int)
    requires OccursAt(pattern, text, i)
    ensures Includes(text, pattern)
    decreases i
  {
    if i == 0 {
      assert text[..|pattern|] == pattern;
    } else if !(pattern <= text) {
      assert text[1..][i - 1..i - 1 + |pattern|] == text[i..i + |pattern|];
      OccursIncludes(text[1..], pattern, i - 1);
    }
  }

  /** When `Includes` succeeds it has found an occurrence. */
  lemma {:induction false} IncludesOccurs(text: string, pattern: string)
    requires Includes(text, pattern)
    ensures exists i :: OccursAt(pattern, text, i)
    decreases |text|
  {
    if pattern <= text {
      assert OccursAt(pattern, text, 0);
    } else {
      IncludesOccurs(text[1..], pattern);
      var j :| OccursAt(pattern, text[1..], j);
      assert text[1..][j..j + |pattern|] == text[j + 1..j + 1 + |pattern|];
      assert OccursAt(pattern, text, j + 1);
    }
  }

  /** `includes` is exactly substring occurrence. */
  lemma IncludesIffOccurs(text: string, pattern: string)
    ensures Includes(text, pattern) <==> exists i :: OccursAt(pattern, text, i)
  {
    if Includes(text, pattern) {
      IncludesOccurs(text, pattern);
    }
    if exists i :: OccursAt(pattern, text, i) {
      var i :| OccursAt(pattern, text, i);
      OccursIncludes(text, pattern, i);
    }
  }

  /** Every string includes the empty string. */
  lemma IncludesEmpty(text: string)
    ensures Includes(text, [])
  {
  }

  lemma LowerIdempotent(s: string)
    ensures Lower(Lower(s)) == Lower(s)
  {
  }

  lemma {:induction false} TrimStartLower(s: string)
    ensures TrimStart(Lower(s)) == Lower(TrimStart(s))
    decreases |s|
  {
    if |s| > 0 && IsSpace(s[0]) {
      assert Lower(s)[1..] == Lower(s[1..]);
      TrimStartLower(s[1..]);
    }
  }

  lemma {:induction false} TrimEndLower(s: string)
    ensures TrimEnd(Lower(s)) == Lower(TrimEnd(s))
    decreases |s|
  {
    if |s| > 0 && IsSpace(s[|s| - 1]) {
      assert Lower(s)[..|s| - 1] == Lower(s[..|s| - 1]);
      TrimEndLower(s[..|s| - 1]);
    }
  }

  /** Trimming and lower-casing commute, because lower-casing never turns a
      letter into white space or white space into anything else. */
  lemma TrimLower(s: string)
    ensures Trim(Lower(s)) == Lower(Trim(s))
  {
    TrimStartLower(s);
    TrimEndLower(TrimStart(s));
  }

  lemma {:induction false} TrimStartPadded(w: string, s: string)
    requires AllSpace(w)
    ensures TrimStart(w + s) == TrimStart(s)
    decreases |w|
  {
    if w != [] {
      assert (w + s)[1..] == w[1..] + s;
      TrimStartPadded(w[1..], s);
    } else {
      assert w + s == s;
    }
  }

  lemma {:induction false} TrimEndPadded(s: string, w: string)
    requires AllSpace(w)
    ensures TrimEnd(s + w) == TrimEnd(s)
    decreases |w|
  {
    if w != [] {
      assert (s + w)[..|s + w| - 1] == s + w[..|w| - 1];
      TrimEndPadded(s, w[..|w| - 1]);
    } else {
      assert s + w == s;
    }
  }

  /** Text after the first non-space character survives `TrimStart` intact. */
  lemma {:induction false} TrimStartAppend(s: string, w: string)
    requires !AllSpace(s)
    ensures TrimStart(s + w) == TrimStart(s) + w
    decreases |s|
  {
    if IsSpace(s[0]) {
      assert (s + w)[1..] == s[1..] + w;
      assert !AllSpace(s[1..]) by {
        var i :| 0 <= i < |s| && !IsSpace(s[i]);
        assert s[1..][i - 1] == s[i];
      }
      TrimStartAppend(s[1..], w);
    }
  }

  /** Trimming ignores white space added on either side. */
  lemma TrimPadded(w1: string, s: string, w2: string)
    requires AllSpace(w1) && AllSpace(w2)
    ensures Trim(w1 + s + w2) == Trim(s)
  {
    assert w1 + s + w2 == w1 + (s + w2);
    TrimStartPadded(w1, s + w2);
    if AllSpace(s) {
      assert AllSpace(s + w2);
    } else {
      TrimStartAppend(s, w2);
      TrimEndPadded(TrimStart(s), w2);
    }
  }

  lemma TrimIdempotent(s: string)
    ensures Trim(Trim(s)) == Trim(s)
  {
  }
}
