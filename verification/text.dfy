/**
 * String and randomness primitives shared by the components: ASCII lower-casing
 * (`String.prototype.toLowerCase`), substring search (`String.prototype.includes`),
 * whitespace trimming (`String.prototype.trim`) and the `Math.floor(Math.random() * n)`
 * index idiom.
 */
module Text {

  // ---------------------------------------------------------------------------
  // Case folding

  predicate IsUpper(c: char) {
    'A' <= c <= 'Z'
  }

  function LowerChar(c: char): (d: char)
    ensures !IsUpper(d)
    ensures IsUpper(c) ==> d as int == c as int + 32
    ensures !IsUpper(c) ==> d == c
  {
    if IsUpper(c) then (c as int + 32) as char else c
  }

  function UpperChar(c: char): (d: char)
    ensures 'a' <= c <= 'z' ==> d as int == c as int - 32 && IsUpper(d)
    ensures !('a' <= c <= 'z') ==> d == c
  {
    if 'a' <= c <= 'z' then (c as int - 32) as char else c
  }

  /** Lower-case every character of `s`; the result has no upper-case letter. */
  function Lower(s: string): (t: string)
    ensures |t| == |s|
    ensures forall i :: 0 <= i < |s| ==> t[i] == LowerChar(s[i])
  {
    seq(|s|, i requires 0 <= i < |s| => LowerChar(s[i]))
  }

  function Upper(s: string): (t: string)
    ensures |t| == |s|
    ensures forall i :: 0 <= i < |s| ==> t[i] == UpperChar(s[i])
  {
    seq(|s|, i requires 0 <= i < |s| => UpperChar(s[i]))
  }

  lemma LowerConcat(a: string, b: string)
    ensures Lower(a + b) == Lower(a) + Lower(b)
  {
  }

  /** Lower-casing twice is lower-casing once. */
  lemma LowerIdempotent(s: string)
    ensures Lower(Lower(s)) == Lower(s)
  {
  }

  /** Upper-casing first does not change the lower-cased text. */
  lemma LowerOfUpper(s: string)
    ensures Lower(Upper(s)) == Lower(s)
  {
    forall i | 0 <= i < |s|
      ensures Lower(Upper(s))[i] == Lower(s)[i]
    {
      var c := s[i];
      if 'a' <= c <= 'z' {
        assert UpperChar(c) as int == c as int - 32;
      }
    }
  }

  // ---------------------------------------------------------------------------
  // Substring search

  /** Reference definition: `k` occurs somewhere in `s` as a contiguous block. */
  ghost predicate Occurs(s: string, k: string) {
    exists i :: OccursAt(s, k, i)
  }

  /** `k` occurs in `s` starting at position `i`. */
  ghost predicate OccursAt(s: string, k: string, i: int) {
    0 <= i && i + |k| <= |s| && s[i..i + |k|] == k
  }

  /** One step of the scan: `k` occurs at the front of `s`, or somewhere in its tail. */
  lemma {:induction false} OccursStep(s: string, k: string)
    requires |s| > 0
    ensures Occurs(s, k) <==> (|k| <= |s| && s[..|k|] == k) || Occurs(s[1..], k)
  {
    if Occurs(s[1..], k) {
      var i :| OccursAt(s[1..], k, i);
      assert s[i + 1..i + 1 + |k|] == s[1..][i..i + |k|];
      assert OccursAt(s, k, i + 1);
    }
    if Occurs(s, k) {
      var i :| OccursAt(s, k, i);
      if i > 0 {
        assert s[1..][i - 1..i - 1 + |k|] == s[i..i + |k|];
        assert OccursAt(s[1..], k, i - 1);
      }
    }
    if |k| <= |s| && s[..|k|] == k {
      assert OccursAt(s, k, 0);
    }
  }

  /**
   * `s.includes(k)`, scanning `s` from the left. It agrees with the reference
   * definition on every input: true exactly when `k` occurs somewhere in `s`.
   */
  function Contains(s: string, k: string): (b: bool)
    ensures b <==> Occurs(s, k)
    decreases |s|
  {
    if |k| <= |s| && s[..|k|] == k then
      assert OccursAt(s, k, 0);
      true
    else if |s| == 0 then
      false
    else
      OccursStep(s, k);
      Contains(s[1..], k)
  }

  /** A word embedded anywhere in a longer text is found by `Contains`. */
  lemma ContainsInfix(a: string, k: string, b: string)
    ensures Contains(a + k + b, k)
  {
    var s := a + k + b;
    assert s[|a|..|a| + |k|] == k;
    assert OccursAt(s, k, |a|);
  }

  // ---------------------------------------------------------------------------
  // Whitespace trimming (ECMAScript WhiteSpace and LineTerminator code points)

  predicate IsSpace(c: char) {
    var n := c as int;
    || 9 <= n <= 13 || n == 0x20 || n == 0xA0 || n == 0x1680
    || 0x2000 <= n <= 0x200A || n == 0x2028 || n == 0x2029
    || n == 0x202F || n == 0x205F || n == 0x3000 || n == 0xFEFF
  }

  function TrimStart(s: string): (t: string)
    ensures |t| <= |s| && t == s[|s| - |t|..]
    ensures |t| > 0 ==> !IsSpace(t[0])
    ensures forall i :: 0 <= i < |s| - |t| ==> IsSpace(s[i])
  {
    if |s| > 0 && IsSpace(s[0]) then TrimStart(s[1..]) else s
  }

  function TrimEnd(s: string): (t: string)
    ensures |t| <= |s| && t == s[..|t|]
    ensures |t| > 0 ==> !IsSpace(t[|t| - 1])
    ensures forall i :: |t| <= i < |s| ==> IsSpace(s[i])
  {
    if |s| > 0 && IsSpace(s[|s| - 1]) then TrimEnd(s[..|s| - 1]) else s
  }

  /** Every character of `s` is ECMAScript whitespace. */
  ghost predicate AllSpace(s: string) {
    forall i :: 0 <= i < |s| ==> IsSpace(s[i])
  }

  /**
   * `s.trim()`: the text between a whitespace prefix and a whitespace suffix,
   * starting and ending with a non-space, and empty when `s` is all whitespace.
   */
  function Trim(s: string): (t: string)
    ensures exists a :: 0 <= a <= |s| - |t| && s[a..a + |t|] == t && AllSpace(s[..a]) && AllSpace(s[a + |t|..])
    ensures |t| > 0 ==> !IsSpace(t[0]) && !IsSpace(t[|t| - 1])
    ensures t == "" <==> AllSpace(s)
  {
    var u := TrimStart(s);
    var t := TrimEnd(u);
    TrimParts(s, u, t);
    t
  }

  /** The pieces `TrimStart` and then `TrimEnd` cut off are all whitespace. */
  lemma TrimParts(s: string, u: string, t: string)
    requires |u| <= |s| && u == s[|s| - |u|..] && forall i :: 0 <= i < |s| - |u| ==> IsSpace(s[i])
    requires |u| > 0 ==> !IsSpace(u[0])
    requires |t| <= |u| && t == u[..|t|] && forall i :: |t| <= i < |u| ==> IsSpace(u[i])
    requires |t| > 0 ==> !IsSpace(t[|t| - 1])
    ensures exists a :: 0 <= a <= |s| - |t| && s[a..a + |t|] == t && AllSpace(s[..a]) && AllSpace(s[a + |t|..])
    ensures |t| > 0 ==> !IsSpace(t[0]) && !IsSpace(t[|t| - 1])
    ensures t == "" <==> AllSpace(s)
  {
    var a := |s| - |u|;
    assert s[a + |t|..] == u[|t|..];
    assert s[a..a + |t|] == t && AllSpace(s[..a]) && AllSpace(s[a + |t|..]);
    if |t| > 0 {
      assert t[0] == u[0];
    }
  }

  /** `!s.trim()`: the trimmed text is the empty (falsy) string. */
  predicate IsBlank(s: string) {
    Trim(s) == ""
  }

  /** A text is blank exactly when every character in it is whitespace. */
  lemma BlankIffAllSpace(s: string)
    ensures IsBlank(s) <==> AllSpace(s)
  {
  }

  // ---------------------------------------------------------------------------
  // Random choice

  /** `Math.floor(r * n)` for `r = Math.random()`, which lies in [0, 1). */
  function FloorIndex(r: real, n: nat): (i: nat)
    requires n > 0 && 0.0 <= r < 1.0
    ensures i < n
    ensures i as real <= r * n as real < i as real + 1.0
  {
    ScaleBelow(r, n);
    (r * n as real).Floor
  }

  lemma ScaleBelow(r: real, n: nat)
    requires n > 0 && 0.0 <= r < 1.0
    ensures 0.0 <= r * n as real < n as real
  {
  }

  /** `pool[Math.floor(Math.random() * pool.length)]`: always an element of the pool. */
  function Pick<T>(pool: seq<T>, r: real): (x: T)
    requires |pool| > 0 && 0.0 <= r < 1.0
    ensures x in pool
    ensures x == pool[FloorIndex(r, |pool|)]
  {
    pool[FloorIndex(r, |pool|)]
  }

  /** Every element of a pool is reachable by some random value. */
  lemma PickCovers<T>(pool: seq<T>, k: nat)
    requires k < |pool|
    ensures var r := k as real / |pool| as real; 0.0 <= r < 1.0 && Pick(pool, r) == pool[k]
  {
    var n := |pool| as real;
    var r := k as real / n;
    assert r * n == k as real;
    assert FloorIndex(r, |pool|) == k;
  }
}
