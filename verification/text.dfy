/** The two string operations the bus search relies on: lower-casing
    (`String.prototype.toLowerCase`) and substring containment
    (`String.prototype.includes`). */
module Text {

  /** True of the ASCII capital letters, the only characters lower-cased here. */
  predicate IsUpper(c: char) {
    'A' <= c <= 'Z'
  }

  /** Lower-cases one character; everything outside `A`..`Z` is left alone. */
  function LowerChar(c: char): (r: char)
    ensures !IsUpper(r)
    ensures IsUpper(c) ==> r as int == c as int + 32
    ensures !IsUpper(c) ==> r == c
  {
    if IsUpper(c) then (c as int + 32) as char else c
  }

  /** Lower-cases a string character by character. */
  function Lower(s: string): (r: string)
    ensures |r| == |s|
    ensures forall i :: 0 <= i < |s| ==> r[i] == LowerChar(s[i])
  {
    if s == [] then [] else [LowerChar(s[0])] + Lower(s[1..])
  }

  /** `t` occurs in `s` as a contiguous piece: `s.includes(t)`. */
  predicate Contains(s: string, t: string) {
    exists i :: 0 <= i <= |s| && t <= s[i..]
  }

  /** The search loop behind `s.includes(t)`: it tries every start position
      in turn and agrees with `Contains` on every input. */
  method Includes(s: string, t: string) returns (b: bool)
    ensures b <==> Contains(s, t)
  {
    if |t| > |s| {
      return false;
    }
    var i := 0;
    while i <= |s| - |t|
      invariant 0 <= i <= |s| - |t| + 1
      invariant forall j :: 0 <= j < i ==> !(t <= s[j..])
    {
      if t <= s[i..] {
        return true;
      }
      i := i + 1;
    }
    return false;
  }

  /** The empty string occurs in every string, so an empty search term
      matches everything. */
  lemma ContainsEmpty(s: string)
    ensures Contains(s, "")
  {
    assert "" <= s[0..];
  }

  /** Every string contains itself. */
  lemma ContainsSelf(s: string)
    ensures Contains(s, s)
  {
    assert s <= s[0..];
  }

  /** `b` occurs in `a + b`. */
  lemma ContainsSuffix(a: string, b: string)
    ensures Contains(a + b, b)
  {
    assert b <= (a + b)[|a|..];
  }

  /** Containment is transitive: a piece of a piece of `a` is a piece of `a`. */
  lemma {:induction false} ContainsTransitive(a: string, b: string, c: string)
    requires Contains(a, b) && Contains(b, c)
    ensures Contains(a, c)
  {
    var i :| 0 <= i <= |a| && b <= a[i..];
    var j :| 0 <= j <= |b| && c <= b[j..];
    assert c <= a[i + j..] by {
      forall k | 0 <= k < |c|
        ensures c[k] == a[i + j..][k]
      {
        assert c[k] == b[j + k];
        assert b[j + k] == a[i..][j + k];
      }
    }
  }

  /** Lower-casing commutes with taking a slice. */
  lemma LowerSlice(s: string, i: nat)
    requires i <= |s|
    ensures Lower(s)[i..] == Lower(s[i..])
  {
  }

  /** Lower-casing a prefix gives a prefix of the lower-cased string. */
  lemma LowerPrefix(t: string, s: string)
    requires t <= s
    ensures Lower(t) <= Lower(s)
  {
  }

  /** Lower-casing both sides keeps containment: if `t` occurs in `s`,
      then `lower(t)` occurs in `lower(s)`. */
  lemma {:induction false} LowerKeepsContains(s: string, t: string)
    requires Contains(s, t)
    ensures Contains(Lower(s), Lower(t))
  {
    var i :| 0 <= i <= |s| && t <= s[i..];
    LowerPrefix(t, s[i..]);
    LowerSlice(s, i);
    assert Lower(t) <= Lower(s)[i..];
  }

  /** Lower-casing is idempotent. */
  lemma LowerIdempotent(s: string)
    ensures Lower(Lower(s)) == Lower(s)
  {
  }

  /** Lower-casing distributes over concatenation. */
  lemma LowerAppend(a: string, b: string)
    ensures Lower(a + b) == Lower(a) + Lower(b)
  {
  }
}
