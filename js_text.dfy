/**
  The two JavaScript string operations the facility search relies on:
  `String.prototype.toLowerCase` (restricted to ASCII letters) and
  `String.prototype.includes` (substring search).
 */
module JsText {

  predicate IsUpper(c: char) {
    'A' <= c <= 'Z'
  }

  /** Lower-case one character: ASCII capitals move to their small letter, everything else is kept. */
  function LowerChar(c: char): (d: char)
    ensures !IsUpper(d)
    ensures d == c <==> !IsUpper(c)
    ensures IsUpper(c) ==> d as int == c as int + 32
  {
    if IsUpper(c) then (c as int + 32) as char else c
  }

  /** `s.toLowerCase()`, character by character. */
  function Lower(s: string): (r: string)
    ensures |r| == |s|
    ensures forall i :: 0 <= i < |s| ==> r[i] == LowerChar(s[i])
  {
    if s == [] then [] else [LowerChar(s[0])] + Lower(s[1..])
  }

  /** Lower-casing twice is lower-casing once. */
  lemma LowerIdempotent(s: string)
    ensures Lower(Lower(s)) == Lower(s)
  {
    var l := Lower(s);
    assert forall i :: 0 <= i < |l| ==> Lower(l)[i] == LowerChar(l[i]) == l[i];
  }

  /** Lower-casing commutes with taking a slice. */
  lemma LowerSlice(s: string, i: int, j: int)
    requires 0 <= i <= j <= |s|
    ensures Lower(s)[i..j] == Lower(s[i..j])
  {
    assert forall k :: 0 <= k < j - i ==> Lower(s)[i..j][k] == LowerChar(s[i + k]) == Lower(s[i..j])[k];
  }

  /** `t` sits in `s` starting at index `i`. */
  predicate OccursAt(s: string, t: string, i: int) {
    0 <= i && i + |t| <= |s| && s[i..i + |t|] == t
  }

  /** Reference meaning of `s.includes(t)`: `t` occurs somewhere in `s`. */
  ghost predicate Contains(s: string, t: string) {
    exists i :: OccursAt(s, t, i)
  }

  /** An occurrence in `s[1..]` is an occurrence in `s` one place further on. */
  lemma OccursAtTail(s: string, t: string, i: int)
    requires |s| > 0
    ensures OccursAt(s[1..], t, i) <==> i >= 0 && OccursAt(s, t, i + 1)
  {
    if 0 <= i && i + |t| <= |s| - 1 {
      assert s[1..][i..i + |t|] == s[i + 1..i + 1 + |t|];
    }
  }

  /**
    `s.includes(t)`: scan `s` from the left and compare each window of length `|t|`.
    The result is true exactly when `t` occurs somewhere in `s`.
   */
  function Includes(s: string, t: string): (b: bool)
    ensures b <==> Contains(s, t)
    decreases |s|
  {
    if |t| > |s| then
      false
    else if s[..|t|] == t then
      assert OccursAt(s, t, 0);
      true
    else
      var rest := Includes(s[1..], t);
      assert rest <==> Contains(s, t) by {
        forall i | OccursAt(s, t, i) ensures i > 0 && OccursAt(s[1..], t, i - 1) {
          OccursAtTail(s, t, i - 1);
        }
        forall i | OccursAt(s[1..], t, i) ensures OccursAt(s, t, i + 1) {
          OccursAtTail(s, t, i);
        }
      }
      rest
  }

  /** `includes("")` holds of every string. */
  lemma IncludesEmpty(s: string)
    ensures Includes(s, "")
  {
    assert OccursAt(s, "", 0);
  }

  /** If `a` occurs in `b` and `b` occurs in `c`, then `a` occurs in `c`. */
  lemma ContainsTransitive(a: string, b: string, c: string)
    requires Contains(b, a) && Contains(c, b)
    ensures Contains(c, a)
  {
    var i :| OccursAt(b, a, i);
    var j :| OccursAt(c, b, j);
    assert forall k :: 0 <= k < |a| ==> c[j + i..j + i + |a|][k] == c[j..j + |b|][i + k] == a[k];
    assert OccursAt(c, a, j + i);
  }

  /** A substring found with its case is still found once both sides are lower-cased. */
  lemma ContainsLower(s: string, t: string)
    requires Contains(s, t)
    ensures Contains(Lower(s), Lower(t))
  {
    var i :| OccursAt(s, t, i);
    LowerSlice(s, i, i + |t|);
    assert OccursAt(Lower(s), Lower(t), i);
  }
}
