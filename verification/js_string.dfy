/**
 The two JavaScript string operations the build script relies on,
 `String.prototype.slice` with one argument and `String.prototype.indexOf`
 with one argument, over strings seen as sequences of characters (Dafny's
 `char` is a Unicode scalar value; JavaScript counts UTF-16 code units, which
 differ only outside the Basic Multilingual Plane).
 */
module JsString {

  /** The index at which `s.slice(start)` starts copying when `|s| == len`:
      a negative start counts back from the end and clamps at 0, a start past
      the end clamps at the end. */
  function SliceStart(len: nat, start: int): (k: nat)
    ensures k <= len
  {
    if start < 0 then
      (if len + start < 0 then 0 else len + start)
    else if start > len then len
    else start
  }

  /** `s.slice(start)`. */
  function Slice(s: string, start: int): (r: string)
    ensures |r| <= |s| && r == s[|s| - |r|..]
    ensures 0 <= start <= |s| ==> r == s[start..]
    ensures start > |s| ==> r == []
    ensures -|s| <= start < 0 ==> r == s[|s| + start..]
    ensures start < -|s| ==> r == s
  {
    s[SliceStart(|s|, start)..]
  }

  /** `needle` appears in `s` starting at index `i`. */
  predicate OccursAt(s: string, needle: string, i: int) {
    0 <= i && i + |needle| <= |s| && s[i..i + |needle|] == needle
  }

  /** `needle` appears somewhere in `s`. */
  predicate Occurs(s: string, needle: string) {
    exists i :: 0 <= i <= |s| && OccursAt(s, needle, i)
  }

  /** `i` is the first index at which `needle` appears in `s`. */
  predicate FirstOccurrence(s: string, needle: string, i: int) {
    OccursAt(s, needle, i) && forall j :: 0 <= j < i ==> !OccursAt(s, needle, j)
  }

  /** The search behind `indexOf`, scanning from index `k` onwards. */
  function IndexFrom(s: string, needle: string, k: nat): (r: int)
    requires k <= |s|
    ensures r == -1 || (k <= r && OccursAt(s, needle, r))
    ensures r != -1 ==> forall j :: k <= j < r ==> !OccursAt(s, needle, j)
    ensures r == -1 <==> forall j :: k <= j ==> !OccursAt(s, needle, j)
    decreases |s| - k
  {
    if OccursAt(s, needle, k) then k
    else if k == |s| then -1
    else IndexFrom(s, needle, k + 1)
  }

  /** `s.indexOf(needle)`: the first index of `needle` in `s`, or -1 when it
      does not occur. An empty needle is found at index 0. */
  function IndexOf(s: string, needle: string): (r: int)
    ensures -1 <= r <= |s|
    ensures r != -1 ==> FirstOccurrence(s, needle, r)
    ensures r == -1 <==> !Occurs(s, needle)
    ensures needle == [] ==> r == 0
  {
    assert OccursAt(s, needle, 0) ==> IndexFrom(s, needle, 0) == 0;
    IndexFrom(s, needle, 0)
  }

  /** A one-character needle occurs exactly where that character is. */
  lemma {:induction false} OccursAtChar(s: string, c: char, i: int)
    ensures OccursAt(s, [c], i) <==> 0 <= i < |s| && s[i] == c
  {
    if 0 <= i < |s| {
      assert s[i..i + 1] == [s[i]];
    }
  }

  /** For a one-character needle, `indexOf` is the first index holding that
      character, and -1 exactly when the character is absent. */
  lemma {:induction false} IndexOfChar(s: string, c: char)
    ensures IndexOf(s, [c]) == -1 <==> c !in s
    ensures c in s ==> 0 <= IndexOf(s, [c]) < |s| && s[IndexOf(s, [c])] == c
                       && c !in s[..IndexOf(s, [c])]
  {
    var r := IndexOf(s, [c]);
    if c in s {
      var i :| 0 <= i < |s| && s[i] == c;
      OccursAtChar(s, c, i);
      assert r != -1;
      OccursAtChar(s, c, r);
      forall j | 0 <= j < r
        ensures s[j] != c
      {
        OccursAtChar(s, c, j);
      }
    } else if r != -1 {
      OccursAtChar(s, c, r);
      assert false;
    }
  }
}
