/** String operations of the JavaScript runtime that the plugin relies on,
    with the JavaScript semantics written out: `toLowerCase` (on ASCII),
    `indexOf` with a start position, `lastIndexOf`, `substring` (clamping and
    swapping its bounds), `startsWith`, `endsWith` and `replace` with a
    string pattern (first occurrence only). */
module Text {

  function LowerChar(c: char): (r: char)
    ensures 'A' <= c <= 'Z' ==> r as int == c as int + 32
    ensures !('A' <= c <= 'Z') ==> r == c
    ensures !('A' <= r <= 'Z')
  {
    if 'A' <= c <= 'Z' then (c as int + 32) as char else c
  }

  /** `s.toLowerCase()`, restricted to ASCII letters. */
  function Lower(s: string): (r: string)
    ensures |r| == |s|
    ensures forall i :: 0 <= i < |s| ==> r[i] == LowerChar(s[i])
  {
    seq(|s|, i requires 0 <= i < |s| => LowerChar(s[i]))
  }

  /** A string that `toLowerCase` leaves unchanged. */
  predicate IsLowerCase(s: string) {
    forall i :: 0 <= i < |s| ==> !('A' <= s[i] <= 'Z')
  }

  lemma LowerIsLowerCase(s: string)
    ensures IsLowerCase(Lower(s))
    ensures Lower(Lower(s)) == Lower(s)
  {
  }

  /** `t` occurs in `s` at index `k`. */
  predicate OccursAt(s: string, t: string, k: int) {
    0 <= k && k + |t| <= |s| && s[k..k + |t|] == t
  }

  /** `t` cannot occur where the character differs from its first one. */
  lemma NotOccursAtHead(s: string, t: string, k: int)
    requires |t| > 0 && 0 <= k < |s| && s[k] != t[0]
    ensures !OccursAt(s, t, k)
  {
    if k + |t| <= |s| {
      assert s[k..k + |t|][0] == s[k];
    }
  }

  function Clamp(k: int, n: nat): (r: nat)
    ensures r <= n
    ensures 0 <= k <= n ==> r == k
  {
    if k < 0 then 0 else if k > n then n else k
  }

  function IndexOfAt(s: string, t: string, k: nat): (r: int)
    requires k <= |s|
    ensures r == -1 || (k <= r && OccursAt(s, t, r))
    ensures forall j :: k <= j < (if r == -1 then |s| + 1 else r) ==> !OccursAt(s, t, j)
    decreases |s| - k
  {
    if k + |t| > |s| then -1
    else if s[k..k + |t|] == t then k
    else if k == |s| then -1
    else IndexOfAt(s, t, k + 1)
  }

  /** `s.indexOf(t, from)`: the first occurrence of `t` at or after `from`
      (clamped to the string), or -1. */
  function IndexOf(s: string, t: string, from: int): (r: int)
    ensures r == -1 || (Clamp(from, |s|) <= r && OccursAt(s, t, r))
    ensures forall j :: Clamp(from, |s|) <= j < (if r == -1 then |s| + 1 else r) ==> !OccursAt(s, t, j)
  {
    IndexOfAt(s, t, Clamp(from, |s|))
  }

  function LastIndexOfAt(s: string, t: string, k: int): (r: int)
    requires k <= |s|
    ensures r == -1 || (r <= k && OccursAt(s, t, r))
    ensures forall j :: (if r == -1 then -1 else r) < j <= k ==> !OccursAt(s, t, j)
    decreases k + 1
  {
    if k < 0 then -1
    else if OccursAt(s, t, k) then k
    else LastIndexOfAt(s, t, k - 1)
  }

  /** `s.lastIndexOf(t)`: the last occurrence of `t` in `s`, or -1. */
  function LastIndexOf(s: string, t: string): (r: int)
    ensures r == -1 || OccursAt(s, t, r)
    ensures forall j :: r < j ==> !OccursAt(s, t, j)
  {
    LastIndexOfAt(s, t, |s|)
  }

  /** `s.substring(a, b)`: both bounds clamped to the string, swapped when
      the first exceeds the second. */
  function Substring(s: string, a: int, b: int): (r: string)
    ensures |r| <= |s|
    ensures 0 <= a <= b <= |s| ==> r == s[a..b]
    ensures 0 <= b <= a <= |s| ==> r == s[b..a]
    ensures a <= 0 && |s| <= b ==> r == s
  {
    var lo, hi := Clamp(a, |s|), Clamp(b, |s|);
    if lo <= hi then s[lo..hi] else s[hi..lo]
  }

  predicate StartsWith(s: string, p: string) {
    |p| <= |s| && s[..|p|] == p
  }

  predicate EndsWith(s: string, p: string) {
    |p| <= |s| && s[|s| - |p|..] == p
  }

  /** `s.replace(pat, rep)` with a string pattern: the first occurrence only. */
  function ReplaceFirst(s: string, pat: string, rep: string): (r: string)
    ensures IndexOf(s, pat, 0) == -1 ==> r == s
    ensures var i := IndexOf(s, pat, 0);
            i != -1 ==> r == s[..i] + rep + s[i + |pat|..] && forall j :: 0 <= j < i ==> !OccursAt(s, pat, j)
  {
    var i := IndexOf(s, pat, 0);
    if i == -1 then s else s[..i] + rep + s[i + |pat|..]
  }

  /** Replacing a one-character pattern by nothing removes the first
      occurrence of that character, and only it. */
  lemma RemoveFirstChar(s: string, c: char)
    ensures c !in s ==> ReplaceFirst(s, [c], "") == s
    ensures c in s ==> exists i :: 0 <= i < |s| && s[i] == c && c !in s[..i] && ReplaceFirst(s, [c], "") == s[..i] + s[i + 1..]
  {
    var i := IndexOf(s, [c], 0);
    if i == -1 {
      forall k | 0 <= k < |s| ensures s[k] != c {
        assert !OccursAt(s, [c], k);
        assert s[k..k + 1] == [s[k]];
      }
    } else {
      assert s[i..i + 1] == [s[i]];
      forall k | 0 <= k < i ensures s[k] != c {
        assert !OccursAt(s, [c], k);
        assert s[k..k + 1] == [s[k]];
      }
      assert ReplaceFirst(s, [c], "") == s[..i] + s[i + 1..];
    }
  }
}
