/** The two JavaScript string operations the typewriters use, with their
    index normalisation written out: `slice` counts negative positions from
    the end, `substring` clamps them to zero and swaps reversed bounds.
    Both clamp positions past the end to the length. */
module JsString {

  /** Normalises a `slice` position: negative positions count back from the end. */
  function SliceIndex(i: int, len: nat): (r: nat)
    ensures r <= len
    ensures 0 <= i <= len ==> r == i
    ensures i < 0 && -i <= len ==> r == len + i
    ensures i + len < 0 ==> r == 0
    ensures i > len ==> r == len
  {
    if i < 0 then (if len + i < 0 then 0 else len + i)
    else if i > len then len
    else i
  }

  /** Normalises a `substring` position: clamped into [0, len]. */
  function ClampIndex(i: int, len: nat): (r: nat)
    ensures r <= len
    ensures 0 <= i <= len ==> r == i
    ensures i < 0 ==> r == 0
    ensures i > len ==> r == len
  {
    if i < 0 then 0 else if i > len then len else i
  }

  /** `s.slice(start, end)` */
  function Slice(s: string, start: int, end: int): (r: string)
    ensures |r| <= |s|
    ensures start == 0 ==> r <= s
    ensures 0 <= start <= end <= |s| ==> r == s[start..end]
  {
    var from := SliceIndex(start, |s|);
    var to := SliceIndex(end, |s|);
    if from < to then s[from..to] else ""
  }

  /** `s.substring(start, end)` */
  function Substring(s: string, start: int, end: int): (r: string)
    ensures |r| <= |s|
    ensures start == 0 ==> r <= s
    ensures 0 <= start <= end <= |s| ==> r == s[start..end]
  {
    var a := ClampIndex(start, |s|);
    var b := ClampIndex(end, |s|);
    if a <= b then s[a..b] else s[b..a]
  }

  /** `s.slice(0, -1)` and `s.substring(0, s.length - 1)` both drop the last
      character, and both leave the empty string empty. */
  lemma DropLast(s: string)
    ensures Slice(s, 0, -1) == Substring(s, 0, |s| - 1)
    ensures |s| > 0 ==> Slice(s, 0, -1) == s[..|s| - 1]
    ensures |s| == 0 ==> Slice(s, 0, -1) == ""
  {
  }

  /** `word.substring(0, n + 1)` on a prefix of length n: one more character
      while the prefix is short, the whole word (unchanged) once it is complete. */
  lemma SubstringExtends(word: string, n: nat)
    requires n <= |word|
    ensures n < |word| ==> Substring(word, 0, n + 1) == word[..n + 1]
    ensures n == |word| ==> Substring(word, 0, n + 1) == word
  {
  }
}
