/**
 * The string operations the menu search relies on: lower-casing a query,
 * and the two containment tests it applies to every menu entry (a prefix
 * test and a substring test).
 */
module TextMatch {

  /** True for the 26 upper-case ASCII letters. */
  predicate IsUpper(c: char) {
    'A' <= c <= 'Z'
  }

  /**
   * Lower-cases one character. Only the ASCII letters are mapped; the menu
   * only ever lower-cases text typed through the popup, which consists of
   * ASCII letters and spaces.
   */
  function LowerChar(c: char): (r: char)
    ensures !IsUpper(r)
    ensures !IsUpper(c) ==> r == c
    ensures IsUpper(c) ==> 'a' <= r <= 'z' && r as int - 'a' as int == c as int - 'A' as int
  {
    if IsUpper(c) then (c as int - 'A' as int + 'a' as int) as char else c
  }

  /** Lower-cases a whole string, character by character. */
  function Lower(s: string): (r: string)
    ensures |r| == |s|
    ensures forall i :: 0 <= i < |s| ==> r[i] == LowerChar(s[i])
  {
    if s == [] then [] else [LowerChar(s[0])] + Lower(s[1..])
  }

  /** `needle` occurs somewhere in `hay` as a contiguous slice. */
  ghost predicate IsSubstring(needle: string, hay: string) {
    exists i, j :: 0 <= i <= j <= |hay| && hay[i..j] == needle
  }

  /** A slice of the tail of a string is the slice of the string one position further on. */
  lemma TailSlice(hay: string, i: int, j: int)
    requires 1 <= i <= j <= |hay|
    ensures hay[1..][i - 1..j - 1] == hay[i..j]
  {
    assert |hay[1..][i - 1..j - 1]| == j - i;
    forall k | 0 <= k < j - i ensures hay[1..][i - 1..j - 1][k] == hay[i..j][k] {
    }
  }

  /**
   * The substring test `needle in hay`: does `needle` start at some
   * position of `hay`? The empty string occurs in every string.
   */
  function Contains(hay: string, needle: string): (r: bool)
    ensures r <==> IsSubstring(needle, hay)
    decreases |hay|
  {
    if needle <= hay then
      assert hay[0..|needle|] == needle;
      true
    else if hay == [] then
      false
    else
      var r := Contains(hay[1..], needle);
      if r then
        var i, j :| 0 <= i <= j <= |hay[1..]| && hay[1..][i..j] == needle;
        TailSlice(hay, i + 1, j + 1);
        true
      else
        forall i, j | 0 <= i <= j <= |hay| ensures hay[i..j] != needle {
          if i == 0 {
            assert hay[..j] == hay[i..j];
          } else {
            TailSlice(hay, i, j);
          }
        }
        false
  }
}
