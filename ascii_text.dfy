/** The JavaScript string operations the product service relies on
    (`toUpperCase`, `toLowerCase`, and the first piece of `split`), with case
    mapping restricted to the ASCII letters. */
module AsciiText {

  function UpperChar(c: char): char
  {
    if 'a' <= c <= 'z' then (c as int - 32) as char else c
  }

  function LowerChar(c: char): char
  {
    if 'A' <= c <= 'Z' then (c as int + 32) as char else c
  }

  /** `s.toUpperCase()`: every letter upper-cased, nothing else touched. */
  function Upper(s: string): (r: string)
    ensures |r| == |s|
    ensures forall i :: 0 <= i < |s| ==> r[i] == UpperChar(s[i])
    decreases |s|
  {
    if s == [] then [] else [UpperChar(s[0])] + Upper(s[1..])
  }

  /** `s.toLowerCase()`: every letter lower-cased, nothing else touched. */
  function Lower(s: string): (r: string)
    ensures |r| == |s|
    ensures forall i :: 0 <= i < |s| ==> r[i] == LowerChar(s[i])
    decreases |s|
  {
    if s == [] then [] else [LowerChar(s[0])] + Lower(s[1..])
  }

  /** Upper-casing twice is upper-casing once, and lower-casing forgets a
      previous upper-casing. */
  lemma CaseMappingAbsorbs(s: string)
    ensures Upper(Upper(s)) == Upper(s)
    ensures Lower(Upper(s)) == Lower(s)
  {
    assert forall i :: 0 <= i < |s| ==> Upper(Upper(s))[i] == Upper(s)[i];
    assert forall i :: 0 <= i < |s| ==> Lower(Upper(s))[i] == Lower(s)[i];
  }

  /** `sep` occurs in `s` starting at index `k`. */
  predicate OccursAt(s: string, sep: string, k: nat)
  {
    k + |sep| <= |s| && s[k..k + |sep|] == sep
  }

  /** `s.split(sep)[0]`: `s` up to the first occurrence of `sep`, or all of
      `s` when `sep` does not occur. */
  function SplitHead(s: string, sep: string): (head: string)
    requires sep != []
    ensures head <= s
    ensures forall k :: 0 <= k < |head| ==> !OccursAt(s, sep, k)
    ensures |head| < |s| ==> OccursAt(s, sep, |head|)
    decreases |s|
  {
    if s == [] || sep <= s then []
    else
      var rest := SplitHead(s[1..], sep);
      assert !OccursAt(s, sep, 0) by {
        assert |sep| <= |s| ==> s[..|sep|] == s[0..|sep|];
      }
      forall k | 1 <= k <= |rest| + 1
        ensures OccursAt(s[1..], sep, k - 1) <==> OccursAt(s, sep, k)
      {
        OccursShift(s, sep, k - 1);
      }
      [s[0]] + rest
  }

  lemma OccursShift(s: string, sep: string, k: nat)
    requires s != []
    ensures OccursAt(s[1..], sep, k) <==> OccursAt(s, sep, k + 1)
  {
    if k + 1 + |sep| <= |s| {
      assert s[1..][k..k + |sep|] == s[k + 1..k + 1 + |sep|];
    }
  }

  /** When the separator cannot start anywhere in `s`, `split` leaves `s`
      whole. */
  lemma SplitHeadNoSeparator(s: string, sep: string)
    requires sep != [] && sep[0] !in s
    ensures SplitHead(s, sep) == s
  {
  }
}
