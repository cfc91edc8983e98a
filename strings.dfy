/** Python's prefix test and substring test on strings, on seq<char>. */
module Strings {

  /** `sub` occurs in `s` starting at index `i`. */
  ghost predicate OccursAt(s: string, sub: string, i: int)
  {
    0 <= i && i + |sub| <= |s| && s[i..i + |sub|] == sub
  }

  /** `s` begins with `prefix`. */
  function StartsWith(s: string, prefix: string): (r: bool)
    ensures r <==> |prefix| <= |s| && forall k :: 0 <= k < |prefix| ==> s[k] == prefix[k]
  {
    |prefix| <= |s| && s[..|prefix|] == prefix
  }

  /** Python's substring test: some window of `s` equals `sub`. */
  function Contains(s: string, sub: string): (r: bool)
    ensures r <==> exists i :: OccursAt(s, sub, i)
    decreases |s|
  {
    if |s| < |sub| then
      false
    else if StartsWith(s, sub) then
      assert OccursAt(s, sub, 0);
      true
    else
      var rest := Contains(s[1..], sub);
      assert forall i :: OccursAt(s[1..], sub, i) <==> OccursAt(s, sub, i + 1);
      assert forall i :: OccursAt(s, sub, i) ==> i == 0 || OccursAt(s[1..], sub, i - 1);
      rest
  }
}
