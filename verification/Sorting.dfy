/** Sorted listings of sets of strings. */
module Sorting {
  import opened Strings

  function InsertString(s: seq<string>, x: string): (r: seq<string>)
    requires Ascending(s)
    ensures x !in s ==> Ascending(r)
    ensures x in s ==> r == s
    ensures forall y :: y in r <==> y == x || y in s
  {
    if s == [] then [x]
    else
      assert s == [s[0]] + s[1..];
      LessTotal(x, s[0]);
      if Less(x, s[0]) then
        assert forall i | 0 <= i < |s| :: Less(x, s[i]) && x != s[i] by {
          forall i | 0 <= i < |s| ensures Less(x, s[i]) && x != s[i] {
            if i > 0 { LessTransitive(x, s[0], s[i]); }
            LessTotal(x, s[i]);
          }
        }
        [x] + s
      else if x == s[0] then s
      else
        var t := InsertString(s[1..], x);
        assert forall i | 0 <= i < |t| :: Less(s[0], t[i]) by {
          forall i | 0 <= i < |t| ensures Less(s[0], t[i]) { assert t[i] in t; }
        }
        [s[0]] + t
  }

  /** `sort_unstable` on distinct keys. */
  function SortKeys(s: seq<string>): (r: seq<string>)
    ensures Ascending(r) && forall y :: y in r <==> y in s
  {
    if s == [] then [] else
      assert s == [s[0]] + s[1..];
      InsertString(SortKeys(s[1..]), s[0])
  }

  /** The one ascending listing of a set. */
  ghost function Listing(s: set<string>): (r: seq<string>)
    ensures Ascending(r) && forall x :: x in r <==> x in s
  {
    if s == {} then [] else
      var x :| x in s;
      InsertString(Listing(s - {x}), x)
  }

  lemma {:induction false} ListingLength(s: set<string>)
    ensures |Listing(s)| == |s|
  {
    AscendingLength(Listing(s));
    assert (set x | x in Listing(s)) == s;
  }
}
