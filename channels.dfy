/**
 * Channel identifiers of the realtime service (install.js:165-166). A
 * direct channel joins the two participants' phone numbers in sorted
 * order, so both ends derive the same identifier; a group channel is the
 * group room's id behind the prefix "group_".
 */
module Channels {
  import opened Strings

  /** JavaScript's `a < b` on strings: lexicographic order on the characters. */
  predicate Less(a: string, b: string)
    ensures Less(a, b) ==> a != b
  {
    if a == [] then b != []
    else if b == [] then false
    else if a[0] != b[0] then a[0] < b[0]
    else Less(a[1..], b[1..])
  }

  lemma {:induction false} LessTotal(a: string, b: string)
    ensures a != b ==> Less(a, b) || Less(b, a)
  {
    if a != [] && b != [] && a[0] == b[0] {
      assert a == [a[0]] + a[1..] && b == [b[0]] + b[1..];
      LessTotal(a[1..], b[1..]);
    }
  }

  lemma {:induction false} LessAsymmetric(a: string, b: string)
    ensures Less(a, b) ==> !Less(b, a)
  {
    if a != [] && b != [] && a[0] == b[0] {
      LessAsymmetric(a[1..], b[1..]);
    }
  }

  /** `[p1, p2].sort().join('_')`: the default sort swaps the pair only when `p2 < p1`. */
  function DirectChannelId(p1: string, p2: string): (r: string)
    ensures r == p1 + "_" + p2 || r == p2 + "_" + p1
    ensures |r| == |p1| + |p2| + 1
    ensures Less(p1, p2) ==> r == p1 + "_" + p2
    ensures Less(p2, p1) ==> r == p2 + "_" + p1
  {
    LessAsymmetric(p1, p2);
    if Less(p2, p1) then p2 + "_" + p1 else p1 + "_" + p2
  }

  /** `'group_' + id`. */
  function GroupChannelId(id: string): (r: string)
    ensures |r| == |id| + 6 && r[..6] == "group_" && r[6..] == id
  {
    "group_" + id
  }

  /** Both participants derive the same direct channel. */
  lemma DirectChannelIdSymmetric(a: string, b: string)
    ensures DirectChannelId(a, b) == DirectChannelId(b, a)
  {
    LessTotal(a, b);
    LessAsymmetric(a, b);
  }

  /** Distinct group rooms listen on distinct channels. */
  lemma GroupChannelIdInjective(g: string, h: string)
    ensures GroupChannelId(g) == GroupChannelId(h) ==> g == h
  {
    if GroupChannelId(g) == GroupChannelId(h) {
      assert g == GroupChannelId(g)[6..] && h == GroupChannelId(h)[6..];
    }
  }

  /** A direct channel between two numeric phone numbers never collides with a group channel. */
  lemma DirectChannelNeverGroup(a: string, b: string, g: string)
    requires IsDigits(a) && IsDigits(b)
    ensures DirectChannelId(a, b) != GroupChannelId(g)
  {
    var d := DirectChannelId(a, b);
    var first := if Less(b, a) then b else a;
    assert d == first + "_" + (if Less(b, a) then a else b);
    assert d[0] == if first == [] then '_' else first[0];
    assert GroupChannelId(g)[0] == 'g';
  }

  /** Two strings without '_' joined by '_' can be split back apart. */
  lemma SplitAtSeparator(x: string, y: string, u: string, v: string)
    requires IsDigits(x) && IsDigits(y) && IsDigits(u) && IsDigits(v)
    requires x + "_" + y == u + "_" + v
    ensures x == u && y == v
  {
    var s := x + "_" + y;
    assert s[|x|] == '_' && s[|u|] == '_';
    assert forall i :: 0 <= i < |x| ==> s[i] == x[i];
    assert forall i :: 0 <= i < |u| ==> s[i] == u[i];
    assert x == s[..|x|] && u == s[..|u|];
    assert y == s[|x| + 1..] && v == s[|u| + 1..];
  }

  /** For numeric phone numbers a direct channel names exactly one pair of participants. */
  lemma DirectChannelDeterminesPair(a: string, b: string, c: string, d: string)
    requires IsDigits(a) && IsDigits(b) && IsDigits(c) && IsDigits(d)
    requires DirectChannelId(a, b) == DirectChannelId(c, d)
    ensures (a == c && b == d) || (a == d && b == c)
  {
    var x, y := if Less(b, a) then b else a, if Less(b, a) then a else b;
    var u, v := if Less(d, c) then d else c, if Less(d, c) then c else d;
    assert DirectChannelId(a, b) == x + "_" + y;
    assert DirectChannelId(c, d) == u + "_" + v;
    SplitAtSeparator(x, y, u, v);
  }
}
