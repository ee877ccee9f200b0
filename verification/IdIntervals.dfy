/** Sets of ids as lists of intervals. The list in which intervals are ordered and
    neither overlap nor touch is the only one with the fewest intervals. */
module IdIntervals {
  import opened Common

  datatype Interval = Interval(first: int, last: int)

  predicate Contains(v: Interval, x: int) {
    v.first <= x <= v.last
  }

  /** Some interval of the list contains `x`. */
  predicate Covers(s: seq<Interval>, x: int) {
    exists k :: 0 <= k < |s| && Contains(s[k], x)
  }

  function Range(first: int, last: int): (r: set<int>)
    ensures forall x :: x in r <==> first <= x <= last
    ensures |r| == if first <= last then last - first + 1 else 0
    decreases last - first + 1
  {
    if first > last then {} else Range(first, last - 1) + {last}
  }

  /** The ids that the list stands for. */
  function Ids(s: seq<Interval>): set<int> {
    if s == [] then {} else Range(s[0].first, s[0].last) + Ids(s[1..])
  }

  lemma {:induction false} IdsCovered(s: seq<Interval>, x: int)
    ensures x in Ids(s) <==> Covers(s, x)
  {
    if s != [] {
      IdsCovered(s[1..], x);
      if Covers(s, x) && !Contains(s[0], x) {
        var k :| 0 <= k < |s| && Contains(s[k], x);
        assert Contains(s[1..][k - 1], x);
      }
      if Covers(s[1..], x) {
        var k :| 0 <= k < |s[1..]| && Contains(s[1..][k], x);
        assert Contains(s[k + 1], x);
      }
    }
  }

  /** Nonempty intervals of ids. */
  predicate WithinLimits(s: seq<Interval>, max: nat) {
    forall k :: 0 <= k < |s| ==> 1 <= s[k].first <= s[k].last <= max
  }

  /** Between two intervals there is always an unused id. */
  predicate Separated(s: seq<Interval>) {
    forall j, k :: 0 <= j < k < |s| ==> s[j].last + 1 < s[k].first
  }

  predicate Maximal(s: seq<Interval>, max: nat) {
    WithinLimits(s, max) && Separated(s)
  }

  /** The values just outside an interval are not used. */
  lemma OutsideUnused(s: seq<Interval>, max: nat, k: nat)
    requires Maximal(s, max) && k < |s|
    ensures !Covers(s, s[k].first - 1) && !Covers(s, s[k].last + 1)
    ensures s[k].first in Ids(s)
  {
    assert Contains(s[k], s[k].first);
    IdsCovered(s, s[k].first);
  }

  // ------------------------------------------------------------------
  // Minimality and uniqueness

  /** Any list of nonempty intervals, in any order and overlapping or not, whose
      union is the set. */
  ghost predicate IsCover(c: seq<Interval>, ids: set<int>) {
    && (forall k :: 0 <= k < |c| ==> c[k].first <= c[k].last)
    && (forall x :: Covers(c, x) <==> x in ids)
  }

  lemma IdsIsCover(s: seq<Interval>, max: nat)
    requires Maximal(s, max)
    ensures IsCover(s, Ids(s))
  {
    forall x ensures Covers(s, x) <==> x in Ids(s) {
      IdsCovered(s, x);
    }
  }

  /** The first interval of a list that contains a value. */
  function Owner(c: seq<Interval>, x: int): (k: nat)
    requires Covers(c, x)
    ensures k < |c| && Contains(c[k], x)
  {
    if Contains(c[0], x) then 0
    else
      assert Covers(c[1..], x) by {
        var k :| 0 <= k < |c| && Contains(c[k], x);
        assert Contains(c[1..][k - 1], x);
      }
      Owner(c[1..], x) + 1
  }

  /** For each maximal interval an interval of the cover that contains its start. */
  ghost function Owners(s: seq<Interval>, c: seq<Interval>, max: nat): (f: seq<nat>)
    requires Maximal(s, max) && IsCover(c, Ids(s))
    ensures |f| == |s|
    ensures forall k :: 0 <= k < |s| ==> f[k] < |c| && Contains(c[f[k]], s[k].first)
  {
    assert forall k :: 0 <= k < |s| ==> Covers(c, s[k].first) by {
      forall k | 0 <= k < |s| ensures Covers(c, s[k].first) {
        OutsideUnused(s, max, k);
      }
    }
    seq(|s|, k requires 0 <= k < |s| => Owner(c, s[k].first))
  }

  /** An interval of a cover lies inside the maximal interval whose start it
      contains. */
  lemma InsideMaximal(s: seq<Interval>, c: seq<Interval>, max: nat, i: nat, k: nat, x: int)
    requires Maximal(s, max) && IsCover(c, Ids(s)) && i < |c| && k < |s|
    requires Contains(c[i], x) && Contains(s[k], x)
    ensures s[k].first <= c[i].first && c[i].last <= s[k].last
  {
    OutsideUnused(s, max, k);
    IdsCovered(s, s[k].first - 1);
    IdsCovered(s, s[k].last + 1);
    assert !Covers(c, s[k].first - 1) && !Covers(c, s[k].last + 1);
    assert !Contains(c[i], s[k].first - 1) && !Contains(c[i], s[k].last + 1);
  }

  lemma OwnersDistinct(s: seq<Interval>, c: seq<Interval>, max: nat)
    requires Maximal(s, max) && IsCover(c, Ids(s))
    ensures forall j, k :: 0 <= j < k < |s| ==> Owners(s, c, max)[j] != Owners(s, c, max)[k]
  {
    var f := Owners(s, c, max);
    forall j, k | 0 <= j < k < |s| ensures f[j] != f[k] {
      InsideMaximal(s, c, max, f[j], j, s[j].first);
      assert s[k].first <= c[f[k]].last && c[f[j]].last <= s[j].last;
    }
  }

  lemma {:induction false} DistinctBelow(f: seq<nat>, n: nat)
    requires forall k :: 0 <= k < |f| ==> f[k] < n
    requires forall j, k :: 0 <= j < k < |f| ==> f[j] != f[k]
    ensures |f| <= n
    ensures |f| == n ==> forall i :: 0 <= i < n ==> i in f
  {
    var image := set k | 0 <= k < |f| :: f[k];
    var all := Range(0, n - 1);
    ImageSize(f, |f|);
    assert image <= all;
    Subset(image, all);
    if |f| == n {
      forall i | 0 <= i < n ensures i in f {
        assert i in all && i in image;
      }
    }
  }

  lemma {:induction false} ImageSize(f: seq<nat>, n: nat)
    requires n <= |f| && forall j, k :: 0 <= j < k < |f| ==> f[j] != f[k]
    ensures |set k | 0 <= k < n :: f[k]| == n
  {
    var image := set k | 0 <= k < n :: f[k];
    if n == 0 {
      assert image == {};
    } else {
      ImageSize(f, n - 1);
      assert image == (set k | 0 <= k < n - 1 :: f[k]) + {f[n - 1]};
    }
  }

  /** No cover has fewer intervals than the maximal one. */
  lemma MaximalIsMinimal(s: seq<Interval>, c: seq<Interval>, max: nat)
    requires Maximal(s, max) && IsCover(c, Ids(s))
    ensures |s| <= |c|
  {
    OwnersDistinct(s, c, max);
    DistinctBelow(Owners(s, c, max), |c|);
  }

  /** In a cover with as few intervals, each is one of the maximal intervals. */
  lemma SmallestCoverIsMaximal(s: seq<Interval>, c: seq<Interval>, max: nat, k: nat)
    requires Maximal(s, max) && IsCover(c, Ids(s)) && |c| == |s| && k < |s|
    ensures c[Owners(s, c, max)[k]] == s[k]
  {
    var f := Owners(s, c, max);
    OwnersDistinct(s, c, max);
    DistinctBelow(f, |c|);
    InsideMaximal(s, c, max, f[k], k, s[k].first);
    var last := s[k].last;
    assert Contains(s[k], last);
    IdsCovered(s, last);
    var i := Owner(c, last);
    assert i in f;
    var j :| 0 <= j < |f| && f[j] == i;
    InsideMaximal(s, c, max, i, j, s[j].first);
    assert Contains(s[j], last);
    assert j == k;
  }

  /** The smallest cover is unique: it consists of the maximal intervals. */
  lemma SmallestCoverIsUnique(s: seq<Interval>, c: seq<Interval>, max: nat)
    requires Maximal(s, max) && IsCover(c, Ids(s)) && |c| == |s|
    ensures forall v :: v in c <==> v in s
  {
    var f := Owners(s, c, max);
    OwnersDistinct(s, c, max);
    DistinctBelow(f, |c|);
    forall v | v in s ensures v in c {
      var k :| 0 <= k < |s| && s[k] == v;
      SmallestCoverIsMaximal(s, c, max, k);
    }
    forall v | v in c ensures v in s {
      var i :| 0 <= i < |c| && c[i] == v;
      assert i in f;
      var k :| 0 <= k < |f| && f[k] == i;
      SmallestCoverIsMaximal(s, c, max, k);
    }
  }

  /** Two maximal lists for the same set are equal. */
  lemma {:induction false} MaximalIsUnique(s: seq<Interval>, t: seq<Interval>, max: nat)
    requires Maximal(s, max) && Maximal(t, max) && Ids(s) == Ids(t)
    ensures s == t
  {
    IdsIsCover(s, max);
    IdsIsCover(t, max);
    MaximalIsMinimal(s, t, max);
    MaximalIsMinimal(t, s, max);
    SmallestCoverIsUnique(s, t, max);
    SameOrder(s, t, max);
  }

  lemma {:induction false} SameOrder(s: seq<Interval>, t: seq<Interval>, max: nat)
    requires Maximal(s, max) && Maximal(t, max) && |s| == |t| && forall v :: v in s <==> v in t
    ensures s == t
  {
    if s != [] {
      assert s[0] in t && t[0] in s;
      assert s[0] == t[0];
      forall v ensures v in s[1..] <==> v in t[1..] {
        assert v in s[1..] <==> v in s && v != s[0];
        assert v in t[1..] <==> v in t && v != t[0];
      }
      SameOrder(s[1..], t[1..], max);
      assert s == [s[0]] + s[1..] && t == [t[0]] + t[1..];
    }
  }
}
