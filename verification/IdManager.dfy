/** IdManager: a set of used ids kept as a map of maximal intervals. */
module IdManagement {
  import opened IdIntervals
  import opened Wrappers

  /** std::map::lower_bound: the first interval that does not start before `id`. */
  function LowerBound(s: seq<Interval>, id: int): (k: nat)
    ensures k <= |s|
    ensures forall j :: 0 <= j < k ==> s[j].first < id
    ensures k < |s| ==> s[k].first >= id
  {
    if s == [] || s[0].first >= id then 0 else LowerBound(s[1..], id) + 1
  }

  // ------------------------------------------------------------------
  // Changes of the intervals

  /** Values in `s` are those of `t` with one added. */
  ghost predicate Adds(s: seq<Interval>, t: seq<Interval>, id: int) {
    forall x :: Covers(t, x) <==> Covers(s, x) || x == id
  }

  lemma AddedIds(s: seq<Interval>, t: seq<Interval>, id: int)
    requires Adds(s, t, id)
    ensures Ids(t) == Ids(s) + {id}
  {
    forall x ensures x in Ids(t) <==> x in Ids(s) + {id} {
      IdsCovered(s, x);
      IdsCovered(t, x);
    }
  }

  lemma RemovedIds(s: seq<Interval>, t: seq<Interval>, id: int)
    requires Adds(t, s, id) && !Covers(t, id)
    ensures Ids(t) == Ids(s) - {id}
  {
    forall x ensures x in Ids(t) <==> x in Ids(s) - {id} {
      IdsCovered(s, x);
      IdsCovered(t, x);
    }
  }

  /** The interval that starts with 1, before all others. */
  lemma PrependOne(s: seq<Interval>, max: nat)
    requires Maximal(s, max) && (s == [] || s[0].first > 2) && max >= 1
    ensures Maximal([Interval(1, 1)] + s, max) && Adds(s, [Interval(1, 1)] + s, 1)
  {
    var t := [Interval(1, 1)] + s;
    forall x ensures Covers(t, x) <==> Covers(s, x) || x == 1 {
      if Covers(s, x) {
        var k :| 0 <= k < |s| && Contains(s[k], x);
        assert Contains(t[k + 1], x);
      }
      if x == 1 {
        assert Contains(t[0], x);
      }
    }
  }

  /** Replacing one interval. */
  lemma ReplaceAdds(s: seq<Interval>, k: nat, v: Interval, id: int)
    requires k < |s| && (forall x :: Contains(v, x) <==> Contains(s[k], x) || x == id)
    ensures Adds(s, s[k := v], id)
  {
    var t := s[k := v];
    forall x ensures Covers(t, x) <==> Covers(s, x) || x == id {
      if Covers(s, x) {
        var j :| 0 <= j < |s| && Contains(s[j], x);
        assert Contains(t[j], x);
      }
      if x == id {
        assert Contains(t[k], x);
      }
      if Covers(t, x) {
        var j :| 0 <= j < |t| && Contains(t[j], x);
        assert Contains(s[j], x) || x == id;
      }
    }
  }

  /** One interval splits into two around an id, or two are joined by it. */
  function Split(s: seq<Interval>, k: nat, id: int): seq<Interval>
    requires k < |s|
  {
    s[..k] + [Interval(s[k].first, id - 1), Interval(id + 1, s[k].last)] + s[k + 1..]
  }

  lemma SplitAdds(s: seq<Interval>, k: nat, id: int)
    requires k < |s| && s[k].first < id < s[k].last
    ensures Adds(Split(s, k, id), s, id)
  {
    var t := Split(s, k, id);
    assert t[k] == Interval(s[k].first, id - 1) && t[k + 1] == Interval(id + 1, s[k].last);
    forall x ensures Covers(s, x) <==> Covers(t, x) || x == id {
      if Covers(s, x) && x != id {
        var j :| 0 <= j < |s| && Contains(s[j], x);
        assert Contains(t[if j < k then j else if j > k then j + 1 else if x < id then k else k + 1], x);
      }
      if Covers(t, x) {
        var j :| 0 <= j < |t| && Contains(t[j], x);
        assert Contains(s[if j <= k then j else j - 1], x);
      }
      if x == id {
        assert Contains(s[k], x);
      }
    }
  }

  function Without(s: seq<Interval>, k: nat): seq<Interval>
    requires k < |s|
  {
    s[..k] + s[k + 1..]
  }

  lemma WithoutAdds(s: seq<Interval>, k: nat)
    requires k < |s| && s[k].first == s[k].last
    ensures Adds(Without(s, k), s, s[k].first)
  {
    var t := Without(s, k);
    forall x ensures Covers(s, x) <==> Covers(t, x) || x == s[k].first {
      if Covers(s, x) && x != s[k].first {
        var j :| 0 <= j < |s| && Contains(s[j], x);
        assert Contains(t[if j < k then j else j - 1], x);
      }
      if Covers(t, x) {
        var j :| 0 <= j < |t| && Contains(t[j], x);
        assert Contains(s[if j < k then j else j + 1], x);
      }
      if x == s[k].first {
        assert Contains(s[k], x);
      }
    }
  }

  /** Joining the first two intervals is the reverse of splitting. */
  lemma JoinFirst(s: seq<Interval>, max: nat)
    requires Maximal(s, max) && |s| >= 2 && s[0].last + 2 == s[1].first
    ensures var t := [Interval(s[0].first, s[1].last)] + s[2..];
            Maximal(t, max) && Adds(s, t, s[0].last + 1)
  {
    var t := [Interval(s[0].first, s[1].last)] + s[2..];
    SplitAdds(t, 0, s[0].last + 1);
    assert Split(t, 0, s[0].last + 1) == s;
  }

  // ------------------------------------------------------------------

  /** No id below `id` is free and `id` is. */
  ghost predicate LeastUnused(used: set<int>, id: int) {
    id >= 1 && id !in used && forall x :: 1 <= x < id ==> x in used
  }

  lemma FirstGap(s: seq<Interval>, max: nat)
    requires Maximal(s, max)
    ensures s == [] || s[0].first > 1 ==> LeastUnused(Ids(s), 1)
    ensures s != [] && s[0].first == 1 ==> LeastUnused(Ids(s), s[0].last + 1)
  {
    if s == [] || s[0].first > 1 {
      IdsCovered(s, 1);
    } else {
      OutsideUnused(s, max, 0);
      IdsCovered(s, s[0].last + 1);
      forall x | 1 <= x < s[0].last + 1 ensures x in Ids(s) {
        assert Contains(s[0], x);
        IdsCovered(s, x);
      }
    }
  }

  /** `t` results from `s` by giving out the least unused id. */
  ghost predicate Grown(s: seq<Interval>, t: seq<Interval>, max: nat, id: int) {
    && Maximal(t, max) && id <= max && LeastUnused(Ids(s), id)
    && Ids(t) == Ids(s) + {id} && |Ids(t)| == |Ids(s)| + 1
    && Ids(s) != Range(1, max)
  }

  lemma AddsGrows(s: seq<Interval>, t: seq<Interval>, max: nat, id: int)
    requires Maximal(s, max) && Maximal(t, max) && Adds(s, t, id) && LeastUnused(Ids(s), id) && id <= max
    ensures Grown(s, t, max, id)
  {
    AddedIds(s, t, id);
    assert id in Range(1, max);
  }

  lemma GrowNew(s: seq<Interval>, max: nat)
    requires Maximal(s, max) && (s == [] || s[0].first > 2) && max >= 1
    ensures Grown(s, [Interval(1, 1)] + s, max, 1)
  {
    FirstGap(s, max);
    PrependOne(s, max);
    AddsGrows(s, [Interval(1, 1)] + s, max, 1);
  }

  lemma GrowDown(s: seq<Interval>, max: nat)
    requires Maximal(s, max) && s != [] && s[0].first == 2
    ensures Grown(s, s[0 := Interval(1, s[0].last)], max, 1)
  {
    FirstGap(s, max);
    ReplaceAdds(s, 0, Interval(1, s[0].last), 1);
    AddsGrows(s, s[0 := Interval(1, s[0].last)], max, 1);
  }

  lemma GrowUp(s: seq<Interval>, max: nat)
    requires Maximal(s, max) && s != [] && s[0].first == 1
    requires if |s| > 1 then s[0].last + 2 < s[1].first else s[0].last < max
    ensures Grown(s, s[0 := Interval(1, s[0].last + 1)], max, s[0].last + 1)
  {
    var id := s[0].last + 1;
    FirstGap(s, max);
    ReplaceAdds(s, 0, Interval(1, id), id);
    AddsGrows(s, s[0 := Interval(1, id)], max, id);
  }

  lemma GrowJoin(s: seq<Interval>, max: nat)
    requires Maximal(s, max) && |s| > 1 && s[0].first == 1 && s[0].last + 2 == s[1].first
    ensures Grown(s, [Interval(1, s[1].last)] + s[2..], max, s[0].last + 1)
  {
    FirstGap(s, max);
    JoinFirst(s, max);
    AddsGrows(s, [Interval(1, s[1].last)] + s[2..], max, s[0].last + 1);
  }

  lemma AllUsed(s: seq<Interval>, max: nat)
    requires Maximal(s, max) && |s| == 1 && s[0] == Interval(1, max)
    ensures Ids(s) == Range(1, max)
  {
    assert s[1..] == [];
  }

  /** `t` results from `s` by taking back an id. */
  ghost predicate Shrunk(s: seq<Interval>, t: seq<Interval>, max: nat, id: int) {
    && Maximal(t, max) && id in Ids(s)
    && Ids(t) == Ids(s) - {id} && |Ids(t)| == |Ids(s)| - 1
  }

  lemma RemovesShrinks(s: seq<Interval>, t: seq<Interval>, max: nat, k: nat, id: int)
    requires Maximal(s, max) && Maximal(t, max) && Adds(t, s, id) && !Covers(t, id)
    requires k < |s| && Contains(s[k], id)
    ensures Shrunk(s, t, max, id)
  {
    IdsCovered(s, id);
    RemovedIds(s, t, id);
  }

  /** No other interval contains an id of the k-th. */
  lemma OutsideOthers(s: seq<Interval>, max: nat, k: nat, id: int)
    requires Maximal(s, max) && k < |s| && Contains(s[k], id)
    ensures forall j :: 0 <= j < |s| && j != k ==> !Contains(s[j], id)
  {
  }

  lemma ShrinkWhole(s: seq<Interval>, max: nat, k: nat)
    requires Maximal(s, max) && k < |s| && s[k].first == s[k].last
    ensures Shrunk(s, Without(s, k), max, s[k].first)
  {
    OutsideOthers(s, max, k, s[k].first);
    WithoutAdds(s, k);
    RemovesShrinks(s, Without(s, k), max, k, s[k].first);
  }

  /** The first or the last id of an interval is taken back. */
  lemma ShrinkEnd(s: seq<Interval>, max: nat, k: nat, v: Interval, id: int)
    requires Maximal(s, max) && k < |s| && v.first <= v.last
    requires || (id == s[k].first && v == Interval(id + 1, s[k].last))
             || (id == s[k].last && v == Interval(s[k].first, id - 1))
    ensures Shrunk(s, s[k := v], max, id)
  {
    var t := s[k := v];
    OutsideOthers(s, max, k, id);
    ReplaceAdds(t, k, s[k], id);
    assert t[k := s[k]] == s;
    RemovesShrinks(s, t, max, k, id);
  }

  lemma ShrinkMiddle(s: seq<Interval>, max: nat, k: nat, id: int)
    requires Maximal(s, max) && k < |s| && s[k].first < id < s[k].last
    ensures Shrunk(s, Split(s, k, id), max, id)
  {
    OutsideOthers(s, max, k, id);
    SplitAdds(s, k, id);
    SplitMaximal(s, max, k, id);
    RemovesShrinks(s, Split(s, k, id), max, k, id);
  }

  lemma SplitMaximal(s: seq<Interval>, max: nat, k: nat, id: int)
    requires Maximal(s, max) && k < |s| && s[k].first < id < s[k].last
    ensures Maximal(Split(s, k, id), max) && !Covers(Split(s, k, id), id)
  {
    var t := Split(s, k, id);
    forall j | 0 <= j < |t|
      ensures t[j] == if j < k then s[j] else if j == k then Interval(s[k].first, id - 1)
                      else if j == k + 1 then Interval(id + 1, s[k].last) else s[j - 1]
    {
    }
  }

  class IdManager {
    var size: int
    var idIntervals: seq<Interval>
    /** Greatest value of the integral type. */
    const max: nat

    ghost predicate Valid()
      reads this
    {
      max >= 1 && Maximal(idIntervals, max) && size == |Used()|
    }

    /** The set of ids in use. */
    ghost function Used(): set<int>
      reads this
    {
      Ids(idIntervals)
    }

    constructor (max: nat)
      requires max >= 1
      ensures Valid() && Used() == {} && this.max == max
    {
      size, idIntervals := 0, [];
      this.max := max;
    }

    /** The index of the interval that contains the id, or the number of intervals
        if there is none. */
    method FindInterval(id: int) returns (k: nat)
      requires Valid()
      ensures k <= |idIntervals|
      ensures k < |idIntervals| ==> Contains(idIntervals[k], id)
      ensures k < |idIntervals| <==> id in Used()
    {
      IdsCovered(idIntervals, id);
      if |idIntervals| == 0 {
        return 0;
      }
      var lub := LowerBound(idIntervals, id);
      if lub < |idIntervals| && idIntervals[lub].first == id {
        assert Contains(idIntervals[lub], id);
        return lub;
      }
      if lub == 0 {
        return |idIntervals|;
      }
      if id <= idIntervals[lub - 1].last {
        assert Contains(idIntervals[lub - 1], id);
        return lub - 1;
      }
      assert forall j :: 0 <= j < lub ==> idIntervals[j].last <= idIntervals[lub - 1].last;
      return |idIntervals|;
    }

    method IsUsed(id: int) returns (used: bool)
      requires Valid()
      ensures used <==> id in Used()
    {
      var k := FindInterval(id);
      used := k != |idIntervals|;
    }

    method NumberOfUsedIds() returns (n: int)
      requires Valid()
      ensures n == |Used()|
    {
      n := size;
    }

    /** Returns the least unused id, or nothing exactly when all are used. */
    method GetId() returns (id: Option<int>)
      requires Valid()
      modifies this
      ensures Valid()
      ensures id.None? <==> old(Used()) == Range(1, max)
      ensures id.None? ==> Used() == old(Used()) && idIntervals == old(idIntervals)
      ensures id.Some? ==> id.value <= max && LeastUnused(old(Used()), id.value)
      ensures id.Some? ==> Used() == old(Used()) + {id.value}
    {
      if |idIntervals| == 0 {
        GrowNew([], max);
        idIntervals := [Interval(1, 1)] + [];
        size := 1;
        return Some(1);
      }
      var least := idIntervals[0];
      if least.first > 1 {
        if least.first > 2 {
          GrowNew(idIntervals, max);
          idIntervals := [Interval(1, 1)] + idIntervals;
        } else {
          GrowDown(idIntervals, max);
          idIntervals := idIntervals[0 := Interval(1, least.last)];
        }
        size := size + 1;
        return Some(1);
      }
      if |idIntervals| > 1 {
        var newId := least.last + 1;
        if newId + 1 == idIntervals[1].first {
          GrowJoin(idIntervals, max);
          idIntervals := [Interval(1, idIntervals[1].last)] + idIntervals[2..];
        } else {
          GrowUp(idIntervals, max);
          idIntervals := idIntervals[0 := Interval(1, newId)];
        }
        size := size + 1;
        return Some(newId);
      }
      if least.last == max {
        AllUsed(idIntervals, max);
        return None;
      }
      GrowUp(idIntervals, max);
      idIntervals := idIntervals[0 := Interval(1, least.last + 1)];
      size := size + 1;
      return Some(least.last + 1);
    }

    /** Fails exactly on ids that are not in use, and then changes nothing. */
    method ReleaseId(id: int) returns (released: bool)
      requires Valid()
      modifies this
      ensures Valid()
      ensures released <==> id in old(Used())
      ensures !released ==> idIntervals == old(idIntervals)
      ensures Used() == old(Used()) - {id}
    {
      var k := FindInterval(id);
      if k == |idIntervals| {
        return false;
      }
      var v := idIntervals[k];
      if id == v.first {
        if id == v.last {
          ShrinkWhole(idIntervals, max, k);
          idIntervals := Without(idIntervals, k);
        } else {
          ShrinkEnd(idIntervals, max, k, Interval(id + 1, v.last), id);
          idIntervals := idIntervals[k := Interval(id + 1, v.last)];
        }
      } else if id == v.last {
        ShrinkEnd(idIntervals, max, k, Interval(v.first, id - 1), id);
        idIntervals := idIntervals[k := Interval(v.first, id - 1)];
      } else {
        ShrinkMiddle(idIntervals, max, k, id);
        idIntervals := Split(idIntervals, k, id);
      }
      size := size - 1;
      return true;
    }
  }

  // ------------------------------------------------------------------
  // Histories

  datatype Call = Get | Release(id: int)

  /** What a call returns: an id, or whether it succeeded. */
  datatype Response = Given(id: Option<int>) | Released(ok: bool)

  /** The behaviour promised for a plain set of used ids. */
  ghost predicate SetStep(used: set<int>, call: Call, response: Response, next: set<int>, max: nat) {
    match call
    case Get =>
      response.Given? &&
      if used == Range(1, max) then response.id.None? && next == used
      else && response.id.Some? && response.id.value <= max && LeastUnused(used, response.id.value)
           && next == used + {response.id.value}
    case Release(id) =>
      response == Released(id in used) && next == used - {id}
  }

  /** A history of the plain set: the sets between the calls are listed. */
  ghost predicate SetHistory(sets: seq<set<int>>, calls: seq<Call>, responses: seq<Response>, max: nat) {
    && |sets| == |calls| + 1 == |responses| + 1 && sets[0] == {}
    && forall k :: 0 <= k < |calls| ==> SetStep(sets[k], calls[k], responses[k], sets[k + 1], max)
  }

  lemma HistoryGrows(sets: seq<set<int>>, calls: seq<Call>, k: nat, responses: seq<Response>, response: Response,
                     next: set<int>, max: nat)
    requires k < |calls| && SetHistory(sets, calls[..k], responses, max)
    requires SetStep(sets[k], calls[k], response, next, max)
    ensures SetHistory(sets + [next], calls[..k + 1], responses + [response], max)
  {
  }

  /** Over every history of calls the manager responds as the plain set does. */
  method Replay(calls: seq<Call>, max: nat) returns (m: IdManager, responses: seq<Response>, ghost sets: seq<set<int>>)
    requires max >= 1
    ensures fresh(m) && m.Valid() && m.max == max
    ensures SetHistory(sets, calls, responses, max) && sets[|calls|] == m.Used()
  {
    m := new IdManager(max);
    responses, sets := [], [m.Used()];
    var k := 0;
    while k < |calls|
      invariant k <= |calls| && fresh(m) && m.Valid() && m.max == max
      invariant SetHistory(sets, calls[..k], responses, max) && sets[k] == m.Used()
    {
      var response;
      if calls[k].Get? {
        var id := m.GetId();
        response := Given(id);
      } else {
        var ok := m.ReleaseId(calls[k].id);
        response := Released(ok);
      }
      HistoryGrows(sets, calls, k, responses, response, m.Used(), max);
      responses, sets := responses + [response], sets + [m.Used()];
      k := k + 1;
    }
    assert calls[..k] == calls;
  }
}
