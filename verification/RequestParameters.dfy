/** ProcessFCGI_PARAMS: from the content of a parameter stream to the map of
    environment variables. */
module RequestParameters {
  import opened Bytes
  import opened NameValuePairs
  import opened Wrappers

  // ------------------------------------------------------------------
  // Sorting by name

  /** The lexicographic order of byte vectors. */
  predicate Less(a: seq<byte>, b: seq<byte>) {
    if b == [] then false
    else if a == [] then true
    else a[0] < b[0] || (a[0] == b[0] && Less(a[1..], b[1..]))
  }

  lemma {:induction false} LessTotal(a: seq<byte>, b: seq<byte>)
    ensures Less(a, b) || a == b || Less(b, a)
  {
    if a != [] && b != [] && a[0] == b[0] {
      LessTotal(a[1..], b[1..]);
      assert a == [a[0]] + a[1..] && b == [b[0]] + b[1..];
    }
  }

  lemma {:induction false} LessTransitive(a: seq<byte>, b: seq<byte>, c: seq<byte>)
    requires Less(a, b) && Less(b, c)
    ensures Less(a, c)
  {
    if a != [] && a[0] == b[0] && b[0] == c[0] {
      LessTransitive(a[1..], b[1..], c[1..]);
    }
  }

  lemma {:induction false} LessIrreflexive(a: seq<byte>)
    ensures !Less(a, a)
  {
    if a != [] {
      LessIrreflexive(a[1..]);
    }
  }

  predicate SortedByName(ps: seq<Pair>) {
    forall i, j :: 0 <= i < j < |ps| ==> !Less(ps[j].name, ps[i].name)
  }

  /** Some arrangement of `ps` in which no name is followed by a lesser one. */
  predicate IsSorting(sorted: seq<Pair>, ps: seq<Pair>) {
    SortedByName(sorted) && multiset(sorted) == multiset(ps)
  }

  function Insert(p: Pair, ps: seq<Pair>): seq<Pair> {
    if ps == [] || !Less(ps[0].name, p.name) then [p] + ps else [ps[0]] + Insert(p, ps[1..])
  }

  predicate NoneLess(ps: seq<Pair>, name: seq<byte>) {
    forall j :: 0 <= j < |ps| ==> !Less(ps[j].name, name)
  }

  lemma {:induction false} InsertNoneLess(p: Pair, ps: seq<Pair>, name: seq<byte>)
    requires NoneLess(ps, name) && !Less(p.name, name)
    ensures NoneLess(Insert(p, ps), name)
  {
    if ps != [] && Less(ps[0].name, p.name) {
      InsertNoneLess(p, ps[1..], name);
    }
  }

  lemma NoneLessThanFirst(ps: seq<Pair>, name: seq<byte>)
    requires SortedByName(ps) && ps != [] && !Less(ps[0].name, name)
    ensures NoneLess(ps, name)
  {
    forall j | 0 <= j < |ps| ensures !Less(ps[j].name, name) {
      if Less(ps[j].name, name) {
        LessTotal(ps[0].name, ps[j].name);
        if Less(ps[0].name, ps[j].name) {
          LessTransitive(ps[0].name, ps[j].name, name);
        }
      }
    }
  }

  lemma {:induction false} InsertSorts(p: Pair, ps: seq<Pair>)
    requires SortedByName(ps)
    ensures SortedByName(Insert(p, ps))
  {
    if ps == [] {
    } else if !Less(ps[0].name, p.name) {
      NoneLessThanFirst(ps, p.name);
    } else {
      InsertSorts(p, ps[1..]);
      if Less(p.name, ps[0].name) {
        LessTransitive(p.name, ps[0].name, p.name);
        LessIrreflexive(p.name);
      }
      InsertNoneLess(p, ps[1..], ps[0].name);
    }
  }

  lemma {:induction false} InsertKeeps(p: Pair, ps: seq<Pair>)
    ensures multiset(Insert(p, ps)) == multiset(ps) + multiset{p}
  {
    if ps != [] && Less(ps[0].name, p.name) {
      InsertKeeps(p, ps[1..]);
      assert ps == [ps[0]] + ps[1..];
    }
  }

  /** Stands for std::sort, which promises an order of names but not the relative
      order of pairs with equal names. */
  method Sort(ps: seq<Pair>) returns (sorted: seq<Pair>)
    ensures IsSorting(sorted, ps)
  {
    if ps == [] {
      return [];
    }
    var rest := Sort(ps[1..]);
    InsertSorts(ps[0], rest);
    InsertKeeps(ps[0], rest);
    assert ps == [ps[0]] + ps[1..];
    sorted := Insert(ps[0], rest);
  }

  // ------------------------------------------------------------------

  /** Equal names have equal values. */
  predicate Consistent(ps: seq<Pair>) {
    forall i, j :: 0 <= i < |ps| && 0 <= j < |ps| && ps[i].name == ps[j].name ==> ps[i].value == ps[j].value
  }

  type Environment = map<seq<byte>, seq<byte>>

  /** The map holds exactly the given pairs. */
  ghost predicate IsEnvironmentOf(env: Environment, ps: seq<Pair>) {
    forall name, value :: (name in env && env[name] == value) <==> Pair(name, value) in ps
  }

  lemma EnvironmentMeansConsistent(env: Environment, ps: seq<Pair>)
    requires IsEnvironmentOf(env, ps)
    ensures Consistent(ps)
  {
    forall i, j | 0 <= i < |ps| && 0 <= j < |ps| && ps[i].name == ps[j].name
      ensures ps[i].value == ps[j].value
    {
      assert Pair(ps[i].name, ps[i].value) in ps && Pair(ps[j].name, ps[j].value) in ps;
    }
  }

  /** Neither the order of the pairs nor repetitions of a pair can be seen in the
      result. */
  lemma EnvironmentIsUnique(env: Environment, other: Environment, ps: seq<Pair>, qs: seq<Pair>)
    requires IsEnvironmentOf(env, ps) && IsEnvironmentOf(other, qs)
    requires forall p :: p in ps <==> p in qs
    ensures env == other
  {
    forall name | name in env ensures name in other && other[name] == env[name] {
      assert Pair(name, env[name]) in ps;
    }
    forall name | name in other ensures name in env {
      assert Pair(name, other[name]) in qs;
    }
  }

  lemma SamePairs(ps: seq<Pair>, qs: seq<Pair>)
    requires Consistent(ps) && forall q :: q in qs ==> q in ps
    ensures Consistent(qs)
  {
    forall i, j | 0 <= i < |qs| && 0 <= j < |qs| && qs[i].name == qs[j].name
      ensures qs[i].value == qs[j].value
    {
      assert qs[i] in ps && qs[j] in ps;
    }
  }

  lemma SortingKeepsPairs(sorted: seq<Pair>, ps: seq<Pair>)
    requires IsSorting(sorted, ps)
    ensures forall p :: p in ps <==> p in sorted
    ensures Consistent(ps) <==> Consistent(sorted)
  {
    forall p ensures p in ps <==> p in sorted {
      assert p in ps <==> p in multiset(ps);
      assert p in sorted <==> p in multiset(sorted);
    }
    if Consistent(ps) {
      SamePairs(ps, sorted);
    }
    if Consistent(sorted) {
      SamePairs(sorted, ps);
    }
  }

  lemma EnvironmentGrows(env: Environment, ps: seq<Pair>, p: Pair)
    requires IsEnvironmentOf(env, ps)
    requires p.name !in env
    ensures IsEnvironmentOf(env[p.name := p.value], ps + [p])
  {
    forall q ensures q in ps + [p] <==> q in ps || q == p {}
  }

  lemma EnvironmentRepeats(env: Environment, ps: seq<Pair>, p: Pair)
    requires IsEnvironmentOf(env, ps) && p in ps
    ensures IsEnvironmentOf(env, ps + [p])
  {
    forall q ensures q in ps + [p] <==> q in ps {}
  }

  /** In a sorted list a name that differs from its predecessor's is new. */
  lemma NameIsNew(ps: seq<Pair>, k: nat)
    requires SortedByName(ps) && 0 < k < |ps| && ps[k].name != ps[k - 1].name
    ensures forall j :: 0 <= j < k ==> ps[j].name != ps[k].name
  {
    forall j | 0 <= j < k ensures ps[j].name != ps[k].name {
      if ps[j].name == ps[k].name {
        assert !Less(ps[k].name, ps[k - 1].name) && !Less(ps[k - 1].name, ps[j].name);
        LessTotal(ps[k].name, ps[k - 1].name);
      }
    }
  }

  /** The two-iterator loop over the sorted list. The pair at `current` enters
      the map when `next` reaches another name. */
  method BuildEnvironment(list: seq<Pair>) returns (ok: bool, env: Environment)
    requires list != [] && SortedByName(list)
    ensures ok <==> Consistent(list)
    ensures ok ==> IsEnvironmentOf(env, list)
  {
    env := map[];
    var current, next := 0, 1;
    while next < |list|
      invariant 0 <= current < next <= |list|
      invariant IsEnvironmentOf(env, list[..current])
      invariant list[current].name !in env
      invariant IsEnvironmentOf(env[list[current].name := list[current].value], list[..next])
      invariant list[next - 1] == list[current]
    {
      assert list[..next + 1] == list[..next] + [list[next]];
      if list[current].name == list[next].name {
        if list[current].value != list[next].value {
          return false, env;
        }
        EnvironmentRepeats(env[list[current].name := list[current].value], list[..next], list[next]);
      } else {
        NameIsNew(list, next);
        env := env[list[current].name := list[current].value];
        NotInEnvironment(env, list, next);
        EnvironmentGrows(env, list[..next], list[next]);
        current := next;
      }
      next := next + 1;
    }
    env := env[list[current].name := list[current].value];
    assert list[..next] == list;
    EnvironmentMeansConsistent(env, list);
    return true, env;
  }

  lemma NotInEnvironment(env: Environment, list: seq<Pair>, k: nat)
    requires k < |list| && IsEnvironmentOf(env, list[..k])
    requires forall j :: 0 <= j < k ==> list[j].name != list[k].name
    ensures list[k].name !in env
  {
    var name := list[k].name;
    var value := if name in env then env[name] else [];
    assert Pair(name, value) !in list[..k];
  }

  /** The meaning of a parameter stream: acceptable streams are empty or decode
      to pairs that do not contradict each other. */
  predicate Acceptable(params: seq<byte>) {
    params == [] || (Decode(params).Some? && Consistent(Decode(params).value))
  }

  method ProcessParams(params: seq<byte>, sizeMax: nat) returns (ok: bool, env: Environment)
    requires |params| + 2 * FOUR_BYTE_MAX <= sizeMax
    ensures ok <==> Acceptable(params)
    ensures ok ==> IsEnvironmentOf(env, Decode(params).value)
  {
    env := map[];
    if |params| > 0 {
      var list := ExtractBinaryNameValuePairs(params, sizeMax);
      if |list| > 0 {
        var sorted := Sort(list);
        SortingKeepsPairs(sorted, list);
        assert |sorted| > 0 by { assert list[0] in sorted; }
        ok, env := BuildEnvironment(sorted);
        return;
      }
      return false, env;
    }
    return true, env;
  }

  /** A client that sends pairs in any order, and some of them again, is treated
      alike and gives the application the same variables. */
  lemma OrderAndRepetitionDoNotMatter(ps: seq<Pair>, qs: seq<Pair>, env: Environment, other: Environment)
    requires AllEncodable(ps) && AllEncodable(qs) && forall p :: p in ps <==> p in qs
    ensures Acceptable(EncodeAll(ps)) <==> Acceptable(EncodeAll(qs))
    ensures Acceptable(EncodeAll(ps)) <==> Consistent(ps)
    ensures Decode(EncodeAll(ps)) == Some(ps) && Decode(EncodeAll(qs)) == Some(qs)
    ensures IsEnvironmentOf(env, ps) && IsEnvironmentOf(other, qs) ==> env == other
  {
    DecodeEncoded(ps);
    DecodeEncoded(qs);
    if Consistent(ps) {
      SamePairs(ps, qs);
    }
    if Consistent(qs) {
      SamePairs(qs, ps);
    }
    if IsEnvironmentOf(env, ps) && IsEnvironmentOf(other, qs) {
      EnvironmentIsUnique(env, other, ps, qs);
    }
  }
}
