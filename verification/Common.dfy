/** Facts about numbers and sets that several modules need. */
module Common {

  function Min(a: nat, b: nat): nat {
    if a <= b then a else b
  }

  lemma Subset<T>(a: set<T>, b: set<T>)
    requires a <= b
    ensures |a| <= |b| && (|a| == |b| ==> a == b)
  {
    assert b == a + (b - a);
  }
}
