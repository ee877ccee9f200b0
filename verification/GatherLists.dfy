/** The arrays of struct iovec that the encoders build for writev. */
module GatherLists {
  import opened Bytes

  /** An iovec points either into the vector of headers, lengths and padding
      that the encoder returns with the list, or at bytes of the caller. */
  datatype Slice = Local(start: nat, len: nat) | Data(bytes: seq<byte>)

  predicate InLocal(v: Slice, local: seq<byte>) {
    v.Local? ==> v.start + v.len <= |local|
  }

  predicate AllInLocal(vs: seq<Slice>, local: seq<byte>) {
    forall k :: 0 <= k < |vs| ==> InLocal(vs[k], local)
  }

  function Length(v: Slice): nat {
    if v.Local? then v.len else |v.bytes|
  }

  function TotalLength(vs: seq<Slice>): nat {
    if vs == [] then 0 else TotalLength(vs[..|vs| - 1]) + Length(vs[|vs| - 1])
  }

  function Pointed(v: Slice, local: seq<byte>): (s: seq<byte>)
    requires InLocal(v, local)
    ensures |s| == Length(v)
  {
    if v.Local? then local[v.start..v.start + v.len] else v.bytes
  }

  /** The bytes that a gather-write of the list sends. */
  function Gather(vs: seq<Slice>, local: seq<byte>): (s: seq<byte>)
    requires AllInLocal(vs, local)
    ensures |s| == TotalLength(vs)
  {
    if vs == [] then [] else Gather(vs[..|vs| - 1], local) + Pointed(vs[|vs| - 1], local)
  }

  lemma GatherOne(vs: seq<Slice>, local: seq<byte>, v: Slice)
    requires AllInLocal(vs, local) && InLocal(v, local)
    ensures AllInLocal(vs + [v], local)
    ensures Gather(vs + [v], local) == Gather(vs, local) + Pointed(v, local)
    ensures TotalLength(vs + [v]) == TotalLength(vs) + Length(v)
  {
    assert (vs + [v])[..|vs|] == vs;
  }

  /** Only the bytes that are pointed at matter. */
  lemma {:induction false} GatherFrame(vs: seq<Slice>, local: seq<byte>, changed: seq<byte>)
    requires AllInLocal(vs, local) && AllInLocal(vs, changed)
    requires forall k :: 0 <= k < |vs| ==> Pointed(vs[k], local) == Pointed(vs[k], changed)
    ensures Gather(vs, changed) == Gather(vs, local)
  {
    if vs != [] {
      GatherFrame(vs[..|vs| - 1], local, changed);
    }
  }

  /** Appending to the vector moves nothing that is already in it. */
  lemma GatherExtended(vs: seq<Slice>, local: seq<byte>, more: seq<byte>)
    requires AllInLocal(vs, local)
    ensures AllInLocal(vs, local + more)
    ensures Gather(vs, local + more) == Gather(vs, local)
  {
    forall k | 0 <= k < |vs| ensures Pointed(vs[k], local) == Pointed(vs[k], local + more) {
      if vs[k].Local? {
        assert local[vs[k].start..vs[k].start + vs[k].len] ==
               (local + more)[vs[k].start..vs[k].start + vs[k].len];
      }
    }
    GatherFrame(vs, local, local + more);
  }

  lemma {:induction false} GatherSplit(vs: seq<Slice>, ws: seq<Slice>, local: seq<byte>)
    requires AllInLocal(vs, local) && AllInLocal(ws, local)
    ensures AllInLocal(vs + ws, local)
    ensures Gather(vs + ws, local) == Gather(vs, local) + Gather(ws, local)
    decreases |ws|
  {
    if ws == [] {
      assert vs + ws == vs;
      assert Gather(vs, local) + [] == Gather(vs, local);
    } else {
      hide Gather;
      var init, last := ws[..|ws| - 1], ws[|ws| - 1];
      GatherSplit(vs, init, local);
      GatherOne(vs + init, local, last);
      GatherOne(init, local, last);
      InitLast(vs, ws);
      Associate(Gather(vs, local), Gather(init, local), Pointed(last, local));
    }
  }

  lemma InitLast(vs: seq<Slice>, ws: seq<Slice>)
    requires ws != []
    ensures ws[..|ws| - 1] + [ws[|ws| - 1]] == ws
    ensures (vs + ws[..|ws| - 1]) + [ws[|ws| - 1]] == vs + ws
  {
  }

  lemma GatherAround(vs: seq<Slice>, a: nat, local: seq<byte>)
    requires AllInLocal(vs, local) && a < |vs|
    ensures Gather(vs, local) == Gather(vs[..a], local) + Pointed(vs[a], local) + Gather(vs[a + 1..], local)
  {
    var before, after := vs[..a], vs[a + 1..];
    GatherOne(before, local, vs[a]);
    assert vs == (before + [vs[a]]) + after;
    GatherSplit(before + [vs[a]], after, local);
  }

  lemma Associate(a: seq<byte>, b: seq<byte>, c: seq<byte>)
    ensures a + b + c == a + (b + c)
  {
  }

  /** The region does not overlap the eight bytes at `h`. */
  predicate Elsewhere(v: Slice, h: nat) {
    v.Local? ==> v.start + v.len <= h || v.start >= h + 8
  }

  predicate AllElsewhere(vs: seq<Slice>, h: nat) {
    forall k :: 0 <= k < |vs| ==> Elsewhere(vs[k], h)
  }

  /** `changed` differs from `local` at most in the eight bytes at `h`. */
  predicate SameBut(local: seq<byte>, changed: seq<byte>, h: nat) {
    |local| == |changed| && h + 8 <= |local| && local[..h] == changed[..h] && local[h + 8..] == changed[h + 8..]
  }

  lemma PointedElsewhere(v: Slice, local: seq<byte>, changed: seq<byte>, h: nat)
    requires SameBut(local, changed, h) && InLocal(v, local) && Elsewhere(v, h)
    ensures InLocal(v, changed) && Pointed(v, changed) == Pointed(v, local)
  {
    if v.Local? {
      forall k | v.start <= k < v.start + v.len ensures local[k] == changed[k] {
        if k < h {
          assert local[..h][k] == changed[..h][k];
        } else {
          assert local[h + 8..][k - h - 8] == changed[h + 8..][k - h - 8];
        }
      }
    }
  }

  lemma GatherElsewhere(vs: seq<Slice>, local: seq<byte>, changed: seq<byte>, h: nat)
    requires SameBut(local, changed, h) && AllInLocal(vs, local) && AllElsewhere(vs, h)
    ensures AllInLocal(vs, changed) && Gather(vs, changed) == Gather(vs, local)
  {
    forall k | 0 <= k < |vs| ensures Pointed(vs[k], local) == Pointed(vs[k], changed) {
      PointedElsewhere(vs[k], local, changed, h);
    }
    GatherFrame(vs, local, changed);
  }
}
