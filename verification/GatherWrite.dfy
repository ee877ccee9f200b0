/** Resumption of a gather-write: ScatterGatherHelper trims the array of iovecs
    in place after a partial write, ScatterGatherSocketWrite repeats writev. */
module GatherWrite {
  import opened Bytes
  import opened Common

  /** A range of the caller's memory. */
  datatype Iovec = Iovec(base: nat, len: nat)

  predicate InMemory(v: Iovec, memory: seq<byte>) {
    v.base + v.len <= |memory|
  }

  predicate AllInMemory(vs: seq<Iovec>, memory: seq<byte>) {
    forall k :: 0 <= k < |vs| ==> InMemory(vs[k], memory)
  }

  function Total(vs: seq<Iovec>): nat {
    if vs == [] then 0 else vs[0].len + Total(vs[1..])
  }

  /** The bytes that writev takes from the array, in order. */
  function Gathered(vs: seq<Iovec>, memory: seq<byte>): (s: seq<byte>)
    requires AllInMemory(vs, memory)
    ensures |s| == Total(vs)
  {
    if vs == [] then [] else memory[vs[0].base..vs[0].base + vs[0].len] + Gathered(vs[1..], memory)
  }

  /** The entries before the k-th hold `before` bytes, all of them written, and
      the k-th and later ones hold the rest. */
  ghost predicate Skipped(vs: seq<Iovec>, memory: seq<byte>, written: nat, k: nat, before: int)
    requires AllInMemory(vs, memory)
  {
    && k < |vs| && AllInMemory(vs[k..], memory)
    && 0 <= before <= written < before + Total(vs[k..]) && written <= Total(vs)
    && Gathered(vs[k..], memory)[written - before..] == Gathered(vs, memory)[written..]
  }

  lemma SkippedNone(vs: seq<Iovec>, memory: seq<byte>, written: nat)
    requires AllInMemory(vs, memory) && written < Total(vs)
    ensures vs != [] && Skipped(vs, memory, written, 0, 0)
  {
    assert vs[0..] == vs;
  }

  lemma SkipOne(vs: seq<Iovec>, memory: seq<byte>, written: nat, k: nat, before: int)
    requires AllInMemory(vs, memory) && Skipped(vs, memory, written, k, before)
    requires before + vs[k].len <= written
    ensures k + 1 < |vs| && Skipped(vs, memory, written, k + 1, before + vs[k].len)
  {
    assert vs[k..][1..] == vs[k + 1..];
    var head, tail := memory[vs[k].base..vs[k].base + vs[k].len], Gathered(vs[k + 1..], memory);
    assert Gathered(vs[k..], memory) == head + tail;
    assert (head + tail)[written - before..] == tail[written - before - |head|..];
  }

  /** The array from the k-th entry on, without the first `offset` bytes. */
  function Trimmed(vs: seq<Iovec>, k: nat, offset: nat): seq<Iovec>
    requires k < |vs| && offset <= vs[k].len
  {
    [Iovec(vs[k].base + offset, vs[k].len - offset)] + vs[k + 1..]
  }

  lemma TrimOne(vs: seq<Iovec>, memory: seq<byte>, written: nat, k: nat, before: int)
    requires AllInMemory(vs, memory) && Skipped(vs, memory, written, k, before)
    requires before + vs[k].len > written
    ensures var t := Trimmed(vs, k, written - before);
            AllInMemory(t, memory) && Gathered(t, memory) == Gathered(vs, memory)[written..]
  {
    var offset := written - before;
    var t := Trimmed(vs, k, offset);
    assert t[1..] == vs[k + 1..] == vs[k..][1..];
    var head, tail := memory[vs[k].base..vs[k].base + vs[k].len], Gathered(vs[k + 1..], memory);
    assert Gathered(vs[k..], memory) == head + tail;
    assert head[offset..] == memory[t[0].base..t[0].base + t[0].len];
    assert (head + tail)[offset..] == head[offset..] + tail;
  }

  /** The loop that passes over the entries which were written completely. */
  method FindUnfinished(written: nat, iov: array<Iovec>, start: nat, count: nat, ghost memory: seq<byte>)
    returns (newStart: nat, newCount: nat, runningTotal: nat)
    requires start + count <= iov.Length && AllInMemory(iov[start..start + count], memory)
    requires written < Total(iov[start..start + count])
    ensures start <= newStart < newStart + newCount == start + count
    ensures Skipped(iov[start..start + count], memory, written, newStart - start, runningTotal - iov[newStart].len)
    ensures runningTotal > written
  {
    hide Gathered, Skipped, Total, AllInMemory;
    ghost var vs := iov[start..start + count];
    SkippedNone(vs, memory, written);
    newStart, newCount := start, count;
    runningTotal := iov[newStart].len;
    while runningTotal <= written
      invariant start <= newStart < newStart + newCount == start + count
      invariant Skipped(vs, memory, written, newStart - start, runningTotal - iov[newStart].len)
      decreases newCount
    {
      SkipOne(vs, memory, written, newStart - start, runningTotal - iov[newStart].len);
      newStart := newStart + 1;
      runningTotal := runningTotal + iov[newStart].len;
      newCount := newCount - 1;
    }
  }

  /** Called after `written` bytes, fewer than all, were written. It never leaves
      the array, and what the trimmed array describes is exactly what remains. */
  method ScatterGatherHelper(written: nat, iov: array<Iovec>, start: nat, count: nat, ghost memory: seq<byte>)
    returns (newStart: nat, newCount: nat)
    requires start + count <= iov.Length && AllInMemory(iov[start..start + count], memory)
    requires written < Total(iov[start..start + count])
    modifies iov
    ensures start <= newStart < newStart + newCount == start + count
    ensures AllInMemory(iov[newStart..newStart + newCount], memory)
    ensures Gathered(iov[newStart..newStart + newCount], memory) ==
            Gathered(old(iov[start..start + count]), memory)[written..]
    ensures iov[newStart].len > 0
    ensures forall k :: 0 <= k < iov.Length && k != newStart ==> iov[k] == old(iov[k])
  {
    hide Gathered, Total, AllInMemory;
    ghost var end := start + count;
    ghost var vs := iov[start..end];
    var runningTotal;
    newStart, newCount, runningTotal := FindUnfinished(written, iov, start, count, memory);
    var newLength := runningTotal - written;
    var offset := iov[newStart].len - newLength;
    TrimOne(vs, memory, written, newStart - start, runningTotal - iov[newStart].len);
    iov[newStart] := Iovec(iov[newStart].base + offset, newLength);
    assert iov[newStart..end] == Trimmed(vs, newStart - start, offset);
  }

  // ------------------------------------------------------------------
  // The write loop

  /** Results of writev; a count is at most the number of bytes offered. */
  datatype WriteResult = Wrote(n: nat) | Interrupted | WouldBlock | Failed

  datatype SelectResult = ReadyOrTimedOut | SelectInterrupted | SelectFailed

  /** How the loop ended: all bytes sent, an error of writev or select, or the
      results given to the model were used up. */
  datatype Ending = Complete | Error(blocked: bool) | Pending

  /** How many of `number` bytes these results of writev transfer. */
  function Transferred(ws: seq<WriteResult>, number: nat): (n: nat)
    ensures n <= number
  {
    if ws == [] then 0
    else
      var before := Transferred(ws[..|ws| - 1], number);
      match ws[|ws| - 1]
      case Wrote(n) => Min(before + n, number)
      case _ => before
  }

  /** How often writev would have blocked. */
  function Waits(ws: seq<WriteResult>): nat {
    if ws == [] then 0 else Waits(ws[..|ws| - 1]) + if ws[|ws| - 1].WouldBlock? then 1 else 0
  }

  /** How often select came back other than by an interruption. */
  function Answers(ss: seq<SelectResult>): nat {
    if ss == [] then 0 else Answers(ss[..|ss| - 1]) + if ss[|ss| - 1].SelectInterrupted? then 0 else 1
  }

  lemma OneMoreWrite(ws: seq<WriteResult>, w: nat, number: nat)
    requires w < |ws|
    ensures Waits(ws[..w + 1]) == Waits(ws[..w]) + if ws[w].WouldBlock? then 1 else 0
    ensures Transferred(ws[..w + 1], number) ==
            if ws[w].Wrote? then Min(Transferred(ws[..w], number) + ws[w].n, number) else Transferred(ws[..w], number)
  {
    assert ws[..w + 1][..w] == ws[..w];
  }

  lemma OneMoreSelect(ss: seq<SelectResult>, k: nat)
    requires k < |ss|
    ensures Answers(ss[..k + 1]) == Answers(ss[..k]) + if ss[k].SelectInterrupted? then 0 else 1
  {
    assert ss[..k + 1][..k] == ss[..k];
  }

  /** The inner loop around select: false when select failed. */
  method AwaitReady(selects: seq<SelectResult>, at: nat) returns (ended: bool, ready: bool, next: nat)
    requires at <= |selects|
    ensures at <= next <= |selects|
    ensures ended ==> at < next && selects[next - 1] != SelectInterrupted
    ensures ended ==> (ready <==> selects[next - 1] == ReadyOrTimedOut)
    ensures !ended ==> next == |selects|
    ensures forall k :: at <= k < next - (if ended then 1 else 0) ==> selects[k] == SelectInterrupted
    ensures Answers(selects[..next]) == Answers(selects[..at]) + if ended then 1 else 0
  {
    ended, ready, next := false, true, at;
    while next < |selects| && !ended
      invariant at <= next <= |selects|
      invariant forall k :: at <= k < next - (if ended then 1 else 0) ==> selects[k] == SelectInterrupted
      invariant ended ==> at < next && selects[next - 1] != SelectInterrupted
      invariant !ended ==> ready
      invariant ended ==> (ready <==> selects[next - 1] == ReadyOrTimedOut)
      invariant Answers(selects[..next]) == Answers(selects[..at]) + if ended then 1 else 0
    {
      OneMoreSelect(selects, next);
      if selects[next] == SelectFailed {
        ready := false;
      }
      ended := selects[next] != SelectInterrupted;
      next := next + 1;
    }
  }

  /** `sent` was written, `remaining` bytes were not, and unless that is nothing
      `vs` describes them. */
  ghost predicate Progress(vs: seq<Iovec>, memory: seq<byte>, sent: seq<byte>, remaining: nat, whole: seq<byte>) {
    && AllInMemory(vs, memory) && |sent| + remaining == |whole|
    && (remaining > 0 ==> sent + Gathered(vs, memory) == whole)
    && (remaining == 0 ==> sent == whole)
  }

  lemma SendPart(vs: seq<Iovec>, memory: seq<byte>, sent: seq<byte>, remaining: nat, whole: seq<byte>,
                 n: nat, ws: seq<Iovec>)
    requires Progress(vs, memory, sent, remaining, whole) && n < remaining
    requires AllInMemory(ws, memory) && Gathered(ws, memory) == Gathered(vs, memory)[n..]
    ensures Progress(ws, memory, sent + Gathered(vs, memory)[..n], remaining - n, whole)
  {
    var rest := Gathered(vs, memory);
    assert rest == rest[..n] + rest[n..];
    assert sent + rest[..n] + rest[n..] == sent + (rest[..n] + rest[n..]);
  }

  lemma SendRest(vs: seq<Iovec>, memory: seq<byte>, sent: seq<byte>, remaining: nat, whole: seq<byte>)
    requires Progress(vs, memory, sent, remaining, whole) && remaining > 0
    ensures Total(vs) == remaining
    ensures Progress(vs, memory, sent + Gathered(vs, memory)[..remaining], 0, whole)
  {
    assert |whole| == |sent| + Total(vs);
    assert Gathered(vs, memory)[..remaining] == Gathered(vs, memory);
  }

  /** What the system takes when writev returns `n`. */
  function Taken(iov: array<Iovec>, start: nat, count: nat, memory: seq<byte>, n: nat): seq<byte>
    reads iov
    requires start + count <= iov.Length && AllInMemory(iov[start..start + count], memory)
    requires n <= Total(iov[start..start + count])
  {
    Gathered(iov[start..start + count], memory)[..n]
  }

  /** The turn for a result of writev that is not an error. */
  method TakeWritten(n0: nat, iov: array<Iovec>, start0: nat, count0: nat, remaining0: nat, ghost sent: seq<byte>,
                     memory: seq<byte>, ghost whole: seq<byte>)
    returns (start: nat, count: nat, remaining: nat, taken: seq<byte>)
    requires start0 + count0 <= iov.Length && remaining0 > 0
    requires Progress(iov[start0..start0 + count0], memory, sent, remaining0, whole)
    modifies iov
    ensures start0 <= start && start + count == start0 + count0
    ensures Progress(iov[start..start + count], memory, sent + taken, remaining, whole)
    ensures |taken| == Min(n0, remaining0)
    ensures forall k :: 0 <= k < iov.Length && !(start0 <= k < start0 + count0) ==> iov[k] == old(iov[k])
  {
    var n := Min(n0, remaining0);
    ghost var vs := iov[start0..start0 + count0];
    SendRest(vs, memory, sent, remaining0, whole);
    taken := Taken(iov, start0, count0, memory, n);
    start, count, remaining := start0, count0, remaining0 - n;
    if remaining > 0 {
      start, count := ScatterGatherHelper(n, iov, start0, count0, memory);
      SendPart(vs, memory, sent, remaining0, whole, n, iov[start..start + count]);
    }
  }

  /** Results after which the loop goes on. */
  predicate GoesOn(r: WriteResult, waitOnSelect: bool) {
    !r.Failed? && (r.WouldBlock? ==> waitOnSelect)
  }

  /** The last wait has not come to an end. */
  predicate StillWaiting(ws: seq<WriteResult>, ss: seq<SelectResult>, waitOnSelect: bool) {
    ws != [] && ws[|ws| - 1].WouldBlock? && waitOnSelect && Waits(ws) == Answers(ss) + 1
  }

  /** The loop used these results, all but perhaps the last of them results after
      which it goes on, and called writev only while bytes remained. Every time
      that writev would block is waited for. */
  predicate Followed(ws: seq<WriteResult>, ss: seq<SelectResult>, waitOnSelect: bool, number: nat) {
    && (forall k :: 0 <= k < |ws| - 1 ==> GoesOn(ws[k], waitOnSelect))
    && (forall k :: 0 <= k < |ss| - 1 ==> !ss[k].SelectFailed?)
    && (ws != [] ==> Transferred(ws[..|ws| - 1], number) < number)
    && (!waitOnSelect ==> ss == [])
    && (waitOnSelect ==> Waits(ws) == Answers(ss) + if StillWaiting(ws, ss, waitOnSelect) then 1 else 0)
  }

  /** writev failed in the last result used. */
  predicate WriteFailed(ws: seq<WriteResult>) {
    ws != [] && ws[|ws| - 1].Failed?
  }

  /** It would block in the last result used, and there is no waiting for it or the
      last select failed. */
  predicate WaitFailed(ws: seq<WriteResult>, ss: seq<SelectResult>, waitOnSelect: bool) {
    && ws != [] && ws[|ws| - 1].WouldBlock?
    && (!waitOnSelect || (ss != [] && ss[|ss| - 1].SelectFailed?))
  }

  /** For every sequence of results: what was sent is a prefix of the original
      bytes, sent once and in order, as long as the results say; the array that is
      returned describes the rest; and nothing remains exactly when everything was
      sent. Otherwise the last result used is an error after which the call is not
      repeated, or there is no further result. */
  method ScatterGatherSocketWrite(iov: array<Iovec>, start0: nat, count0: nat, number: nat, waitOnSelect: bool,
                                  writes: seq<WriteResult>, selects: seq<SelectResult>, memory: seq<byte>)
    returns (start: nat, count: nat, remaining: nat, sent: seq<byte>, ending: Ending,
             ghost used: nat, ghost usedSelects: nat)
    requires start0 + count0 <= iov.Length && AllInMemory(iov[start0..start0 + count0], memory)
    requires number == Total(iov[start0..start0 + count0])
    modifies iov
    ensures start0 <= start && start + count == start0 + count0
    ensures AllInMemory(iov[start..start + count], memory)
    ensures |sent| + remaining == number
    ensures remaining > 0 ==>
              sent + Gathered(iov[start..start + count], memory) ==
              Gathered(old(iov[start0..start0 + count0]), memory)
    ensures remaining == 0 ==> sent == Gathered(old(iov[start0..start0 + count0]), memory)
    ensures used <= |writes| && usedSelects <= |selects|
    ensures |sent| == Transferred(writes[..used], number)
    ensures Followed(writes[..used], selects[..usedSelects], waitOnSelect, number)
    ensures ending.Complete? <==> remaining == 0
    ensures ending == Error(false) <==> WriteFailed(writes[..used])
    ensures ending == Error(true) <==> WaitFailed(writes[..used], selects[..usedSelects], waitOnSelect)
    ensures ending.Pending? ==>
              if StillWaiting(writes[..used], selects[..usedSelects], waitOnSelect) then usedSelects == |selects|
              else used == |writes|
    ensures StillWaiting(writes[..used], selects[..usedSelects], waitOnSelect) ==> ending.Pending?
    ensures forall k :: 0 <= k < iov.Length && !(start0 <= k < start0 + count0) ==> iov[k] == old(iov[k])
  {
    hide Gathered, Total, Transferred, Waits, Answers;
    ghost var end := start0 + count0;
    ghost var whole := Gathered(iov[start0..end], memory);
    start, count, remaining, sent := start0, count0, number, [];
    assert [] + whole == whole;
    NothingUsed(writes, selects, number);
    var w, s := 0, 0;
    used, usedSelects := 0, 0;
    while remaining > 0
      invariant start0 <= start && start + count == end && w <= |writes| && s <= |selects|
      invariant used == w && usedSelects == s
      invariant Progress(iov[start..end], memory, sent, remaining, whole)
      invariant forall k :: 0 <= k < iov.Length && !(start0 <= k < end) ==> iov[k] == old(iov[k])
      invariant |sent| == Transferred(writes[..w], number)
      invariant Followed(writes[..w], selects[..s], waitOnSelect, number)
      invariant w > 0 ==> GoesOn(writes[w - 1], waitOnSelect)
      invariant s > 0 ==> !selects[s - 1].SelectFailed?
      invariant waitOnSelect ==> Waits(writes[..w]) == Answers(selects[..s])
      decreases |writes| - w
    {
      if w == |writes| {
        return start, count, remaining, sent, Pending, w, s;
      }
      var result := writes[w];
      OneMoreWrite(writes, w, number);
      assert writes[..w + 1][..w] == writes[..w];
      w := w + 1;
      used := w;
      if result.Interrupted? {
        continue;
      } else if result.WouldBlock? {
        if !waitOnSelect {
          return start, count, remaining, sent, Error(true), w, s;
        }
        var ended, ready, next := AwaitReady(selects, s);
        s := next;
        usedSelects := s;
        if !ended {
          return start, count, remaining, sent, Pending, w, s;
        }
        if !ready {
          return start, count, remaining, sent, Error(true), w, s;
        }
        continue;
      } else if result.Failed? {
        return start, count, remaining, sent, Error(false), w, s;
      }
      var taken;
      start, count, remaining, taken := TakeWritten(result.n, iov, start, count, remaining, sent, memory, whole);
      sent := sent + taken;
    }
    ending := Complete;
  }

  lemma NothingUsed(writes: seq<WriteResult>, selects: seq<SelectResult>, number: nat)
    ensures Transferred(writes[..0], number) == 0 && Waits(writes[..0]) == 0 && Answers(selects[..0]) == 0
  {
  }
}
