/**
 Chunked writing (client.cc, _pwrite).  A chunk is handed over as a C string, so what goes
 out is decided by where the first NUL is; a NUL is taken to stand behind the buffer.
 */
module FileWrite {
  import opened Bytes
  import opened Wire
  import opened Directory
  import opened FileIO

  predicate NulFree(s: seq<byte>) { forall i :: 0 <= i < |s| ==> s[i] != 0 }

  /** The C string that starts at `at`: up to the first NUL, or to the end of the buffer. */
  function CString(mem: seq<byte>, at: nat): (s: seq<byte>)
    requires at <= |mem|
    ensures at + |s| <= |mem| && s == mem[at..at + |s|] && NulFree(s)
    ensures at + |s| < |mem| ==> mem[at + |s|] == 0
    decreases |mem| - at
  {
    if at == |mem| || mem[at] == 0 then [] else [mem[at]] + CString(mem, at + 1)
  }

  lemma {:induction false} ReachesFirstNul(mem: seq<byte>, at: nat, n: nat)
    requires at + n <= |mem|
    ensures |CString(mem, at)| >= n <==> NulFree(mem[at..at + n])
    decreases n
  {
    if n > 0 {
      var here, rest := mem[at..at + n], mem[at + 1..at + n];
      assert here == [mem[at]] + rest;
      if mem[at] != 0 {
        ReachesFirstNul(mem, at + 1, n - 1);
        assert forall i :: 0 <= i < n - 1 ==> rest[i] == here[i + 1];
      }
    }
  }

  /** What may go out as the `n` bytes at `at`: the string, with leftovers of the message buffer behind it. */
  ghost predicate Chunk(p: seq<byte>, mem: seq<byte>, at: nat, n: nat)
    requires at <= |mem|
  {
    exists stale: seq<byte> :: |stale| == n && p == Payload(CString(mem, at), n, stale)
  }

  /** The chunk that goes out is the one that was meant, whatever was left in the buffer, exactly when it has no NUL. */
  lemma ChunkExactly(mem: seq<byte>, at: nat, n: nat)
    requires at + n <= |mem|
    ensures (forall p :: Chunk(p, mem, at, n) ==> p == mem[at..at + n]) <==> NulFree(mem[at..at + n])
  {
    var s := CString(mem, at);
    ReachesFirstNul(mem, at, n);
    if |s| >= n {
      assert s[..n] == mem[at..at + n];
    } else {
      var stale: seq<byte> := seq(n, j => 1);
      var p := Payload(s, n, stale);
      assert Chunk(p, mem, at, n) && p[|s|] == 1;
      assert mem[at..at + n][|s|] == 0;
    }
  }

  // ----- what was sent

  /** The bytes the answers accepted. */
  function Taken(ds: seq<Delivery>): nat {
    if ds == [] then 0
    else
      var last := ds[|ds| - 1];
      Taken(ds[..|ds| - 1]) + if last.reply.Accepted? then last.reply.n else 0
  }

  /** Each delivery is the chunk after what was accepted so far, to the offset after it; one goes out in any case. */
  ghost predicate Placed(ds: seq<Delivery>, mem: seq<byte>, offset: nat, count: nat, unit: nat)
    requires count <= |mem|
  {
    forall k :: 0 <= k < |ds| ==>
      var t := Taken(ds[..k]);
      && (k > 0 ==> t < count) && t <= count
      && ds[k].offset == offset + t
      && |ds[k].payload| == Min(count - t, unit)
      && Chunk(ds[k].payload, mem, t, Min(count - t, unit))
  }

  predicate CutShort(d: Delivery) { d.reply.Accepted? && d.reply.n < |d.payload| }

  predicate Lost(d: Delivery) { d.reply.NoAnswer? }

  /** Nothing lost or cut before the last delivery. */
  ghost predicate OnlyLastCut(ds: seq<Delivery>) {
    ds != [] && forall k :: 0 <= k < |ds| - 1 ==> !Lost(ds[k]) && !CutShort(ds[k])
  }

  lemma {:induction false} TakenSnoc(ds: seq<Delivery>, d: Delivery)
    ensures Taken(ds + [d]) == Taken(ds) + if d.reply.Accepted? then d.reply.n else 0
  {
    assert (ds + [d])[..|ds|] == ds;
  }

  lemma PlacedSnoc(ds: seq<Delivery>, d: Delivery, mem: seq<byte>, offset: nat, count: nat, unit: nat)
    requires count <= |mem| && Placed(ds, mem, offset, count, unit)
    requires ds == [] || Taken(ds) < count
    requires d.offset == offset + Taken(ds) && |d.payload| == Min(count - Taken(ds), unit)
    requires Chunk(d.payload, mem, Taken(ds), Min(count - Taken(ds), unit))
    ensures Placed(ds + [d], mem, offset, count, unit)
  {
    hide Chunk, Taken;
    NothingTaken();
    forall k | 0 <= k <= |ds|
      ensures (ds + [d])[..k] == ds[..k]
    {
    }
    assert ds[..|ds|] == ds;
  }

  lemma NothingTaken()
    ensures Taken([]) == 0
  {
  }

  /**
   _pwrite: at least one request, even for no bytes.  The answer is not compared with what
   was sent, so a server may claim to have taken more.  The running total is an int.
   */
  method PWrite(r: Remote, mem: seq<byte>, count: nat, offset: nat, iounit: nat)
    returns (res: int, ghost ds: seq<Delivery>)
    requires count <= |mem| && count < 0x8000_0000 && iounit < 0x8000_0000 && (iounit > 0 || count == 0)
    modifies r`backend, r`sent
    ensures r.sent == old(r.sent) + ds
    ensures Placed(ds, mem, offset, count, iounit) && OnlyLastCut(ds)
    ensures res == -1 <==> Lost(ds[|ds| - 1])
    ensures res != -1 ==> res == Taken(ds)
    ensures 0 <= res < count ==> CutShort(ds[|ds| - 1])
  {
    hide Placed, Taken, Chunk, CString, Ask;
    ds := [];
    var len: nat := 0;
    var off := offset;
    NothingTaken();
    NothingPlaced(mem, offset, count, iounit);
    while true
      invariant off == offset + len && len == Taken(ds) && (ds == [] || len < count) && len <= count
      invariant r.sent == old(r.sent) + ds
      invariant Placed(ds, mem, offset, count, iounit)
      invariant forall k :: 0 <= k < |ds| ==> !Lost(ds[k]) && !CutShort(ds[k])
      decreases count - len, |ds| == 0
    {
      var n := Ask(count - len, iounit);
      AskWraps(count - len, iounit);
      var data := CString(mem, len);
      var stale: seq<byte> := *;
      if |stale| != n {
        stale := Window(stale, 0, n);
      }
      var payload := Payload(data, n, stale);
      AnyChunk(mem, len, n, stale);
      var reply := r.Write(off, payload);
      ghost var d := Sent(off, payload, reply);
      PlacedSnoc(ds, d, mem, offset, count, iounit);
      TakenSnoc(ds, d);
      ds := ds + [d];
      if reply.NoAnswer? {
        return -1, ds;
      }
      off := off + reply.n;
      len := len + reply.n;
      if reply.n < n || len >= count {
        break;
      }
    }
    res := len;
  }

  lemma AnyChunk(mem: seq<byte>, at: nat, n: nat, stale: seq<byte>)
    requires at <= |mem| && |stale| == n
    ensures Chunk(Payload(CString(mem, at), n, stale), mem, at, n)
  {
  }

  lemma NothingPlaced(mem: seq<byte>, offset: nat, count: nat, unit: nat)
    requires count <= |mem|
    ensures Placed([], mem, offset, count, unit)
  {
  }

  /** Each delivery was accepted in full. */
  predicate Kept(ds: seq<Delivery>) {
    forall k :: 0 <= k < |ds| ==> ds[k].reply == Accepted(|ds[k].payload|)
  }

  /** A write can be completed by full answers exactly when the iounit is not 0 or there is nothing to write. */
  lemma WriteCompletesExactly(mem: seq<byte>, offset: nat, count: nat, unit: nat)
    requires count <= |mem|
    ensures (unit > 0 || count == 0) <==>
              exists ds :: ds != [] && Placed(ds, mem, offset, count, unit) && Kept(ds) && Taken(ds) == count
    ensures unit == 0 ==> forall ds :: Placed(ds, mem, offset, count, unit) && Kept(ds) ==> Taken(ds) == 0
  {
    hide Placed, Taken, Kept;
    if unit > 0 || count == 0 {
      NothingPlaced(mem, offset, count, unit);
      NothingTaken();
      NothingKept();
      var ds := FullWrite([], mem, offset, count, unit);
    }
    if unit == 0 {
      forall ds | Placed(ds, mem, offset, count, unit) && Kept(ds)
        ensures Taken(ds) == 0
      {
        NothingGoesOut(ds, mem, offset, count);
      }
    }
  }

  lemma NothingKept()
    ensures Kept([])
  {
  }

  lemma {:induction false} NothingGoesOut(ds: seq<Delivery>, mem: seq<byte>, offset: nat, count: nat)
    requires count <= |mem| && Placed(ds, mem, offset, count, 0) && Kept(ds)
    ensures Taken(ds) == 0
  {
    hide Chunk;
    if ds != [] {
      FrontPlaced(ds, mem, offset, count, 0);
      NothingGoesOut(ds[..|ds| - 1], mem, offset, count);
    }
  }

  lemma FullWrite(ds: seq<Delivery>, mem: seq<byte>, offset: nat, count: nat, unit: nat) returns (all: seq<Delivery>)
    requires count <= |mem| && Placed(ds, mem, offset, count, unit) && Kept(ds) && (unit > 0 || count == 0)
    requires Taken(ds) <= count && (ds == [] || Taken(ds) < count)
    ensures all != [] && Placed(all, mem, offset, count, unit) && Kept(all) && Taken(all) == count
    decreases count - Taken(ds), |ds| == 0
  {
    hide Placed, Taken, Chunk, CString;
    var t := Taken(ds);
    var n := Min(count - t, unit);
    var p := Payload(CString(mem, t), n, Window([], 0, n));
    AnyChunk(mem, t, n, Window([], 0, n));
    var d := Sent(offset + t, p, Accepted(n));
    PlacedSnoc(ds, d, mem, offset, count, unit);
    TakenSnoc(ds, d);
    if t + n < count {
      all := FullWrite(ds + [d], mem, offset, count, unit);
    } else {
      all := ds + [d];
    }
  }

  // ----- what is stored

  /** A file with `d` at `offset`; a gap before it is zero. */
  function WriteAt(file: seq<byte>, offset: nat, d: seq<byte>): (f: seq<byte>)
    ensures |f| == if d == [] || offset + |d| < |file| then |file| else offset + |d|
  {
    if d == [] then file
    else Window(file, 0, offset) + d + if offset + |d| < |file| then file[offset + |d|..] else []
  }

  /** The server keeps what it says it accepted. */
  function Stored(file: seq<byte>, ds: seq<Delivery>): seq<byte> {
    if ds == [] then file
    else
      var last := ds[|ds| - 1];
      var before := Stored(file, ds[..|ds| - 1]);
      if last.reply.Accepted? && last.reply.n <= |last.payload| then
        WriteAt(before, last.offset, last.payload[..last.reply.n])
      else before
  }

  /** No more is accepted than was sent. */
  predicate Honest(d: Delivery) { d.reply.Accepted? ==> d.reply.n <= |d.payload| }

  /** Where each byte of a written file comes from. */
  lemma WrittenAt(file: seq<byte>, offset: nat, d: seq<byte>, i: nat)
    requires d != [] && i < |WriteAt(file, offset, d)|
    ensures WriteAt(file, offset, d)[i]
            == if offset <= i < offset + |d| then d[i - offset] else if i < |file| then file[i] else 0
  {
  }

  lemma WritesJoin(file: seq<byte>, offset: nat, a: seq<byte>, b: seq<byte>)
    ensures WriteAt(WriteAt(file, offset, a), offset + |a|, b) == WriteAt(file, offset, a + b)
  {
    if a == [] {
      assert a + b == b;
    } else if b == [] {
      assert a + b == a;
    } else {
      hide WriteAt;
      var f, g := WriteAt(file, offset, a), WriteAt(file, offset, a + b);
      var h := WriteAt(f, offset + |a|, b);
      forall i | 0 <= i < |h|
        ensures h[i] == g[i]
      {
        WrittenAt(f, offset + |a|, b, i);
        WrittenAt(file, offset, a + b, i);
        if i < |f| {
          WrittenAt(file, offset, a, i);
        }
      }
    }
  }

  /**
   Against any server that stores a beginning of each chunk, writing data without NULs
   stores exactly the first bytes of it, as many as were reported, in one piece at the offset.
   */
  lemma {:induction false} PWriteExact(file: seq<byte>, ds: seq<Delivery>, mem: seq<byte>, offset: nat, count: nat,
                                       unit: nat)
    requires count <= |mem| && Placed(ds, mem, offset, count, unit) && NulFree(mem[..count])
    requires forall k :: 0 <= k < |ds| ==> Honest(ds[k])
    ensures Taken(ds) <= count
    ensures Stored(file, ds) == WriteAt(file, offset, mem[..Taken(ds)])
  {
    hide WriteAt, Chunk, Placed;
    if ds == [] {
      NothingWritten(file, offset, mem);
    } else {
      var n := |ds| - 1;
      var ds0, d := ds[..n], ds[n];
      FrontPlaced(ds, mem, offset, count, unit);
      PWriteExact(file, ds0, mem, offset, count, unit);
      if d.reply.Accepted? {
        var t, t' := Taken(ds0), Taken(ds0) + d.reply.n;
        ChunkPrefix(d, mem, t, count);
        WritesJoin(file, offset, mem[..t], mem[t..t']);
        assert mem[..t] + mem[t..t'] == mem[..t'];
      }
    }
  }

  lemma ChunkPrefix(d: Delivery, mem: seq<byte>, t: nat, count: nat)
    requires t + |d.payload| <= count <= |mem| && Chunk(d.payload, mem, t, |d.payload|) && NulFree(mem[..count])
    requires d.reply.Accepted? && Honest(d)
    ensures d.payload[..d.reply.n] == mem[t..t + d.reply.n]
  {
    hide Chunk;
    ChunkExactly(mem, t, |d.payload|);
    assert mem[..count][t..t + |d.payload|] == mem[t..t + |d.payload|];
  }

  /** Whatever a write reports, the stored file differs from the file before in the accepted range only. */
  lemma {:induction false} WritesOnly(file: seq<byte>, ds: seq<Delivery>, mem: seq<byte>, offset: nat, count: nat,
                                      unit: nat, i: nat)
    requires count <= |mem| && Placed(ds, mem, offset, count, unit)
    requires forall k :: 0 <= k < |ds| ==> Honest(ds[k])
    requires i < |file| && !(offset <= i < offset + Taken(ds))
    ensures i < |Stored(file, ds)| && Stored(file, ds)[i] == file[i]
    decreases |ds|
  {
    hide Placed, Chunk;
    if ds != [] {
      var ds0, d := ds[..|ds| - 1], ds[|ds| - 1];
      FrontPlaced(ds, mem, offset, count, unit);
      WritesOnly(file, ds0, mem, offset, count, unit, i);
      if d.reply.Accepted? && d.payload[..d.reply.n] != [] {
        WrittenAt(Stored(file, ds0), d.offset, d.payload[..d.reply.n], i);
      }
    }
  }

  lemma NothingWritten(file: seq<byte>, offset: nat, mem: seq<byte>)
    ensures WriteAt(file, offset, mem[..0]) == file
  {
  }

  lemma FrontPlaced(ds: seq<Delivery>, mem: seq<byte>, offset: nat, count: nat, unit: nat)
    requires ds != [] && count <= |mem| && Placed(ds, mem, offset, count, unit)
    ensures Placed(ds[..|ds| - 1], mem, offset, count, unit)
    ensures var t, d := Taken(ds[..|ds| - 1]), ds[|ds| - 1];
            t <= count && d.offset == offset + t && |d.payload| <= count - t && Chunk(d.payload, mem, t, |d.payload|)
  {
    hide Taken, Chunk;
    var ds0 := ds[..|ds| - 1];
    forall k | 0 <= k < |ds0|
      ensures ds0[..k] == ds[..k] && ds0[k] == ds[k]
    {
    }
  }

  /** What was written reads back: a later read of the stored range, in chunks of any size, returns the data. */
  lemma WriteThenRead(file: seq<byte>, ds: seq<Delivery>, mem: seq<byte>, offset: nat, count: nat, unit: nat,
                      es: seq<Exchange>, unit': nat)
    requires count <= |mem| && Placed(ds, mem, offset, count, unit) && NulFree(mem[..count])
    requires forall k :: 0 <= k < |ds| ==> Honest(ds[k])
    requires unit' < 0x8000_0000 && Complete(es, offset, Taken(ds), unit')
    requires forall k :: 0 <= k < |es| ==> Whole(Stored(file, ds), es[k])
    ensures Taken(ds) <= count && Gathered(es) == mem[..Taken(ds)]
  {
    hide Placed, Complete, Stored, Gathered, Whole, Taken;
    PWriteExact(file, ds, mem, offset, count, unit);
    PReadRefines(Stored(file, ds), es, offset, Taken(ds), unit');
    var d := mem[..Taken(ds)];
    assert d == Range(WriteAt(file, offset, d), offset, |d|);
  }
}
