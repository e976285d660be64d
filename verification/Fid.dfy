/** Open files on the client (CFid.h, client.cc): the stored offset and the request size. */
module Fid {
  import opened Bytes
  import opened Wire
  import opened WireProofs
  import opened Message
  import opened Transport
  import opened Stream
  import opened FileIO
  import opened FileWrite

  class CFid {
    var fid: u32
    var iounit: u32
    var offset: u32

    constructor (fid: u32)
      ensures this.fid == fid && iounit == 0 && offset == 0
    {
      this.fid, iounit, offset := fid, 0, 0;
    }

    /**
     The end of open and create: the server's iounit, clamped, and initfid.  Reads and writes
     then start at the front, a request of at most the iounit leaves its frame below the
     message size, an iounit that leaves room is kept, and it is never 0 above the reserve.
     */
    method Open(offered: u32, msize: u32)
      modifies this`iounit, this`offset
      ensures offset == 0
      ensures msize >= 24 <==> forall n: u32 :: n <= iounit ==> FrameLength(WriteOf(n)) < msize
      ensures 0 < offered && offered + 24 <= msize ==> iounit == offered
      ensures msize > 24 && !(0 < offered && offered + 24 <= msize) ==> FrameLength(WriteOf(iounit)) == msize - 1
      ensures 24 < msize <= 0x8000_0000 ==> 0 < iounit < 0x8000_0000
    {
      hide FrameLength;
      offset := 0;
      iounit := IoUnit(offered, msize);
      WritesAreLonger();
      assert FrameLength(WriteOf(0)) == 23;
    }

    /**
     CFid::read: the result is cut to an int, and only a positive one moves the offset, which
     is 32 bits wide.  So it follows the data only below 2^31 at once and 2^32 in all.
     */
    method Read(r: Remote, buf: array<byte>, count: nat) returns (n: int, ghost es: seq<Exchange>)
      requires count <= buf.Length && iounit < 0x8000_0000 && Completes(count, iounit)
      modifies this`offset, r`backend, r`asked, buf
      ensures r.asked == old(r.asked) + es
      ensures Ahead(old(r.backend), r.backend, es) && Paged(old(r.backend), es)
      ensures if Abandoned(es, old(offset), count, iounit) then n == -1 && offset == old(offset)
              else
                var g := Gathered(es);
                && Complete(es, old(offset), count, iounit) && buf[..] == g + old(buf[..])[|g|..]
                && (n == |g| <==> |g| < 0x8000_0000) && (n < 0 <==> |g| >= 0x8000_0000)
                && (offset == old(offset) + |g| <==> |g| < 0x8000_0000 && old(offset) + |g| < 0x1_0000_0000)
                && (n >= 0 ==> offset == (old(offset) + n) % 0x1_0000_0000)
                && (n < 0 ==> offset == old(offset))
    {
      hide Ahead, Paged, Abandoned, Complete, Gathered;
      var res;
      res, es := PRead(r, buf, count, offset, iounit);
      n := Int32(res);
      EndsOneWay(es, offset, count, iounit);
      if n > 0 {
        offset := (offset + n) % 0x1_0000_0000;
      }
    }

    /** CFid::write */
    method Write(r: Remote, mem: seq<byte>, count: nat) returns (n: int, ghost ds: seq<Delivery>)
      requires count <= |mem| && count < 0x8000_0000 && iounit < 0x8000_0000 && (iounit > 0 || count == 0)
      modifies this`offset, r`backend, r`sent
      ensures r.sent == old(r.sent) + ds
      ensures Placed(ds, mem, old(offset), count, iounit) && OnlyLastCut(ds)
      ensures n == -1 <==> Lost(ds[|ds| - 1])
      ensures n == -1 ==> offset == old(offset)
      ensures n != -1 ==> n == Taken(ds) && offset == (old(offset) + n) % 0x1_0000_0000
      ensures 0 <= n < count ==> CutShort(ds[|ds| - 1])
    {
      hide Placed, Taken;
      n, ds := PWrite(r, mem, count, offset, iounit);
      if n > 0 {
        offset := (offset + n) % 0x1_0000_0000;
      }
    }
  }

  // ----- one read after the other

  datatype Turn = Turn(offset: nat, count: nat, unit: nat, es: seq<Exchange>)

  /** Each read starts where the one before it stopped. */
  ghost predicate Successive(ts: seq<Turn>, offset: nat) {
    ts == [] || (ts[0].offset == offset && Successive(ts[1..], offset + |Gathered(ts[0].es)|))
  }

  function AllGathered(ts: seq<Turn>): seq<byte> {
    if ts == [] then [] else Gathered(ts[0].es) + AllGathered(ts[1..])
  }

  /** However many reads and of whatever sizes: what they return joins to one contiguous range of the file. */
  lemma {:induction false} SuccessiveReads(file: seq<byte>, ts: seq<Turn>, offset: nat)
    requires Successive(ts, offset)
    requires forall t :: t in ts ==> t.unit < 0x8000_0000 && Adjoining(t.es, t.offset, t.count, t.unit)
    requires forall t, k :: t in ts && 0 <= k < |t.es| ==> Truthful(file, t.es[k])
    ensures AllGathered(ts) == Range(file, offset, |AllGathered(ts)|)
  {
    hide Gathered, Adjoining, Range, Truthful;
    if ts == [] {
      NoneGathered(file, offset);
    } else {
      var t, rest := ts[0], AllGathered(ts[1..]);
      assert t in ts;
      PReadFaithful(file, t.es, t.offset, t.count, t.unit);
      SuccessiveReads(file, ts[1..], offset + |Gathered(t.es)|);
      assert rest <= rest;
      RangesJoin(file, offset, Gathered(t.es), t.count, rest, |rest|);
    }
  }

  lemma NoneGathered(file: seq<byte>, offset: nat)
    ensures Range(file, offset, 0) == []
  {
  }

  /** Answered with nothing before the end of the file. */
  predicate Stalled(file: seq<byte>, e: Exchange) {
    e.reply == Data([]) && e.offset < |file|
  }

  /**
   The requests of the loop of xread: each of one iounit, at the 32-bit offset after what
   came before it, none but the last refused or answered with nothing.
   */
  ghost predicate Turns(es: seq<Exchange>, unit: nat) {
    && (forall k :: 0 <= k < |es| ==>
          es[k].count == unit && es[k].offset == |Gathered(es[..k])| % 0x1_0000_0000)
    && (forall k :: 0 <= k < |es| - 1 ==> !Refused(es[k]) && es[k].reply != Data([]))
  }

  /** The last request failed, or was answered with nothing. */
  predicate Over(es: seq<Exchange>) {
    es != [] && (Refused(es[|es| - 1]) || es[|es| - 1].reply == Data([]))
  }

  /**
   The loop of xread (jyqc.cc): reads of one iounit until one fails or brings nothing.  It
   fails exactly when the last request was refused, and puts out what all requests before
   the last brought.
   */
  method XRead(f: CFid, r: Remote) returns (out: seq<byte>, ok: bool, ghost es: seq<Exchange>)
    requires r.backend.Script? && 0 < f.iounit < 0x8000_0000 && f.offset == 0
    modifies f`offset, r`backend, r`asked
    ensures f.iounit == old(f.iounit) && r.asked == old(r.asked) + es
    ensures Turns(es, f.iounit) && Over(es)
    ensures out == Gathered(es[..|es| - 1])
    ensures ok <==> !Refused(es[|es| - 1])
  {
    hide Gathered, Adjoining, Complete, Abandoned, Paged, Refused, Turns;
    out, es := [], [];
    var buf := new byte[f.iounit](i => 0);
    NoTurns(f.iounit);
    while true
      invariant r.backend.Script? && 0 < f.iounit < 0x8000_0000 && buf.Length == f.iounit && fresh(buf)
      invariant r.asked == old(r.asked) + es && Turns(es, f.iounit) && AllGiven(es)
      invariant out == Gathered(es) && f.offset == |out| % 0x1_0000_0000
      decreases |r.backend.readReplies|
    {
      ghost var from, b := f.offset, r.backend;
      var count;
      ghost var xs;
      count, xs := f.Read(r, buf, f.iounit);
      OneRequest(xs, from, f.iounit);
      NextTurn(es, xs[0], f.iounit);
      ghost var before := es;
      es := es + xs;
      assert es[..|es| - 1] == before;
      if count == -1 {
        return out, false, es;
      }
      if count <= 0 {
        return out, true, es;
      }
      out := out + buf[..count];
    }
  }

  /** Every request was answered with something. */
  predicate AllGiven(es: seq<Exchange>) {
    forall k :: 0 <= k < |es| ==> !Refused(es[k]) && es[k].reply != Data([])
  }

  lemma NoTurns(unit: nat)
    ensures Turns([], unit) && AllGiven([]) && Gathered([]) == []
  {
  }

  lemma NextTurn(es: seq<Exchange>, e: Exchange, unit: nat)
    requires Turns(es, unit) && AllGiven(es)
    requires e.count == unit && e.offset == |Gathered(es)| % 0x1_0000_0000
    ensures Turns(es + [e], unit)
    ensures Gathered(es + [e]) == Gathered(es) + if e.reply.Data? then e.reply.bytes else []
    ensures !Refused(e) && e.reply != Data([]) ==> AllGiven(es + [e])
  {
    hide Gathered, Refused;
    GatheredSnoc(es, e);
    forall k | 0 <= k <= |es|
      ensures (es + [e])[..k] == es[..k]
    {
    }
    assert es[..|es|] == es;
  }

  /** A read of one iounit is one request, answered with what was gathered or refused. */
  lemma OneRequest(es: seq<Exchange>, offset: nat, unit: nat)
    requires 0 < unit < 0x8000_0000 && (Abandoned(es, offset, unit, unit) || Complete(es, offset, unit, unit))
    ensures |es| == 1 && es == [es[0]] && es[0].offset == offset && es[0].count == unit
    ensures Abandoned(es, offset, unit, unit) ==> Refused(es[0])
    ensures Complete(es, offset, unit, unit) ==>
              !Refused(es[0]) && es[0].reply.Data? && Gathered(es) == es[0].reply.bytes && |Gathered(es)| <= unit
  {
    if Complete(es, offset, unit, unit) {
      ReadFullUnit(es, offset, unit);
    } else {
      RefusedFirst(es, offset, unit);
    }
  }

  lemma RefusedFirst(es: seq<Exchange>, offset: nat, unit: nat)
    requires 0 < unit < 0x8000_0000 && Abandoned(es, offset, unit, unit)
    ensures |es| == 1 && es[0].offset == offset && es[0].count == unit && Refused(es[0])
  {
    hide Ask;
    GatheredSnoc([], es[0]);
    AskWraps(unit, unit);
    assert [] + [es[0]] == [es[0]] == es[..1] && es[..0] == [];
    FirstFilled(es);
  }

  /**
   Against a server that tells the truth about a file below 2^32 bytes what xread puts out
   is a beginning of the file, and the whole file if it ends without a failure or a stall.
   A larger file it never comes to the end of.
   */
  lemma XReadFaithful(file: seq<byte>, es: seq<Exchange>, unit: nat)
    requires Turns(es, unit) && Over(es) && forall k :: 0 <= k < |es| ==> Truthful(file, es[k])
    ensures |file| < 0x1_0000_0000 ==> Gathered(es[..|es| - 1]) <= file
    ensures !Refused(es[|es| - 1]) && !Stalled(file, es[|es| - 1]) ==>
              |file| < 0x1_0000_0000 && Gathered(es[..|es| - 1]) == file
  {
    hide Gathered, Truthful, Refused;
    var n := |es| - 1;
    if |file| < 0x1_0000_0000 {
      TurnsOnward(file, es, unit, n);
    }
  }

  lemma {:induction false} TurnsOnward(file: seq<byte>, es: seq<Exchange>, unit: nat, n: nat)
    requires Turns(es, unit) && n < |es| && |file| < 0x1_0000_0000
    requires forall k :: 0 <= k < |es| ==> Truthful(file, es[k])
    ensures Gathered(es[..n]) <= file
  {
    hide Gathered, Truthful, Refused;
    if n == 0 {
      assert es[..0] == [];
      NoTurns(unit);
    } else {
      TurnsOnward(file, es, unit, n - 1);
      GatheredSnoc(es[..n - 1], es[n - 1]);
      assert es[..n] == es[..n - 1] + [es[n - 1]];
      if es[n - 1].reply.Data? {
        ReadsOn(file, es[n - 1], unit, Gathered(es[..n - 1]));
      }
    }
  }

  /** And against a server that answers every request in full it puts out the whole file and succeeds. */
  lemma XReadWhole(file: seq<byte>, es: seq<Exchange>, unit: nat)
    requires unit > 0 && Turns(es, unit) && Over(es) && forall k :: 0 <= k < |es| ==> Whole(file, es[k])
    ensures !Refused(es[|es| - 1]) && |file| < 0x1_0000_0000 && Gathered(es[..|es| - 1]) == file
  {
    hide Gathered;
    var e := es[|es| - 1];
    forall k | 0 <= k < |es|
      ensures Truthful(file, es[k])
    {
      WholeIsTruthful(file, es[k]);
    }
    XReadFaithful(file, es, unit);
  }

  /** A read of one iounit is one request. */
  lemma ReadFullUnit(es: seq<Exchange>, offset: nat, unit: nat)
    requires Complete(es, offset, unit, unit) && 0 < unit < 0x8000_0000
    ensures |es| == 1 && es[0].reply.Data? && es[0].offset == offset && es[0].count == unit
    ensures Gathered(es) == es[0].reply.bytes
  {
    hide Ask;
    GatheredSnoc([], es[0]);
    AskWraps(unit, unit);
    assert [] + [es[0]] == [es[0]] == es[..1] && es[..0] == [];
    FirstFilled(es);
  }

  lemma FirstFilled(es: seq<Exchange>)
    requires es != [] && AllFilled(es[..|es| - 1])
    ensures |es| > 1 ==> Filled(es[0])
  {
    if |es| > 1 {
      assert es[..|es| - 1][0] == es[0];
    }
  }

  lemma Beginning(file: seq<byte>, n: nat)
    requires n <= |file|
    ensures Range(file, 0, n) == file[..n] <= file
  {
  }

  lemma ReadsOn(file: seq<byte>, e: Exchange, unit: nat, out: seq<byte>)
    requires e.reply.Data? && e.offset == |out| && e.count == unit && Truthful(file, e) && out <= file
    ensures out + e.reply.bytes <= file
  {
    var g := e.reply.bytes;
    NeverPast(file, |out|, g, unit);
    hide Gathered, Range;
    assert out <= file[..|out|] && file[..|out|] == Range(file, 0, |out|) by {
      Beginning(file, |out|);
    }
    RangesJoin(file, 0, out, |out|, g, unit);
    Beginning(file, |out + g|);
  }

  lemma NeverPast(file: seq<byte>, offset: nat, g: seq<byte>, n: nat)
    requires offset <= |file| && g <= Range(file, offset, n)
    ensures offset + |g| <= |file|
  {
  }

  // ----- the request size

  /** What open and create take for the iounit: the server's, unless it is 0 or leaves less than 24 bytes. */
  function IoUnit(offered: u32, msize: u32): u32 {
    var most: u32 := (msize as int - 24) % 0x1_0000_0000;
    if offered == 0 || offered > most then most else offered
  }

  /** Everything around the payload takes 23 bytes in a TWrite and 11 in an RRead. */
  lemma FrameOfIO(f: Fcall)
    requires WellFormed(f) && f.body.IO?
    ensures f.hdr.ty == T_WRITE ==> FrameLength(f) == 23 + f.body.count
    ensures f.hdr.ty == R_READ ==> FrameLength(f) == 11 + f.body.count
  {
    hide Le32, Le64, Payload;
  }

  /**
   The 24-byte reserve: a write or a read's answer of at most the clamped iounit packs to
   less than the message size, and recvmsg with buffers of that size accepts the frame.
   */
  lemma ReserveEnough(offered: u32, msize: u32, f: Fcall, env: Env, frame: seq<byte>, rest: seq<byte>)
    requires msize >= 24 && WellFormed(f) && f.body.IO? && (f.hdr.ty == T_WRITE || f.hdr.ty == R_READ)
    requires f.body.count <= IoUnit(offered, msize) && EnvFits(f, env)
    requires |frame| < 0x1_0000_0000 && frame == Le32(|frame|) + Enc(f, env)
    ensures |frame| <= msize - 1
    ensures Received(frame + rest, msize) == Returned(|frame|)
  {
    hide Enc, Le32, GetU32;
    FrameOfIO(f);
    FrameHasLength(f, env);
    ReceivesFrame(frame, rest, msize);
  }

  function WriteOf(n: u32): (f: Fcall)
    ensures WellFormed(f)
  {
    Fcall(Hdr(T_WRITE, 0, 0), IO(n, 0, []))
  }

  lemma WritesAreLonger()
    ensures forall n: u32 :: FrameLength(WriteOf(n)) == 23 + n
  {
    hide FrameLength;
    forall n: u32
      ensures FrameLength(WriteOf(n)) == 23 + n
    {
      FrameOfIO(WriteOf(n));
    }
  }

  /** And it is enough exactly from a message size of 24 on; below that the subtraction wraps around. */
  lemma ReserveExactly(msize: u32)
    ensures msize >= 24 <==>
              forall offered: u32, n: u32 :: n <= IoUnit(offered, msize) ==> FrameLength(WriteOf(n)) < msize
  {
    hide FrameLength;
    WritesAreLonger();
    if msize < 24 {
      assert 0 <= IoUnit(0, msize) && FrameLength(WriteOf(0)) >= msize;
    }
  }
}
