/**
 Whole streams: messages packed and sent one after the other, cut up and interrupted in
 any way on both sides, are received and unpacked as the same messages.
 */
module Stream {
  import opened Bytes
  import opened Options
  import opened RoundTrip
  import opened Wire
  import opened WireProofs
  import opened Message
  import opened Transport

  /** A message that fits the sender's buffer, is shorter than the receiver's, and comes back whole. */
  ghost predicate Sendable(f: Fcall, room: u32, size: u32) {
    && WellFormed(f) && Consistent(f) && CountFits(f) && Faithful(f)
    && FrameLength(f) <= room && FrameLength(f) < size
  }

  /** One frame: a length word and an encoding of `f`. */
  ghost predicate Frame(f: Fcall, b: seq<byte>) {
    && WellFormed(f) && CountFits(f) && 4 <= |b| < 0x1_0000_0000
    && exists env :: EnvFits(f, env) && b == Le32(|b|) + Enc(f, env)
  }

  ghost predicate Frames(fs: seq<Fcall>, bs: seq<seq<byte>>) {
    |fs| == |bs| && forall i :: 0 <= i < |fs| ==> Frame(fs[i], bs[i])
  }

  function Concat(bs: seq<seq<byte>>): seq<byte> {
    if bs == [] then [] else bs[0] + Concat(bs[1..])
  }

  lemma {:induction false} ConcatSnoc(bs: seq<seq<byte>>, b: seq<byte>)
    ensures Concat(bs + [b]) == Concat(bs) + b
  {
    if bs == [] {
      assert bs + [b] == [b] && [b][1..] == [];
      assert Concat([b]) == b + Concat([]);
    } else {
      ConcatSnoc(bs[1..], b);
      assert (bs + [b])[1..] == bs[1..] + [b];
      Append3(bs[0], Concat(bs[1..]), b);
    }
  }

  /** recvmsg on a stream that begins with a frame returns that frame and stops at its end. */
  lemma ReceivesFrame(b: seq<byte>, rest: seq<byte>, size: u32)
    requires 4 <= |b| < size && b[..4] == Le32(|b|)
    ensures Received(b + rest, size) == Returned(|b|)
    ensures (b + rest)[..|b|] == b && (b + rest)[|b|..] == rest
  {
    assert (b + rest)[0..4] == b[..4];
    U32Back(b + rest, 0, |b|);
  }

  method SendOne(c: Connection, w: Msg, f: Fcall, ghost size: u32) returns (ghost b: seq<byte>)
    requires w.size <= w.data.Length && Broken !in c.wsched
    requires Sendable(f, w.size, size)
    modifies c`out, c`wsched, w, w.data
    ensures w.data == old(w.data) && w.size == old(w.size) && Broken !in c.wsched
    ensures Frame(f, b) && c.out == old(c.out) + b
  {
    hide Enc, WellFormed, Consistent, CountFits, EnvFits;
    var box := new FcallBox(Some(f));
    ghost var env;
    var k;
    k, env := w.PackMessage(box);
    FrameHasLength(f, env);
    var sent := c.SendMsg(w);
    b := w.Text();
  }

  lemma FrameHasLength(f: Fcall, env: Env)
    requires WellFormed(f) && CountFits(f) && EnvFits(f, env)
    ensures FrameLength(f) == 4 + |Enc(f, env)|
  {
    hide Enc;
    SameLength(f, env, Env(Window([], 0, if f.body.IO? then f.body.count else 0), 0));
  }

  /** Packs and sends each message in turn. */
  method SendAll(c: Connection, w: Msg, fs: seq<Fcall>, ghost size: u32) returns (ghost bs: seq<seq<byte>>)
    requires w.size <= w.data.Length && Broken !in c.wsched
    requires forall i :: 0 <= i < |fs| ==> Sendable(fs[i], w.size, size)
    modifies c`out, c`wsched, w, w.data
    ensures Frames(fs, bs) && c.out == old(c.out) + Concat(bs)
    ensures w.data == old(w.data) && w.size == old(w.size)
  {
    hide Frame, Sendable;
    bs := [];
    var i := 0;
    while i < |fs|
      invariant 0 <= i <= |fs| && Frames(fs[..i], bs)
      invariant w.data == old(w.data) && w.size == old(w.size)
      invariant Broken !in c.wsched
      invariant c.out == old(c.out) + Concat(bs)
    {
      ghost var b := SendOne(c, w, fs[i], size);
      ConcatSnoc(bs, b);
      Append3(old(c.out), Concat(bs), b);
      bs := bs + [b];
      i := i + 1;
    }
    assert fs[..i] == fs;
  }

  method ReceiveOne(c: Connection, r: Msg, ghost f: Fcall, ghost b: seq<byte>, ghost rest: seq<byte>, ghost room: u32)
    returns (g: Fcall)
    requires r.size <= r.data.Length && Frame(f, b) && c.inp == b + rest && Broken !in c.rsched
    requires Sendable(f, room, r.size)
    modifies c`inp, c`rsched, r, r.data
    ensures r.data == old(r.data) && r.size == old(r.size) && Broken !in c.rsched
    ensures c.inp == rest && SameFields(f, g)
  {
    hide Enc, EnvFits, Consistent, Faithful, Blank, GetFcall, GetHdr, Wired, Canon, Le32;
    ghost var env :| EnvFits(f, env) && b == Le32(|b|) + Enc(f, env);
    FrameHasLength(f, env);
    ReceivesFrame(b, rest, r.size);
    var k, errors, more := c.RecvMsg(r);
    var box := new FcallBox(None);
    ParsesWhole(f, env, b);
    k := r.UnpackMessage(box);
    if f.body.Walk? {
      WalkReturns(f, env, b, box, r);
    }
    g := box.storage.value;
  }

  lemma ParsesWhole(f: Fcall, env: Env, b: seq<byte>)
    requires WellFormed(f) && CountFits(f) && EnvFits(f, env) && Consistent(f) && Faithful(f)
    requires |b| < 0x1_0000_0000 && b == Le32(|b|) + Enc(f, env)
    ensures GetHdr(b, 4) == Got(f.hdr.(fid := 0), 7)
    ensures Blank(f.hdr.ty).Some?
    ensures !f.body.Walk? ==> GetFcall(Blank(f.hdr.ty).value, b, 4) == Got(Canon(f), |b|)
    ensures Canon(f).hdr.ty == f.hdr.ty && SameKind(Blank(f.hdr.ty).value, f.body)
  {
    PackedUnpacks(f, env, |b|, b);
    if !f.body.Walk? {
      WiredExactly(f, env);
    }
  }

  /** Receives and unpacks `n` messages. */
  method ReceiveAll(c: Connection, r: Msg, n: nat, ghost fs: seq<Fcall>, ghost bs: seq<seq<byte>>,
                    ghost rest: seq<byte>, ghost room: u32)
    returns (got: seq<Fcall>)
    requires r.size <= r.data.Length && |fs| == n && Frames(fs, bs) && c.inp == Concat(bs) + rest
    requires Broken !in c.rsched
    requires forall i :: 0 <= i < n ==> Sendable(fs[i], room, r.size)
    modifies c`inp, c`rsched, r, r.data
    ensures |got| == n && c.inp == rest
    ensures forall i :: 0 <= i < n ==> SameFields(fs[i], got[i])
  {
    hide Frame, SameFields, Sendable;
    got := [];
    var i := 0;
    assert bs[0..] == bs;
    while i < n
      invariant 0 <= i <= n && |got| == i
      invariant r.size <= r.data.Length && r.size == old(r.size) && r.data == old(r.data)
      invariant c.inp == Concat(bs[i..]) + rest && Broken !in c.rsched
      invariant forall j :: 0 <= j < i ==> SameFields(fs[j], got[j])
    {
      assert Frame(fs[i], bs[i]);
      assert bs[i..][1..] == bs[i + 1..];
      Append3(bs[i], Concat(bs[i + 1..]), rest);
      var g := ReceiveOne(c, r, fs[i], bs[i], Concat(bs[i + 1..]) + rest, room);
      got := got + [g];
      i := i + 1;
    }
    assert bs[n..] == [];
  }

  /**
   Sender and receiver joined by the stream: whatever the schedules of short counts and
   interruptions, the messages arrive in order, each with its fields, and nothing is left.
   */
  method Converse(a: Connection, w: Msg, b: Connection, r: Msg, fs: seq<Fcall>) returns (got: seq<Fcall>)
    requires a != b && w != r && w.data != r.data
    requires w.size <= w.data.Length && r.size <= r.data.Length
    requires Broken !in a.wsched && Broken !in b.rsched && a.out == [] && b.inp == []
    requires forall i :: 0 <= i < |fs| ==> Sendable(fs[i], w.size, r.size)
    modifies a`out, a`wsched, b`inp, b`rsched, w, w.data, r, r.data
    ensures |got| == |fs| && b.inp == []
    ensures forall i :: 0 <= i < |fs| ==> SameFields(fs[i], got[i])
  {
    hide Frame, SameFields, Sendable;
    ghost var bs := SendAll(a, w, fs, r.size);
    b.inp := a.out;
    assert b.inp == Concat(bs) + [];
    got := ReceiveAll(b, r, |fs|, fs, bs, [], w.size);
  }
}
