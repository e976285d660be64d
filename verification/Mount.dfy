/** Mounting (client.cc, mountfd and dofcall) and the message size a mounted client works with. */
module Mount {
  import opened Bytes
  import opened Options
  import opened Wire
  import opened WireProofs
  import opened Message
  import opened Transport
  import opened Stream
  import opened Fid

  const MAX_MSG: u32 := 8192
  const PROTOCOL: Str := [0x39, 0x50, 0x32, 0x30, 0x30, 0x30]   // "9P2000"
  const ROOT_FID: u32 := 1
  const NO_FID: u32 := 0xFFFF_FFFF

  /** The type of the reply to a request of type `ty`: the lowest bit changed. */
  function ReplyType(ty: byte): byte { if ty % 2 == 0 then ty + 1 else ty - 1 }

  /** dofcall: a reply of the right type, if one came and it is no error. */
  function DoFcall(tx: Fcall, rx: Option<Fcall>): (r: Option<Fcall>)
    ensures r.Some? <==> rx.Some? && rx.value.hdr.ty == ReplyType(tx.hdr.ty) && rx.value.hdr.ty != R_ERROR
  {
    if rx.None? || rx.value.hdr.ty == R_ERROR || rx.value.hdr.ty != ReplyType(tx.hdr.ty) then None else rx
  }

  /** The test of the version exchange, made on the request. */
  method Settle(ver: Fcall) returns (msize: Option<u32>)
    requires ver.body.Version?
    ensures msize == if ver.body.version == PROTOCOL && ver.body.msize <= MAX_MSG then Some(ver.body.msize) else None
  {
    if ver.body.version != PROTOCOL || ver.body.msize > MAX_MSG {
      return None;
    }
    return Some(ver.body.msize);
  }

  /**
   mountfd with whatever comes back on its two requests.  dofcall leaves the request as it
   is, so the size and the version in the reply to TVersion are never looked at.
   */
  method MountFd(versionReply: Option<Fcall>, attachReply: Option<Fcall>, user: Str) returns (msize: Option<u32>)
    ensures msize.Some? <==> && versionReply.Some? && versionReply.value.hdr.ty == 101
                             && attachReply.Some? && attachReply.value.hdr.ty == 105
    ensures msize.Some? ==> msize.value == 8192
  {
    var ver := Fcall(Hdr(T_VERSION, 0, 0), Version(MAX_MSG, PROTOCOL));
    if DoFcall(ver, versionReply).None? {
      return None;
    }
    msize := Settle(ver);
    var attach := Fcall(Hdr(T_ATTACH, 0, ROOT_FID), Attach(NO_FID, user, []));
    if DoFcall(attach, attachReply).None? {
      return None;
    }
  }

  /** A server with message buffers of size `m` takes every write of at most `iounit` bytes. */
  ghost predicate TakesWrites(m: u32, iounit: u32) {
    forall f, b, rest :: Frame(f, b) && f.hdr.ty == T_WRITE && f.body.IO? && f.body.count <= iounit ==>
                           Received(b + rest, m) == Returned(|b|)
  }

  /**
   A file opened through a mounted client has an iounit that read and write accept.  A
   server whose buffers have the size it replied with takes all writes of at most that
   iounit exactly when the iounit leaves 24 bytes of that size: always if it replied with
   the size it was asked for, and not in general if with less, as it may.
   */
  lemma WritesReachServer(offered: u32, m: u32)
    ensures var unit := IoUnit(offered, 8192);
            && 0 < unit <= 8168
            && (TakesWrites(m, unit) <==> unit + 24 <= m)
            && (offered == 0 ==> (TakesWrites(m, unit) <==> m >= 8192))
  {
    hide TakesWrites;
    var unit := IoUnit(offered, MAX_MSG);
    if unit + 24 <= m {
      ShortEnough(m, unit);
    } else {
      TooLong(m, unit);
    }
  }

  lemma ShortEnough(m: u32, unit: u32)
    requires unit + 24 <= m
    ensures TakesWrites(m, unit)
  {
    hide Enc, Le32, Received, CountFits, WellFormed;
    forall f, b, rest: seq<byte> | Frame(f, b) && f.hdr.ty == T_WRITE && f.body.IO? && f.body.count <= unit
      ensures Received(b + rest, m) == Returned(|b|)
    {
      var env :| EnvFits(f, env) && b == Le32(|b|) + Enc(f, env);
      FrameHasLength(f, env);
      FrameOfIO(f);
      ReceivesFrame(b, rest, m);
    }
  }

  /** The largest write does not fit. */
  lemma TooLong(m: u32, unit: u32)
    requires m < unit + 24 < 0x1_0000_0000
    ensures !TakesWrites(m, unit)
  {
    hide Enc, Le32, GetU32;
    var f := WriteOf(unit);
    var env := Env(Window([], 0, unit), 0);
    FrameHasLength(f, env);
    FrameOfIO(f);
    var b := Le32(23 + unit) + Enc(f, env);
    assert EnvFits(f, env) && |b| == 23 + unit;
    assert Frame(f, b);
    assert Received(b + [], m) != Returned(|b|);
  }
}
