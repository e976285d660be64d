/** Parsing what was packed: every primitive, then every message kind. */
module WireProofs {
  import opened Bytes
  import opened Wire

  lemma U16Back(b: seq<byte>, p: nat, v: u16)
    requires Has(b, p, Le16(v))
    ensures GetU16(b, p) == Got(v, p + 2)
  {
    LeOctets(v);
    OctetsSum(v);
    HighOctets(v);
    hide Octet, Le;
    var w := b[p..p + 2];
    assert b[p] == w[0] && b[p + 1] == w[1];
  }

  lemma U32Back(b: seq<byte>, p: nat, v: u32)
    requires Has(b, p, Le32(v))
    ensures GetU32(b, p) == Got(v, p + 4)
  {
    LeOctets(v);
    OctetsSum(v);
    hide Octet, Le;
    var w := b[p..p + 4];
    assert b[p] == w[0] && b[p + 1] == w[1] && b[p + 2] == w[2] && b[p + 3] == w[3];
  }

  lemma U64Back(b: seq<byte>, p: nat, v: u64)
    requires Has(b, p, Le64(v))
    ensures GetU64(b, p) == Got(v, p + 8)
  {
    hide Le32, Le64, GetU32;
    LeHalves(v);
    HasParts(b, p, Le32(v % 0x1_0000_0000), Le32(v / 0x1_0000_0000));
    U32Back(b, p, v % 0x1_0000_0000);
    U32Back(b, p + 4, v / 0x1_0000_0000);
  }

  lemma U8Back(b: seq<byte>, p: nat, v: byte)
    requires Has(b, p, [v])
    ensures GetU8(b, p) == Got(v, p + 1)
  {
    assert b[p] == b[p..p + 1][0];
  }

  /** A string comes back cut to its length modulo 2^16. */
  lemma StrBack(b: seq<byte>, p: nat, s: Str)
    requires Has(b, p, EncStr(s))
    ensures GetStr(b, p) == Got(Trunc(s), p + |EncStr(s)|)
  {
    HasParts(b, p, Le16(|Trunc(s)|), Trunc(s));
    U16Back(b, p, |Trunc(s)|);
  }

  lemma QidBack(b: seq<byte>, p: nat, q: Qid)
    requires Has(b, p, EncQid(q))
    ensures GetQid(b, p) == Got(q, p + |EncQid(q)|)
  {
    HasParts(b, p, [q.ty] + Le32(q.version), Le64(q.path));
    HasParts(b, p, [q.ty], Le32(q.version));
    U8Back(b, p, q.ty);
    U32Back(b, p + 1, q.version);
    U64Back(b, p + 5, q.path);
  }

  lemma {:induction false} QidsBack(b: seq<byte>, p: nat, qs: seq<Qid>)
    requires Has(b, p, EncQids(qs))
    ensures GetQids(b, p, |qs|) == Got(qs, p + |EncQids(qs)|)
  {
    hide EncQid, GetQid;
    if qs != [] {
      var n := |qs| - 1;
      HasParts(b, p, EncQids(qs[..n]), EncQid(qs[n]));
      QidsBack(b, p, qs[..n]);
      QidBack(b, p + |EncQids(qs[..n])|, qs[n]);
      assert qs[..n] + [qs[n]] == qs;
    }
  }

  lemma StatFixedBack(b: seq<byte>, p: nat, s: Stat)
    requires Has(b, p, EncStatFixed(s))
    ensures GetStatFixed(b, p) == Got(s.(name := [], uid := [], gid := [], muid := []), p + 39)
  {
    var e1 := Le16(s.ty) + Le32(s.dev);
    var e2 := Le32(s.mode) + Le32(s.atime);
    HasParts(b, p, EncStatHead(s), EncStatTimes(s));
    HasParts(b, p, e1, EncQid(s.qid));
    HasParts(b, p, Le16(s.ty), Le32(s.dev));
    HasParts(b, p + 19, e2 + Le32(s.mtime), Le64(s.length));
    HasParts(b, p + 19, e2, Le32(s.mtime));
    HasParts(b, p + 19, Le32(s.mode), Le32(s.atime));
    U16Back(b, p, s.ty);
    U32Back(b, p + 2, s.dev);
    QidBack(b, p + 6, s.qid);
    U32Back(b, p + 19, s.mode);
    U32Back(b, p + 23, s.atime);
    U32Back(b, p + 27, s.mtime);
    U64Back(b, p + 31, s.length);
  }

  function TruncStat(s: Stat): Stat {
    s.(name := Trunc(s.name), uid := Trunc(s.uid), gid := Trunc(s.gid), muid := Trunc(s.muid))
  }

  lemma StatStringsBack(b: seq<byte>, p: nat, s: Stat, t: Stat)
    requires Has(b, p, EncStatStrings(s)) && t == s.(name := [], uid := [], gid := [], muid := [])
    ensures GetStatStrings(b, p, t) == Got(TruncStat(s), p + |EncStatStrings(s)|)
  {
    hide EncStr, GetStr, Trunc;
    var e1 := EncStr(s.name) + EncStr(s.uid);
    HasParts(b, p, e1 + EncStr(s.gid), EncStr(s.muid));
    HasParts(b, p, e1, EncStr(s.gid));
    HasParts(b, p, EncStr(s.name), EncStr(s.uid));
    StrBack(b, p, s.name);
    StrBack(b, p + |EncStr(s.name)|, s.uid);
    StrBack(b, p + |e1|, s.gid);
    StrBack(b, p + |e1 + EncStr(s.gid)|, s.muid);
  }

  lemma StatBack(b: seq<byte>, p: nat, s: Stat)
    requires Has(b, p, EncStat(s))
    ensures GetStat(b, p) == Got(TruncStat(s), p + |EncStat(s)|)
  {
    HasParts(b, p, Le16((StatSize(s) - 2) % 0x1_0000), EncStatFixed(s) + EncStatStrings(s));
    HasParts(b, p + 2, EncStatFixed(s), EncStatStrings(s));
    assert |EncStatFixed(s)| == 39;
    StatFixedBack(b, p + 2, s);
    StatStringsBack(b, p + 41, s, s.(name := [], uid := [], gid := [], muid := []));
  }

  /**
   A packed stat is Stat::size() bytes long and its inner length is two less, whenever
   the whole fits 16 bits.
   */
  lemma StatExact(s: Stat)
    ensures |EncStat(s)| == 49 + |Trunc(s.name)| + |Trunc(s.uid)| + |Trunc(s.gid)| + |Trunc(s.muid)|
    ensures StatLength(s) < 0x1_0000 ==>
              |EncStat(s)| == StatSize(s) && GetU16(EncStat(s), 0) == Got(StatSize(s) - 2, 2) && TruncStat(s) == s
  {
    hide Le16, Le32, Le64, Trunc;
    if StatLength(s) < 0x1_0000 {
      var size: u16 := StatSize(s) - 2;
      assert EncStat(s)[0..2] == Le16(size);
      U16Back(EncStat(s), 0, size);
      TruncExactly(s.name);
      TruncExactly(s.uid);
      TruncExactly(s.gid);
      TruncExactly(s.muid);
    }
  }

  // ----- messages

  /** What arrives: the carried fields, with strings cut to 16-bit lengths and payloads of the announced size. */
  function Wired(f: Fcall, env: Env): Fcall
    requires WellFormed(f) && EnvFits(f, env)
  {
    var body := match f.body
      case Version(size, v) => Version(size, Trunc(v))
      case Error(ename) => Error(Trunc(ename))
      case Attach(afid, uname, aname) => Attach(afid, Trunc(uname), Trunc(aname))
      case Create(perm, name, mode) => Create(perm, Trunc(name), mode)
      case WStat(stat) => WStat(TruncStat(stat))
      case Stats(n, bytes) => Stats(n, bytes[..n])
      case IO(count, offset, data) => IO(count, offset, Payload(data, count, env.stale))
      case _ => f.body;
    Canon(Fcall(f.hdr, body))
  }

  predicate Short16(s: Str) { |s| < 0x1_0000 }

  /** What a caller has to check for a message to come back whole. */
  predicate Faithful(f: Fcall) {
    var ty := f.hdr.ty;
    match f.body
    case Version(_, v) => Short16(v)
    case Error(ename) => Short16(ename)
    case Attach(_, uname, aname) => Short16(uname) && Short16(aname)
    case Create(_, name, _) => ty == T_CREATE ==> Short16(name)
    case WStat(s) => Short16(s.name) && Short16(s.uid) && Short16(s.gid) && Short16(s.muid)
    case Stats(n, bytes) => |bytes| == n
    case IO(count, _, data) => (ty == R_READ || ty == T_WRITE) ==> |data| == count
    case Walk(_, n, wname) => forall i :: 0 <= i < n && i < |wname| ==> wname[i] == []
    case _ => true
  }

  /** Equal in every field the kind carries. */
  ghost predicate SameFields(f: Fcall, g: Fcall) {
    && WellFormed(f) && WellFormed(g)
    && Canon(f) == Canon(g)
    && (f.body.Walk? ==> forall i :: 0 <= i < f.body.nwname <= WELEM ==> f.body.wname[i] == g.body.wname[i])
  }

  /** A message arrives with every carried field unchanged exactly when it is faithful. */
  lemma WiredExactly(f: Fcall, env: Env)
    requires WellFormed(f) && EnvFits(f, env) && !f.body.Walk?
    ensures Wired(f, env) == Canon(f) <==> Faithful(f)
  {
    match f.body
    case IO(count, offset, data) =>
      if |data| == count {
        assert Payload(data, count, env.stale) == data;
      }
    case Stats(n, bytes) =>
      if |bytes| == n {
        assert bytes[..n] == bytes;
      }
    case WStat(s) => TruncExactly(s.name); TruncExactly(s.uid); TruncExactly(s.gid); TruncExactly(s.muid);
    case Version(_, v) => TruncExactly(v);
    case Error(ename) => TruncExactly(ename);
    case Attach(_, uname, aname) => TruncExactly(uname); TruncExactly(aname);
    case Create(_, name, _) => TruncExactly(name);
    case _ =>
  }

  lemma TruncExactly(s: Str)
    ensures Trunc(s) == s <==> Short16(s)
  {
    if Short16(s) {
      assert s[..|s|] == s;
    }
  }

  lemma HdrBack(b: seq<byte>, p: nat, h: Hdr)
    requires Has(b, p, EncHdr(h))
    ensures GetHdr(b, p) == Got(h.(fid := 0), p + 3)
  {
    HasParts(b, p, [h.ty], Le16(h.tag));
    U8Back(b, p, h.ty);
    U16Back(b, p + 1, h.tag);
  }

  lemma FidIfBack(carried: bool, b: seq<byte>, p: nat, fid: u32)
    requires Has(b, p, if carried then Le32(fid) else [])
    ensures GetFidIf(carried, b, p) == Got(if carried then fid else 0, p + if carried then 4 else 0)
  {
    if carried {
      U32Back(b, p, fid);
    }
  }

  /** The kinds with nothing optional in them. */
  lemma SimpleBodyBack(f: Fcall, env: Env, b: seq<byte>, p: nat)
    requires WellFormed(f) && CountFits(f) && EnvFits(f, env)
    requires f.body.Version? || f.body.Flush? || f.body.Error? || f.body.Auth? || f.body.Plain? || f.body.Full?
          || f.body.Stats? || f.body.WStat?
    requires Has(b, p, EncBody(f, env))
    ensures GetBody(f.body, f.hdr.(fid := 0), b, p) == Got(Wired(f, env), p + |EncBody(f, env)|)
  {
    hide Le16, Le32, Le64, EncStr, EncStat, EncQid, Trunc, GetStr, GetStat, GetQid, GetU16, GetU32, Has;
    match f.body
    case Version(size, v) => HasParts(b, p, Le32(size), EncStr(v)); U32Back(b, p, size); StrBack(b, p + 4, v);
    case Flush(oldtag) => U16Back(b, p, oldtag);
    case Error(ename) => StrBack(b, p, ename);
    case Auth(aqid) => QidBack(b, p, aqid);
    case Stats(n, bytes) => HasParts(b, p, Le16(n), bytes[..n]); U16Back(b, p, n);
    case WStat(stat) =>
      HasParts(b, p, Le32(f.hdr.fid), Le16(env.junk) + EncStat(stat));
      HasParts(b, p + 4, Le16(env.junk), EncStat(stat));
      U32Back(b, p, f.hdr.fid);
      U16Back(b, p + 4, env.junk);
      StatBack(b, p + 6, stat);
    case Full => U32Back(b, p, f.hdr.fid);
    case Plain => Within(b, p, []);
  }

  lemma Within(b: seq<byte>, p: nat, e: seq<byte>)
    requires Has(b, p, e)
    ensures p + |e| <= |b|
  {
  }

  lemma AttachBack(f: Fcall, env: Env, b: seq<byte>, p: nat)
    requires WellFormed(f) && f.body.Attach? && Has(b, p, EncBody(f, env))
    ensures GetBody(f.body, f.hdr.(fid := 0), b, p) == Got(Wired(f, env), p + |EncBody(f, env)|)
  {
    hide Le16, Le32, EncStr, Trunc, GetStr, GetU16, GetU32, GetFidIf, Has;
    var Attach(afid, uname, aname) := f.body;
    var carried := f.hdr.ty == T_ATTACH;
    var e := if carried then Le32(f.hdr.fid) else [];
    HasParts(b, p, e, Le32(afid) + (EncStr(uname) + EncStr(aname)));
    HasParts(b, p + |e|, Le32(afid), EncStr(uname) + EncStr(aname));
    HasParts(b, p + |e| + 4, EncStr(uname), EncStr(aname));
    FidIfBack(carried, b, p, f.hdr.fid);
    U32Back(b, p + |e|, afid);
    StrBack(b, p + |e| + 4, uname);
    StrBack(b, p + |e| + 4 + |EncStr(uname)|, aname);
  }

  lemma OpenBack(f: Fcall, env: Env, b: seq<byte>, p: nat)
    requires WellFormed(f) && f.body.Open? && Has(b, p, EncBody(f, env))
    ensures GetBody(f.body, f.hdr.(fid := 0), b, p) == Got(Wired(f, env), p + |EncBody(f, env)|)
  {
    hide Has;
    var Open(qid, iounit) := f.body;
    HasParts(b, p, EncQid(qid), if f.hdr.ty != R_ATTACH then Le32(iounit) else []);
    QidBack(b, p, qid);
    FidIfBack(f.hdr.ty != R_ATTACH, b, p + 13, iounit);
  }

  lemma CreateBack(f: Fcall, env: Env, b: seq<byte>, p: nat)
    requires WellFormed(f) && f.body.Create? && Has(b, p, EncBody(f, env))
    ensures GetBody(f.body, f.hdr.(fid := 0), b, p) == Got(Wired(f, env), p + |EncBody(f, env)|)
  {
    hide Le16, Le32, EncStr, Trunc, GetStr, GetU8, GetU16, GetU32, Has;
    var Create(perm, name, mode) := f.body;
    var e := if f.hdr.ty == T_CREATE then EncStr(name) + Le32(perm) else [];
    HasParts(b, p, Le32(f.hdr.fid), e + [mode]);
    HasParts(b, p + 4, e, [mode]);
    U32Back(b, p, f.hdr.fid);
    if f.hdr.ty == T_CREATE {
      HasParts(b, p + 4, EncStr(name), Le32(perm));
      StrBack(b, p + 4, name);
      U32Back(b, p + 4 + |EncStr(name)|, perm);
    }
    U8Back(b, p + 4 + |e|, mode);
  }

  lemma WalkedBack(f: Fcall, env: Env, b: seq<byte>, p: nat)
    requires WellFormed(f) && CountFits(f) && f.body.Walked? && Has(b, p, EncBody(f, env))
    ensures GetBody(f.body, f.hdr.(fid := 0), b, p) == Got(Wired(f, env), p + |EncBody(f, env)|)
  {
    hide Le16, EncQids, GetQids, GetU16, Has;
    var Walked(n, wqid) := f.body;
    HasParts(b, p, Le16(n), EncQids(wqid[..n]));
    U16Back(b, p, n);
    QidsBack(b, p + 2, wqid[..n]);
  }

  lemma IOBack(f: Fcall, env: Env, b: seq<byte>, p: nat)
    requires WellFormed(f) && f.body.IO? && EnvFits(f, env) && Has(b, p, EncBody(f, env))
    ensures GetIO(f.hdr.(fid := 0), b, p) == Got(Wired(f, env), p + |EncBody(f, env)|)
  {
    hide Le32, Le64, GetU32, GetU64, Payload, Has;
    var IO(count, offset, data) := f.body;
    var ty := f.hdr.ty;
    var addressed := ty == T_READ || ty == T_WRITE;
    var e1 := if addressed then Le32(f.hdr.fid) + Le64(offset) else [];
    var e2 := if ty == R_READ || ty == T_WRITE then Payload(data, count, env.stale) else [];
    HasParts(b, p, e1, Le32(count) + e2);
    HasParts(b, p + |e1|, Le32(count), e2);
    if addressed {
      HasParts(b, p, Le32(f.hdr.fid), Le64(offset));
      U32Back(b, p, f.hdr.fid);
      U64Back(b, p + 4, offset);
    }
    U32Back(b, p + |e1|, count);
  }

  lemma BodyBack(f: Fcall, env: Env, b: seq<byte>, p: nat)
    requires WellFormed(f) && CountFits(f) && EnvFits(f, env) && !f.body.Walk?
    requires Has(b, p, EncBody(f, env))
    ensures GetBody(f.body, f.hdr.(fid := 0), b, p) == Got(Wired(f, env), p + |EncBody(f, env)|)
  {
    hide EncBody, Wired, Has;
    match f.body
    case Open(_, _) => OpenBack(f, env, b, p);
    case Attach(_, _, _) => AttachBack(f, env, b, p);
    case Create(_, _, _) => CreateBack(f, env, b, p);
    case Walked(_, _) => WalkedBack(f, env, b, p);
    case IO(_, _, _) => IOBack(f, env, b, p);
    case _ => SimpleBodyBack(f, env, b, p);
  }

  /**
   Every kind constructBlankStorage accepts, except a TWalk: what was packed parses, in
   the alternative its type selects, to what arrives, and ends where the packing ended.
   */
  lemma ParsesBack(f: Fcall, env: Env, b: seq<byte>, p: nat)
    requires WellFormed(f) && CountFits(f) && EnvFits(f, env) && Consistent(f) && !f.body.Walk?
    requires Has(b, p, Enc(f, env))
    ensures GetFcall(Blank(f.hdr.ty).value, b, p) == Got(Wired(f, env), p + |Enc(f, env)|)
  {
    hide GetBody, Enc, Wired, Has, WellFormed, CountFits, EnvFits;
    AsPacked(f, env, b, p);
    HeaderFirst(f, env, b, p);
    KindOnly(Blank(f.hdr.ty).value, f.body, f.hdr.(fid := 0), b, p + 3);
  }

  /** The same in the alternative that was packed, whatever its type says. */
  lemma AsPacked(f: Fcall, env: Env, b: seq<byte>, p: nat)
    requires WellFormed(f) && CountFits(f) && EnvFits(f, env) && !f.body.Walk?
    requires Has(b, p, Enc(f, env))
    ensures GetFcall(f.body, b, p) == Got(Wired(f, env), p + |Enc(f, env)|)
  {
    hide GetBody, EncBody, Wired, Has, WellFormed, CountFits, EnvFits;
    HasParts(b, p, EncHdr(f.hdr), EncBody(f, env));
    HdrBack(b, p, f.hdr);
    BodyBack(f, env, b, p + 3);
  }

  /** Unpacking looks at the alternative it fills, not at the values in it. */
  lemma KindOnly(a: Body, k: Body, h: Hdr, b: seq<byte>, p: nat)
    requires SameKind(a, k)
    ensures GetBody(a, h, b, p) == GetBody(k, h, b, p)
  {
  }

  // ----- TWalk

  lemma {:induction false} NamesLength(ss: seq<Str>)
    ensures |EncStrs(ss)| >= 2 * |ss|
    ensures |EncStrs(ss)| == 2 * |ss| <==> forall i :: 0 <= i < |ss| ==> Trunc(ss[i]) == []
  {
    if ss != [] {
      NamesLength(ss[..|ss| - 1]);
      var n := |ss| - 1;
      assert forall i :: 0 <= i < n ==> ss[..n][i] == ss[i];
    }
  }

  /**
   A TWalk parses, but its parse ends where its packing ended exactly when every name
   packs to nothing: the loop that unpacks names does not move past their bytes.
   */
  lemma WalkBack(f: Fcall, env: Env, b: seq<byte>, p: nat)
    requires WellFormed(f) && CountFits(f) && f.body.Walk? && Has(b, p, Enc(f, env))
    ensures GetFcall(f.body, b, p) == Got(Canon(f), p + 13 + 2 * f.body.nwname)
    ensures p + 13 + 2 * f.body.nwname == p + |Enc(f, env)| <==>
              forall i :: 0 <= i < f.body.nwname ==> |f.body.wname[i]| % 0x1_0000 == 0
  {
    hide Has, Le16, Le32, EncStrs, GetU16, GetU32;
    var Walk(newfid, n, wname) := f.body;
    HasParts(b, p, EncHdr(f.hdr), EncBody(f, env));
    HdrBack(b, p, f.hdr);
    HasParts(b, p + 3, Le32(f.hdr.fid), Le32(newfid) + (Le16(n) + EncStrs(wname[..n])));
    HasParts(b, p + 7, Le32(newfid), Le16(n) + EncStrs(wname[..n]));
    HasParts(b, p + 11, Le16(n), EncStrs(wname[..n]));
    U32Back(b, p + 3, f.hdr.fid);
    U32Back(b, p + 7, newfid);
    U16Back(b, p + 11, n);
    NamesLength(wname[..n]);
    assert forall i :: 0 <= i < n ==> wname[..n][i] == wname[i];
    assert forall i :: 0 <= i < n ==> |Trunc(wname[i])| == |wname[i]| % 0x1_0000;
  }

  lemma {:induction false} EmptyNames(ss: seq<Str>)
    requires forall i :: 0 <= i < |ss| ==> Trunc(ss[i]) == []
    ensures |EncStrs(ss)| == 2 * |ss| && forall j :: 0 <= j < |EncStrs(ss)| ==> EncStrs(ss)[j] == 0
  {
    if ss != [] {
      EmptyNames(ss[..|ss| - 1]);
      assert EncStr(ss[|ss| - 1]) == [0, 0];
    }
  }

  /** Where the names of a packed walk all pack to nothing, every name reads back as empty. */
  lemma EmptyNamesRead(f: Fcall, env: Env, b: seq<byte>, p: nat, i: nat)
    requires WellFormed(f) && CountFits(f) && f.body.Walk? && Has(b, p, Enc(f, env)) && i < f.body.nwname
    requires forall j :: 0 <= j < f.body.nwname ==> Trunc(f.body.wname[j]) == []
    ensures GetU16(b, p + 13 + 2 * i) == Got(0, p + 15 + 2 * i)
  {
    var Walk(newfid, n, wname) := f.body;
    var names := EncStrs(wname[..n]);
    EmptyNames(wname[..n]);
    hide Has, EncStrs, Le16, Le32, GetU16;
    HasParts(b, p, EncHdr(f.hdr), EncBody(f, env));
    HasParts(b, p + 3, Le32(f.hdr.fid), Le32(newfid) + (Le16(n) + names));
    HasParts(b, p + 7, Le32(newfid), Le16(n) + names);
    HasParts(b, p + 11, Le16(n), names);
    ZerosRead(b, p + 13, names, 2 * i);
  }

  lemma ZerosRead(b: seq<byte>, p: nat, e: seq<byte>, i: nat)
    requires Has(b, p, e) && i + 1 < |e| && e[i] == e[i + 1] == 0
    ensures GetU16(b, p + i) == Got(0, p + i + 2)
  {
    assert b[p + i] == b[p..p + |e|][i] && b[p + i + 1] == b[p..p + |e|][i + 1];
  }

  /** The length of an encoding does not depend on what was lying in the buffer. */
  lemma SameLength(f: Fcall, env: Env, env': Env)
    requires WellFormed(f) && CountFits(f) && EnvFits(f, env) && EnvFits(f, env')
    ensures |Enc(f, env)| == |Enc(f, env')|
  {
    hide Le32, Le64, EncStr, EncQid, EncStat, EncStrs, EncQids;
  }

  /** What pack returns for a message that fits: its whole length on the wire. */
  function FrameLength(f: Fcall): nat
    requires WellFormed(f) && CountFits(f)
  {
    var room := if f.body.IO? then f.body.count else 0;
    4 + |Enc(f, Env(Window([], 0, room), 0))|
  }

  /** A packed message, its length word in front, unpacks into an empty Fcall. */
  lemma PackedUnpacks(f: Fcall, env: Env, n: u32, b: seq<byte>)
    requires WellFormed(f) && CountFits(f) && EnvFits(f, env) && Consistent(f)
    requires b == Le32(n) + Enc(f, env)
    ensures GetHdr(b, 4) == Got(f.hdr.(fid := 0), 7)
    ensures !f.body.Walk? ==> GetFcall(Blank(f.hdr.ty).value, b, 4) == Got(Wired(f, env), |b|)
  {
    hide Enc, Blank;
    assert Has(b, 4, Enc(f, env));
    if !f.body.Walk? {
      ParsesBack(f, env, b, 4);
    }
    HeaderFirst(f, env, b, 4);
  }

  lemma HeaderFirst(f: Fcall, env: Env, b: seq<byte>, p: nat)
    requires WellFormed(f) && CountFits(f) && EnvFits(f, env) && Has(b, p, Enc(f, env))
    ensures GetHdr(b, p) == Got(f.hdr.(fid := 0), p + 3)
  {
    HasParts(b, p, EncHdr(f.hdr), EncBody(f, env));
    HdrBack(b, p, f.hdr);
  }
}
