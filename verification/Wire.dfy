/**
 9P messages and their wire format: the variant of message kinds (Fcall.h), what each
 kind puts on the wire (message.cc, convert.cc), and the parser that reads it back.
 A string is the bytes of a std::string.
 */
module Wire {
  import opened Bytes
  import opened Options

  type Str = seq<byte>

  /** A parse: no room for the value, or the value and the position after it. */
  datatype Parsed<+T> = Short | Got(value: T, next: nat) {
    predicate IsFailure() { Short? }
    function PropagateFailure<U>(): Parsed<U>
      requires Short?
    {
      Short
    }
    function Extract(): (T, nat)
      requires Got?
    {
      (value, next)
    }
  }

  // ----- message types, numbered as in FType

  const T_VERSION: byte := 100
  const R_VERSION: byte := 101
  const T_AUTH: byte := 102
  const R_AUTH: byte := 103
  const T_ATTACH: byte := 104
  const R_ATTACH: byte := 105
  const T_ERROR: byte := 106
  const R_ERROR: byte := 107
  const T_FLUSH: byte := 108
  const T_WALK: byte := 110
  const R_WALK: byte := 111
  const T_OPEN: byte := 112
  const R_OPEN: byte := 113
  const T_CREATE: byte := 114
  const R_CREATE: byte := 115
  const T_READ: byte := 116
  const R_READ: byte := 117
  const T_WRITE: byte := 118
  const R_WRITE: byte := 119
  const T_CLUNK: byte := 120
  const R_CLUNK: byte := 121
  const T_REMOVE: byte := 122
  const T_STAT: byte := 124
  const R_STAT: byte := 125
  const T_WSTAT: byte := 126

  const WELEM: nat := 16

  // ----- the messages

  datatype Qid = Qid(ty: byte, version: u32, path: u64)

  datatype Stat = Stat(ty: u16, dev: u32, qid: Qid, mode: u32, atime: u32, mtime: u32, length: u64,
                       name: Str, uid: Str, gid: Str, muid: Str)

  datatype Hdr = Hdr(ty: byte, tag: u16, fid: u32)

  datatype Body =
    | Version(msize: u32, version: Str)
    | Flush(oldtag: u16)
    | Open(qid: Qid, iounit: u32)
    | Error(ename: Str)
    | Auth(aqid: Qid)
    | Attach(afid: u32, uname: Str, aname: Str)
    | Create(perm: u32, name: Str, mode: byte)
    | Walk(newfid: u32, nwname: u16, wname: seq<Str>)
    | Walked(nwqid: u16, wqid: seq<Qid>)
    | WStat(stat: Stat)
    | Stats(nstat: u16, bytes: seq<byte>)
    | IO(count: u32, offset: u64, data: Str)
    | Plain
    | Full

  datatype Fcall = Fcall(hdr: Hdr, body: Body)

  const BLANK_QID := Qid(0, 0, 0)
  const BLANK_STAT := Stat(0, 0, BLANK_QID, 0, 0, 0, 0, [], [], [], [])

  function BlankNames(n: nat): (w: seq<Str>)
    ensures |w| == n
  {
    seq(n, i => [])
  }

  function BlankQids(n: nat): (q: seq<Qid>)
    ensures |q| == n
  {
    seq(n, i => BLANK_QID)
  }

  /** The type numbers of the messages there are alternatives for. */
  predicate Known(t: byte) { 100 <= t <= 108 || 110 <= t <= 122 || 124 <= t <= 126 }

  /** The alternative of each type number. */
  predicate Selects(t: byte, b: Body) {
    && (b.Version? <==> t == 100 || t == 101)
    && (b.Auth? <==> t == 103)
    && (b.Attach? <==> t == 102 || t == 104)
    && (b.Error? <==> t == 106 || t == 107)
    && (b.Flush? <==> t == 108)
    && (b.Walk? <==> t == 110)
    && (b.Walked? <==> t == 111)
    && (b.Create? <==> t == 112 || t == 114)
    && (b.Open? <==> t == 105 || t == 113 || t == 115)
    && (b.IO? <==> 116 <= t <= 119)
    && (b.Full? <==> t == 120 || t == 122 || t == 124)
    && (b.Plain? <==> t == 121)
    && (b.Stats? <==> t == 125)
    && (b.WStat? <==> t == 126)
  }

  /** constructBlankStorage: the variant for a type; none for the types it throws on. */
  function Blank(ty: byte): (k: Option<Body>)
    ensures k.Some? <==> Known(ty)
    ensures k.Some? ==> Selects(ty, k.value)
  {
    if ty == T_VERSION || ty == R_VERSION then Some(Version(0, []))
    else if ty == T_FLUSH then Some(Flush(0))
    else if ty == R_OPEN || ty == R_CREATE || ty == R_ATTACH then Some(Open(BLANK_QID, 0))
    else if ty == T_ERROR || ty == R_ERROR then Some(Error([]))
    else if ty == R_AUTH then Some(Auth(BLANK_QID))
    else if ty == T_ATTACH || ty == T_AUTH then Some(Attach(0, [], []))
    else if ty == T_CREATE || ty == T_OPEN then Some(Create(0, [], 0))
    else if ty == T_WALK then Some(Walk(0, 0, BlankNames(WELEM)))
    else if ty == R_WALK then Some(Walked(0, BlankQids(WELEM)))
    else if ty == T_WSTAT then Some(WStat(BLANK_STAT))
    else if ty == R_STAT then Some(Stats(0, []))
    else if T_READ <= ty <= R_WRITE then Some(IO(0, 0, []))
    else if ty == T_CLUNK || ty == T_REMOVE || ty == T_STAT then Some(Full)
    else if ty == R_CLUNK then Some(Plain)
    else None
  }

  /** The same alternative of the variant. */
  predicate SameKind(a: Body, b: Body) {
    match a
    case Version(_, _) => b.Version?
    case Flush(_) => b.Flush?
    case Open(_, _) => b.Open?
    case Error(_) => b.Error?
    case Auth(_) => b.Auth?
    case Attach(_, _, _) => b.Attach?
    case Create(_, _, _) => b.Create?
    case Walk(_, _, _) => b.Walk?
    case Walked(_, _) => b.Walked?
    case WStat(_) => b.WStat?
    case Stats(_, _) => b.Stats?
    case IO(_, _, _) => b.IO?
    case Plain => b.Plain?
    case Full => b.Full?
  }

  /** The header's type is one for this alternative. */
  predicate Consistent(f: Fcall) {
    Blank(f.hdr.ty).Some? && SameKind(Blank(f.hdr.ty).value, f.body)
  }

  /** The arrays have their fixed length; a Stats has at least the bytes it announces. */
  predicate WellFormed(f: Fcall) {
    && (f.body.Walk? ==> |f.body.wname| == WELEM)
    && (f.body.Walked? ==> |f.body.wqid| == WELEM)
    && (f.body.Stats? ==> f.body.nstat <= |f.body.bytes|)
  }

  // ----- what is packed

  /** pstring keeps the length in 16 bits and copies that many bytes. */
  function Trunc(s: Str): (t: Str)
    ensures |t| < 0x1_0000
  {
    s[..|s| % 0x1_0000]
  }

  function EncStr(s: Str): seq<byte> {
    Le16(|Trunc(s)|) + Trunc(s)
  }

  function EncStrs(ss: seq<Str>): seq<byte> {
    if ss == [] then [] else EncStrs(ss[..|ss| - 1]) + EncStr(ss[|ss| - 1])
  }

  function EncQid(q: Qid): seq<byte> {
    [q.ty] + Le32(q.version) + Le64(q.path)
  }

  function EncQids(qs: seq<Qid>): seq<byte> {
    if qs == [] then [] else EncQids(qs[..|qs| - 1]) + EncQid(qs[|qs| - 1])
  }

  /** pdata of a std::string: `n` bytes of room, of which copy fills at most the string's length. */
  function Payload(data: Str, n: nat, stale: seq<byte>): (e: seq<byte>)
    requires |stale| == n
    ensures |e| == n
  {
    if n <= |data| then data[..n] else data + stale[|data|..]
  }

  /** Stat::size, before it is cut to 16 bits. */
  function StatLength(s: Stat): nat {
    49 + |s.name| + |s.uid| + |s.gid| + |s.muid|
  }

  function StatSize(s: Stat): u16 { StatLength(s) % 0x1_0000 }

  function EncStatHead(s: Stat): seq<byte> { Le16(s.ty) + Le32(s.dev) + EncQid(s.qid) }

  function EncStatTimes(s: Stat): seq<byte> { Le32(s.mode) + Le32(s.atime) + Le32(s.mtime) + Le64(s.length) }

  function EncStatFixed(s: Stat): seq<byte> { EncStatHead(s) + EncStatTimes(s) }

  function EncStatStrings(s: Stat): seq<byte> {
    EncStr(s.name) + EncStr(s.uid) + EncStr(s.gid) + EncStr(s.muid)
  }

  function EncStat(s: Stat): seq<byte> {
    Le16((StatSize(s) - 2) % 0x1_0000) + (EncStatFixed(s) + EncStatStrings(s))
  }

  /** What packing reads besides the message: the buffer's old bytes under a payload, and an uninitialised size. */
  datatype Env = Env(stale: seq<byte>, junk: u16)

  predicate EnvFits(f: Fcall, env: Env) {
    f.body.IO? ==> |env.stale| == f.body.count
  }

  function EncHdr(h: Hdr): seq<byte> { [h.ty] + Le16(h.tag) }

  predicate CountFits(f: Fcall) {
    && (f.body.Walk? ==> f.body.nwname <= WELEM)
    && (f.body.Walked? ==> f.body.nwqid <= WELEM)
  }

  function EncBody(f: Fcall, env: Env): seq<byte>
    requires WellFormed(f) && CountFits(f) && EnvFits(f, env)
  {
    var ty := f.hdr.ty;
    match f.body
    case Version(size, v) => Le32(size) + EncStr(v)
    case Flush(oldtag) => Le16(oldtag)
    case Open(qid, iounit) => EncQid(qid) + if ty != R_ATTACH then Le32(iounit) else []
    case Error(ename) => EncStr(ename)
    case Auth(aqid) => EncQid(aqid)
    case Attach(afid, uname, aname) =>
      (if ty == T_ATTACH then Le32(f.hdr.fid) else []) + (Le32(afid) + (EncStr(uname) + EncStr(aname)))
    case Create(perm, name, mode) =>
      Le32(f.hdr.fid) + ((if ty == T_CREATE then EncStr(name) + Le32(perm) else []) + [mode])
    case Walk(newfid, n, wname) => Le32(f.hdr.fid) + (Le32(newfid) + (Le16(n) + EncStrs(wname[..n])))
    case Walked(n, wqid) => Le16(n) + EncQids(wqid[..n])
    case WStat(stat) => Le32(f.hdr.fid) + (Le16(env.junk) + EncStat(stat))
    case Stats(n, bytes) => Le16(n) + bytes[..n]
    case IO(count, offset, data) =>
      (if ty == T_READ || ty == T_WRITE then Le32(f.hdr.fid) + Le64(offset) else []) + (Le32(count)
      + (if ty == R_READ || ty == T_WRITE then Payload(data, count, env.stale) else []))
    case Plain => []
    case Full => Le32(f.hdr.fid)
  }

  function Enc(f: Fcall, env: Env): seq<byte>
    requires WellFormed(f) && CountFits(f) && EnvFits(f, env)
  {
    EncHdr(f.hdr) + EncBody(f, env)
  }

  // ----- what is parsed, from position p of b

  function GetU8(b: seq<byte>, p: nat): (r: Parsed<byte>)
    ensures r.Got? <==> p + 1 <= |b|
    ensures r.Got? ==> r.next == p + 1
  {
    if p + 1 <= |b| then Got(b[p], p + 1) else Short
  }

  function GetU16(b: seq<byte>, p: nat): (r: Parsed<u16>)
    ensures r.Got? <==> p + 2 <= |b|
    ensures r.Got? ==> r.next == p + 2
  {
    if p + 2 <= |b| then Got(Of16(b[p], b[p + 1]), p + 2) else Short
  }

  function GetU32(b: seq<byte>, p: nat): (r: Parsed<u32>)
    ensures r.Got? <==> p + 4 <= |b|
    ensures r.Got? ==> r.next == p + 4
  {
    if p + 4 <= |b| then Got(Of32(Of16(b[p], b[p + 1]), Of16(b[p + 2], b[p + 3])), p + 4) else Short
  }

  function GetU64(b: seq<byte>, p: nat): (r: Parsed<u64>)
    ensures r.Got? <==> p + 8 <= |b|
    ensures r.Got? ==> r.next == p + 8
  {
    var (lo, q) :- GetU32(b, p);
    var (hi, r) :- GetU32(b, q);
    Got(Of64(lo, hi), r)
  }

  function GetBytes(b: seq<byte>, p: nat, n: nat): (r: Parsed<seq<byte>>)
    ensures r.Got? <==> p + n <= |b|
    ensures r.Got? ==> r.next == p + n && |r.value| == n
  {
    if p + n <= |b| then Got(b[p..p + n], p + n) else Short
  }

  function GetStr(b: seq<byte>, p: nat): (r: Parsed<Str>)
    ensures r.Got? ==> p < r.next <= |b|
  {
    var (n, q) :- GetU16(b, p);
    GetBytes(b, q, n)
  }

  function GetQid(b: seq<byte>, p: nat): (r: Parsed<Qid>)
    ensures r.Got? <==> p + 13 <= |b|
    ensures r.Got? ==> r.next == p + 13
  {
    var (ty, q) :- GetU8(b, p);
    var (version, r) :- GetU32(b, q);
    var (path, s) :- GetU64(b, r);
    Got(Qid(ty, version, path), s)
  }

  function GetQids(b: seq<byte>, p: nat, n: nat): (r: Parsed<seq<Qid>>)
    ensures r.Got? ==> |r.value| == n && p <= r.next <= |b|
  {
    if n == 0 then if p <= |b| then Got([], p) else Short
    else
      var (qs, q) :- GetQids(b, p, n - 1);
      var (qid, r) :- GetQid(b, q);
      Got(qs + [qid], r)
  }

  function GetStatFixed(b: seq<byte>, p: nat): (r: Parsed<Stat>)
    ensures r.Got? <==> p + 39 <= |b|
    ensures r.Got? ==> r.next == p + 39
  {
    var (ty, p1) :- GetU16(b, p);
    var (dev, p2) :- GetU32(b, p1);
    var (qid, p3) :- GetQid(b, p2);
    var (mode, p4) :- GetU32(b, p3);
    var (atime, p5) :- GetU32(b, p4);
    var (mtime, p6) :- GetU32(b, p5);
    var (length, p7) :- GetU64(b, p6);
    Got(Stat(ty, dev, qid, mode, atime, mtime, length, [], [], [], []), p7)
  }

  function GetStatStrings(b: seq<byte>, p: nat, s: Stat): (r: Parsed<Stat>)
    ensures r.Got? ==> p < r.next <= |b|
  {
    var (name, p1) :- GetStr(b, p);
    var (uid, p2) :- GetStr(b, p1);
    var (gid, p3) :- GetStr(b, p2);
    var (muid, p4) :- GetStr(b, p3);
    Got(s.(name := name, uid := uid, gid := gid, muid := muid), p4)
  }

  /** Stat::packUnpack reads its inner size and ignores it. */
  function GetStat(b: seq<byte>, p: nat): (r: Parsed<Stat>)
    ensures r.Got? ==> p < r.next <= |b|
  {
    var (size, p1) :- GetU16(b, p);
    var (s, p2) :- GetStatFixed(b, p1);
    GetStatStrings(b, p2, s)
  }

  function GetHdr(b: seq<byte>, p: nat): (r: Parsed<Hdr>)
    ensures r.Got? <==> p + 3 <= |b|
    ensures r.Got? ==> r.next == p + 3
  {
    var (ty, q) :- GetU8(b, p);
    var (tag, r) :- GetU16(b, q);
    Got(Hdr(ty, tag, 0), r)
  }

  function GetFidIf(carried: bool, b: seq<byte>, p: nat): (r: Parsed<u32>)
    ensures r.Got? ==> p <= r.next && (p <= |b| ==> r.next <= |b|)
  {
    if carried then GetU32(b, p) else Got(0, p)
  }

  /**
   The name loop of TWalk as it unpacks: each round reads a length and moves past the
   length only, so a name's bytes are read again as the next length.
   */
  function SkipNames(b: seq<byte>, p: nat, n: nat): (r: Parsed<()>)
    ensures r.Got? <==> p + 2 * n <= |b|
    ensures r.Got? ==> r.next == p + 2 * n
  {
    if p + 2 * n <= |b| then Got((), p + 2 * n) else Short
  }

  /** What one packUnpack in unpack mode reads after the header, for the alternative of `kind`. */
  function GetBody(kind: Body, h: Hdr, b: seq<byte>, p: nat): (r: Parsed<Fcall>)
  {
    match kind
    case Version(_, _) =>
      var (size, p1) :- GetU32(b, p);
      var (v, p2) :- GetStr(b, p1);
      Got(Fcall(h, Version(size, v)), p2)
    case Flush(_) =>
      var (oldtag, p1) :- GetU16(b, p);
      Got(Fcall(h, Flush(oldtag)), p1)
    case Open(_, _) =>
      var (qid, p1) :- GetQid(b, p);
      var (iounit, p2) :- GetFidIf(h.ty != R_ATTACH, b, p1);
      Got(Fcall(h, Open(qid, iounit)), p2)
    case Error(_) =>
      var (ename, p1) :- GetStr(b, p);
      Got(Fcall(h, Error(ename)), p1)
    case Auth(_) =>
      var (aqid, p1) :- GetQid(b, p);
      Got(Fcall(h, Auth(aqid)), p1)
    case Attach(_, _, _) =>
      var (fid, p1) :- GetFidIf(h.ty == T_ATTACH, b, p);
      var (afid, p2) :- GetU32(b, p1);
      var (uname, p3) :- GetStr(b, p2);
      var (aname, p4) :- GetStr(b, p3);
      Got(Fcall(h.(fid := fid), Attach(afid, uname, aname)), p4)
    case Create(_, _, _) =>
      var (fid, p1) :- GetU32(b, p);
      if h.ty == T_CREATE then
        var (name, p2) :- GetStr(b, p1);
        var (perm, p3) :- GetU32(b, p2);
        var (mode, p4) :- GetU8(b, p3);
        Got(Fcall(h.(fid := fid), Create(perm, name, mode)), p4)
      else
        var (mode, p2) :- GetU8(b, p1);
        Got(Fcall(h.(fid := fid), Create(0, [], mode)), p2)
    case Walk(_, _, _) =>
      var (fid, p1) :- GetU32(b, p);
      var (newfid, p2) :- GetU32(b, p1);
      var (n, p3) :- GetU16(b, p2);
      if n > WELEM then Short
      else
        var (unit, p4) :- SkipNames(b, p3, n);
        Got(Fcall(h.(fid := fid), Walk(newfid, n, BlankNames(WELEM))), p4)
    case Walked(_, _) =>
      var (n, p1) :- GetU16(b, p);
      if n > WELEM then Short
      else
        var (qs, p2) :- GetQids(b, p1, n);
        Got(Fcall(h, Walked(n, qs + BlankQids(WELEM - n))), p2)
    case WStat(_) =>
      var (fid, p1) :- GetU32(b, p);
      var (junk, p2) :- GetU16(b, p1);
      var (stat, p3) :- GetStat(b, p2);
      Got(Fcall(h.(fid := fid), WStat(stat)), p3)
    case Stats(_, _) =>
      var (n, p1) :- GetU16(b, p);
      var (bytes, p2) :- GetBytes(b, p1, n);
      Got(Fcall(h, Stats(n, bytes)), p2)
    case IO(_, _, _) =>
      GetIO(h, b, p)
    case Plain => if p <= |b| then Got(Fcall(h, Plain), p) else Short
    case Full =>
      var (fid, p1) :- GetU32(b, p);
      Got(Fcall(h.(fid := fid), Full), p1)
  }

  /** A count, and a payload of that size where one is carried. */
  function GetCounted(carried: bool, b: seq<byte>, p: nat): (r: Parsed<(u32, Str)>) {
    var (count, p1) :- GetU32(b, p);
    if carried then
      var (data, p2) :- GetBytes(b, p1, count);
      Got((count, data), p2)
    else Got((count, []), p1)
  }

  function GetIO(h: Hdr, b: seq<byte>, p: nat): (r: Parsed<Fcall>) {
    if h.ty == T_READ || h.ty == T_WRITE then
      var (fid, p1) :- GetU32(b, p);
      var (offset, p2) :- GetU64(b, p1);
      var (load, p3) :- GetCounted(h.ty == T_WRITE, b, p2);
      Got(Fcall(h.(fid := fid), IO(load.0, offset, load.1)), p3)
    else
      var (load, p1) :- GetCounted(h.ty == R_READ, b, p);
      Got(Fcall(h, IO(load.0, 0, load.1)), p1)
  }

  function GetFcall(kind: Body, b: seq<byte>, p: nat): (r: Parsed<Fcall>) {
    var (h, q) :- GetHdr(b, p);
    GetBody(kind, h, b, q)
  }

  // ----- the fields a kind carries

  predicate CarriesFid(f: Fcall) {
    var ty := f.hdr.ty;
    match f.body
    case Attach(_, _, _) => ty == T_ATTACH
    case IO(_, _, _) => ty == T_READ || ty == T_WRITE
    case Create(_, _, _) => true
    case Walk(_, _, _) => true
    case WStat(_) => true
    case Full => true
    case _ => false
  }

  /** `f` with every field its kind does not carry blanked; the names of a walk are left to the theorem on walks. */
  function Canon(f: Fcall): (g: Fcall)
    requires WellFormed(f)
    ensures WellFormed(g) && g.hdr.ty == f.hdr.ty && SameKind(g.body, f.body)
  {
    var ty := f.hdr.ty;
    var h := if CarriesFid(f) then f.hdr else f.hdr.(fid := 0);
    var body := match f.body
      case Open(qid, iounit) => Open(qid, if ty != R_ATTACH then iounit else 0)
      case Create(perm, name, mode) => if ty == T_CREATE then f.body else Create(0, [], mode)
      case Walk(newfid, n, _) => Walk(newfid, n, BlankNames(WELEM))
      case Walked(n, wqid) => if n <= WELEM then Walked(n, wqid[..n] + BlankQids(WELEM - n)) else f.body
      case IO(count, offset, data) =>
        IO(count, if ty == T_READ || ty == T_WRITE then offset else 0,
           if ty == R_READ || ty == T_WRITE then data else [])
      case _ => f.body;
    Fcall(h, body)
  }
}
