/**
 Where the bytes of a 9P message stand, kind by kind, in numbers (message.cc and
 convert.cc, as section 5 of the Plan 9 Programmer's Manual has them): written down
 without the encoding and the parser of Wire, and what both are measured against.
 */
module Layout {
  import opened Bytes
  import opened Wire
  import opened WireProofs

  // ----- fields

  /** The number whose lowest byte is the first of the `n` bytes at `p`. */
  function Num(b: seq<byte>, p: nat, n: nat): nat
    requires p + n <= |b|
    decreases n
  {
    if n == 0 then 0 else b[p] + 0x100 * Num(b, p + 1, n - 1)
  }

  predicate NumAt(b: seq<byte>, p: nat, n: nat, v: int) { p + n <= |b| && Num(b, p, n) == v }

  predicate BytesAt(b: seq<byte>, p: nat, s: seq<byte>) { p + |s| <= |b| && b[p..p + |s|] == s }

  /** A 16-bit length and so many bytes of the string. */
  predicate StrAt(b: seq<byte>, p: nat, s: Str) {
    var n := |s| % 0x1_0000;
    NumAt(b, p, 2, n) && BytesAt(b, p + 2, s[..n])
  }

  function AfterStr(p: nat, s: Str): nat { p + 2 + |s| % 0x1_0000 }

  predicate QidAt(b: seq<byte>, p: nat, q: Qid) {
    NumAt(b, p, 1, q.ty) && NumAt(b, p + 1, 4, q.version) && NumAt(b, p + 5, 8, q.path)
  }

  /** The fixed fields of a stat, behind its inner length. */
  predicate StatFixedAt(b: seq<byte>, p: nat, s: Stat) {
    && NumAt(b, p + 2, 2, s.ty) && NumAt(b, p + 4, 4, s.dev) && QidAt(b, p + 8, s.qid)
    && NumAt(b, p + 21, 4, s.mode) && NumAt(b, p + 25, 4, s.atime) && NumAt(b, p + 29, 4, s.mtime)
    && NumAt(b, p + 33, 8, s.length)
  }

  predicate StatAt(b: seq<byte>, p: nat, s: Stat) {
    && StatFixedAt(b, p, s)
    && StrAt(b, p + 41, s.name)
    && var p1 := AfterStr(p + 41, s.name);
       && StrAt(b, p1, s.uid)
       && var p2 := AfterStr(p1, s.uid);
          StrAt(b, p2, s.gid) && StrAt(b, AfterStr(p2, s.gid), s.muid)
  }

  function AfterStat(p: nat, s: Stat): nat {
    AfterStr(AfterStr(AfterStr(AfterStr(p + 41, s.name), s.uid), s.gid), s.muid)
  }

  /** As much of the payload as there is room for. */
  predicate DataAt(b: seq<byte>, p: nat, count: u32, data: Str) {
    BytesAt(b, p, if |data| <= count then data else data[..count])
  }

  // ----- messages

  /** Type and tag, and from byte 7 on the fields of the kind; what a kind does not carry may be anything. */
  ghost predicate Laid(f: Fcall, b: seq<byte>) {
    NumAt(b, 4, 1, f.hdr.ty) && NumAt(b, 5, 2, f.hdr.tag) && LaidBody(f, b)
  }

  ghost predicate LaidBody(f: Fcall, b: seq<byte>) {
    var ty, fid := f.hdr.ty, f.hdr.fid;
    match f.body
    case Version(msize, v) => NumAt(b, 7, 4, msize) && StrAt(b, 11, v)
    case Flush(oldtag) => NumAt(b, 7, 2, oldtag)
    case Open(qid, iounit) => QidAt(b, 7, qid) && (ty != 105 ==> NumAt(b, 20, 4, iounit))
    case Error(ename) => StrAt(b, 7, ename)
    case Auth(aqid) => QidAt(b, 7, aqid)
    case Attach(afid, uname, aname) =>
      var p := if ty == 104 then 11 else 7;
      && (ty == 104 ==> NumAt(b, 7, 4, fid))
      && NumAt(b, p, 4, afid) && StrAt(b, p + 4, uname) && StrAt(b, AfterStr(p + 4, uname), aname)
    case Create(perm, name, mode) =>
      && NumAt(b, 7, 4, fid)
      && if ty == 114 then
           var p := AfterStr(11, name);
           StrAt(b, 11, name) && NumAt(b, p, 4, perm) && NumAt(b, p + 4, 1, mode)
         else NumAt(b, 11, 1, mode)
    case Walk(newfid, n, _) => NumAt(b, 7, 4, fid) && NumAt(b, 11, 4, newfid) && NumAt(b, 15, 2, n)
    case Walked(n, wqid) =>
      NumAt(b, 7, 2, n) && n <= |wqid| && forall i :: 0 <= i < n ==> QidAt(b, 9 + 13 * i, wqid[i])
    case WStat(stat) => NumAt(b, 7, 4, fid) && StatAt(b, 13, stat)
    case Stats(n, bytes) => NumAt(b, 7, 2, n) && n <= |bytes| && BytesAt(b, 9, bytes[..n])
    case IO(count, offset, data) =>
      if ty == 116 || ty == 118 then
        && NumAt(b, 7, 4, fid) && NumAt(b, 11, 8, offset) && NumAt(b, 19, 4, count)
        && (ty == 118 ==> DataAt(b, 23, count, data))
      else NumAt(b, 7, 4, count) && (ty == 117 ==> DataAt(b, 11, count, data))
    case Plain => true
    case Full => NumAt(b, 7, 4, fid)
  }

  /** Where the message ends; for a TWalk, where its names would if they were empty. */
  function EndOf(f: Fcall): (e: nat)
    ensures e >= 7
  {
    var ty := f.hdr.ty;
    match f.body
    case Version(_, v) => AfterStr(11, v)
    case Flush(_) => 9
    case Open(_, _) => if ty == 105 then 20 else 24
    case Error(ename) => AfterStr(7, ename)
    case Auth(_) => 20
    case Attach(_, uname, aname) => AfterStr(AfterStr(if ty == 104 then 15 else 11, uname), aname)
    case Create(_, name, _) => if ty == 114 then AfterStr(11, name) + 5 else 12
    case Walk(_, n, _) => 17 + 2 * n
    case Walked(n, _) => 9 + 13 * n
    case WStat(stat) => AfterStat(13, stat)
    case Stats(n, _) => 9 + n
    case IO(count, _, _) =>
      if ty == 118 then 23 + count else if ty == 116 then 23 else if ty == 117 then 11 + count else 11
    case Plain => 7
    case Full => 11
  }

  // ----- the parser reads the fields there

  lemma Nums(b: seq<byte>, p: nat)
    ensures p + 1 <= |b| ==> Num(b, p, 1) == b[p]
    ensures p + 2 <= |b| ==> Num(b, p, 2) == Of16(b[p], b[p + 1])
    ensures p + 4 <= |b| ==> Num(b, p, 4) == Of32(Of16(b[p], b[p + 1]), Of16(b[p + 2], b[p + 3]))
  {
    if p + 2 <= |b| {
      NumStep(b, p, 2);
      NumStep(b, p + 1, 1);
    }
    if p + 4 <= |b| {
      NumStep(b, p, 4);
      NumStep(b, p + 1, 3);
      NumStep(b, p + 2, 2);
      NumStep(b, p + 3, 1);
    }
  }

  lemma {:induction false} NumJoin(b: seq<byte>, p: nat, n: nat, m: nat)
    requires p + n + m <= |b|
    ensures Num(b, p, n + m) == Num(b, p, n) + Power(n) * Num(b, p + n, m)
    decreases n
  {
    if n > 0 {
      NumJoin(b, p + 1, n - 1, m);
      hide Num;
      NumStep(b, p, n);
      NumStep(b, p, n + m);
      Shifted(Num(b, p + 1, n - 1), Power(n - 1), Num(b, p + n, m));
    }
  }

  lemma NumStep(b: seq<byte>, p: nat, n: nat)
    requires n > 0 && p + n <= |b|
    ensures Num(b, p, n) == b[p] as int + 0x100 * Num(b, p + 1, n - 1)
  {
  }

  lemma Shifted(a: nat, unit: nat, x: nat)
    ensures 0x100 * (a + unit * x) == 0x100 * a + (0x100 * unit) * x
  {
  }

  lemma ReadU8(b: seq<byte>, p: nat)
    ensures GetU8(b, p).Got? ==> NumAt(b, p, 1, GetU8(b, p).value)
  {
    Nums(b, p);
  }

  lemma ReadU16(b: seq<byte>, p: nat)
    ensures GetU16(b, p).Got? ==> NumAt(b, p, 2, GetU16(b, p).value)
  {
    hide Num;
    Nums(b, p);
  }

  lemma ReadU32(b: seq<byte>, p: nat)
    ensures GetU32(b, p).Got? ==> NumAt(b, p, 4, GetU32(b, p).value)
  {
    hide Num;
    Nums(b, p);
  }

  lemma ReadU64(b: seq<byte>, p: nat)
    ensures GetU64(b, p).Got? ==> NumAt(b, p, 8, GetU64(b, p).value)
  {
    hide Num, GetU32;
    ReadU32(b, p);
    ReadU32(b, p + 4);
    if p + 8 <= |b| {
      NumJoin(b, p, 4, 4);
      assert Power(4) == 0x1_0000_0000;
    }
  }

  lemma ReadStr(b: seq<byte>, p: nat)
    ensures var r := GetStr(b, p); r.Got? ==> StrAt(b, p, r.value) && r.next == AfterStr(p, r.value)
  {
    hide Num, GetU16;
    ReadU16(b, p);
    var r := GetStr(b, p);
    if r.Got? {
      assert r.value[..|r.value|] == r.value;
    }
  }

  lemma ReadQid(b: seq<byte>, p: nat)
    ensures var r := GetQid(b, p); r.Got? ==> QidAt(b, p, r.value) && r.next == p + 13
  {
    hide Num, GetU8, GetU32, GetU64;
    ReadU8(b, p);
    ReadU32(b, p + 1);
    ReadU64(b, p + 5);
  }

  lemma {:induction false} ReadQids(b: seq<byte>, p: nat, n: nat)
    ensures var r := GetQids(b, p, n);
            r.Got? ==> r.next == p + 13 * n && forall i :: 0 <= i < n ==> QidAt(b, p + 13 * i, r.value[i])
  {
    hide QidAt, GetQid;
    if n > 0 {
      ReadQids(b, p, n - 1);
      ReadQid(b, p + 13 * (n - 1));
    }
  }

  lemma ReadStatFixed(b: seq<byte>, p: nat)
    ensures var r := GetStatFixed(b, p + 2); r.Got? ==> StatFixedAt(b, p, r.value) && r.next == p + 41
  {
    hide NumAt, QidAt, GetU16, GetU32, GetU64, GetQid;
    ReadU16(b, p + 2);
    ReadU32(b, p + 4);
    ReadQid(b, p + 8);
    ReadU32(b, p + 21);
    ReadU32(b, p + 25);
    ReadU32(b, p + 29);
    ReadU64(b, p + 33);
  }

  lemma ReadStatStrings(b: seq<byte>, p: nat, s: Stat)
    requires StatFixedAt(b, p, s)
    ensures var r := GetStatStrings(b, p + 41, s); r.Got? ==> StatAt(b, p, r.value) && r.next == AfterStat(p, r.value)
  {
    hide NumAt, QidAt, StrAt, AfterStr, GetStr;
    var r := GetStatStrings(b, p + 41, s);
    if r.Got? {
      ReadStr(b, p + 41);
      var p1 := AfterStr(p + 41, r.value.name);
      ReadStr(b, p1);
      var p2 := AfterStr(p1, r.value.uid);
      ReadStr(b, p2);
      ReadStr(b, AfterStr(p2, r.value.gid));
    }
  }

  lemma ReadStat(b: seq<byte>, p: nat)
    ensures var r := GetStat(b, p); r.Got? ==> StatAt(b, p, r.value) && r.next == AfterStat(p, r.value)
  {
    hide StatFixedAt, StatAt, AfterStat, GetU16, GetStatFixed, GetStatStrings;
    ReadStatFixed(b, p);
    var r := GetStatFixed(b, p + 2);
    if r.Got? {
      ReadStatStrings(b, p, r.value);
    }
  }

  lemma ReadHdr(b: seq<byte>)
    ensures var r := GetHdr(b, 4); r.Got? ==> NumAt(b, 4, 1, r.value.ty) && NumAt(b, 5, 2, r.value.tag)
  {
    hide Num, GetU8, GetU16;
    ReadU8(b, 4);
    ReadU16(b, 5);
  }

  lemma ReadSimple(kind: Body, h: Hdr, b: seq<byte>)
    requires kind.Version? || kind.Flush? || kind.Open? || kind.Error? || kind.Auth?
          || kind.Stats? || kind.Plain? || kind.Full?
    ensures var r := GetBody(kind, h, b, 7);
            r.Got? ==> SameKind(r.value.body, kind) && LaidBody(r.value, b) && r.next == EndOf(r.value)
  {
    hide NumAt, QidAt, StrAt, AfterStr, GetU16, GetU32, GetQid, GetStr;
    ReadU16(b, 7);
    ReadU32(b, 7);
    ReadU32(b, 20);
    ReadQid(b, 7);
    ReadStr(b, 7);
    ReadStr(b, 11);
    var r := GetBody(kind, h, b, 7);
    if kind.Stats? && r.Got? {
      assert r.value.body.bytes[..r.value.body.nstat] == r.value.body.bytes;
    }
  }

  lemma ReadAttach(kind: Body, h: Hdr, b: seq<byte>)
    requires kind.Attach?
    ensures var r := GetBody(kind, h, b, 7);
            r.Got? ==> SameKind(r.value.body, kind) && LaidBody(r.value, b) && r.next == EndOf(r.value)
  {
    hide NumAt, StrAt, AfterStr, GetU32, GetStr;
    var r := GetBody(kind, h, b, 7);
    if r.Got? {
      var p := if h.ty == 104 then 11 else 7;
      ReadU32(b, 7);
      ReadU32(b, p);
      ReadStr(b, p + 4);
      ReadStr(b, AfterStr(p + 4, r.value.body.uname));
    }
  }

  lemma ReadCreate(kind: Body, h: Hdr, b: seq<byte>)
    requires kind.Create?
    ensures var r := GetBody(kind, h, b, 7);
            r.Got? ==> SameKind(r.value.body, kind) && LaidBody(r.value, b) && r.next == EndOf(r.value)
  {
    hide NumAt, StrAt, AfterStr, GetU8, GetU32, GetStr;
    var r := GetBody(kind, h, b, 7);
    if r.Got? {
      ReadU32(b, 7);
      ReadU8(b, 11);
      ReadStr(b, 11);
      var p := AfterStr(11, r.value.body.name);
      ReadU32(b, p);
      ReadU8(b, p + 4);
    }
  }

  lemma ReadWalks(kind: Body, h: Hdr, b: seq<byte>)
    requires kind.Walk? || kind.Walked? || kind.WStat?
    ensures var r := GetBody(kind, h, b, 7);
            r.Got? ==> SameKind(r.value.body, kind) && LaidBody(r.value, b) && r.next == EndOf(r.value)
  {
    hide NumAt, QidAt, StatAt, AfterStat, GetU16, GetU32, GetQids, GetStat;
    ReadU32(b, 7);
    ReadU32(b, 11);
    ReadU16(b, 15);
    ReadU16(b, 7);
    ReadStat(b, 13);
    var r := GetBody(kind, h, b, 7);
    if kind.Walked? && r.Got? {
      ReadQids(b, 9, r.value.body.nwqid);
    }
  }

  lemma ReadCounted(carried: bool, b: seq<byte>, p: nat)
    ensures var r := GetCounted(carried, b, p);
            r.Got? ==> && NumAt(b, p, 4, r.value.0) && r.next == p + 4 + (if carried then r.value.0 else 0)
                       && (carried ==> DataAt(b, p + 4, r.value.0, r.value.1))
  {
    hide NumAt, GetU32;
    ReadU32(b, p);
  }

  lemma ReadIO(kind: Body, h: Hdr, b: seq<byte>)
    requires kind.IO?
    ensures var r := GetBody(kind, h, b, 7);
            r.Got? ==> SameKind(r.value.body, kind) && LaidBody(r.value, b) && r.next == EndOf(r.value)
  {
    hide NumAt, DataAt, GetU32, GetU64, GetCounted;
    ReadU32(b, 7);
    ReadU64(b, 11);
    ReadCounted(h.ty == 118, b, 19);
    ReadCounted(h.ty == 117, b, 7);
  }

  /** Whatever parses in the alternative of `kind` has its fields at these places, and its end at this one. */
  lemma ParsedLaid(kind: Body, b: seq<byte>)
    ensures var r := GetFcall(kind, b, 4);
            r.Got? ==> SameKind(r.value.body, kind) && Laid(r.value, b) && r.next == EndOf(r.value)
  {
    hide LaidBody, EndOf, GetBody, GetHdr, NumAt, SameKind;
    ReadHdr(b);
    var r := GetHdr(b, 4);
    if r.Got? {
      var h := r.value;
      BodyHeader(kind, h, b);
      if kind.Attach? {
        ReadAttach(kind, h, b);
      } else if kind.Create? {
        ReadCreate(kind, h, b);
      } else if kind.Walk? || kind.Walked? || kind.WStat? {
        ReadWalks(kind, h, b);
      } else if kind.IO? {
        ReadIO(kind, h, b);
      } else {
        ReadSimple(kind, h, b);
      }
    }
  }

  /** The header comes out as it was read, but for the fid. */
  lemma BodyHeader(kind: Body, h: Hdr, b: seq<byte>)
    ensures var r := GetBody(kind, h, b, 7); r.Got? ==> r.value.hdr.ty == h.ty && r.value.hdr.tag == h.tag
  {
    hide GetU8, GetU16, GetU32, GetU64, GetStr, GetQid, GetQids, GetStat, GetFidIf, GetBytes, SkipNames, GetCounted;
  }

  // ----- and finds whatever stands there

  lemma FoundStr(b: seq<byte>, p: nat, s: Str)
    requires StrAt(b, p, s)
    ensures GetStr(b, p) == Got(s[..|s| % 0x1_0000], AfterStr(p, s))
  {
    hide Num, GetU16;
    ReadU16(b, p);
  }

  lemma FoundQids(b: seq<byte>, p: nat, n: nat)
    requires p + 13 * n <= |b|
    ensures GetQids(b, p, n).Got? && GetQids(b, p, n).next == p + 13 * n
  {
    hide GetQid;
    if n > 0 {
      FoundQids(b, p, n - 1);
    }
  }

  lemma FoundStat(b: seq<byte>, p: nat, s: Stat)
    requires StatAt(b, p, s)
    ensures GetStat(b, p).Got? && GetStat(b, p).next == AfterStat(p, s)
  {
    hide Num, StrAt, AfterStr, GetStr;
    FoundStr(b, p + 41, s.name);
    var p1 := AfterStr(p + 41, s.name);
    FoundStr(b, p1, s.uid);
    var p2 := AfterStr(p1, s.uid);
    FoundStr(b, p2, s.gid);
    FoundStr(b, AfterStr(p2, s.gid), s.muid);
    StatEnds(b, p, s);
  }

  lemma StatEnds(b: seq<byte>, p: nat, s: Stat)
    requires StatAt(b, p, s)
    ensures p + 41 <= |b|
  {
    hide Num;
  }

  /** The counts a walk and its answer may have. */
  predicate FewNames(f: Fcall) {
    (f.body.Walk? ==> f.body.nwname <= 16) && (f.body.Walked? ==> f.body.nwqid <= 16)
  }

  /** The message stands in `b`, whole. */
  ghost predicate Stands(f: Fcall, b: seq<byte>) {
    Laid(f, b) && EndOf(f) <= |b| && FewNames(f)
  }

  lemma FoundSimple(f: Fcall, b: seq<byte>)
    requires Stands(f, b)
    requires f.body.Version? || f.body.Flush? || f.body.Open? || f.body.Error? || f.body.Auth?
          || f.body.Stats? || f.body.Plain? || f.body.Full?
    ensures var r := GetBody(f.body, f.hdr.(fid := 0), b, 7); r.Got? && r.next == EndOf(f)
  {
    hide Num, StrAt, AfterStr, GetStr;
    match f.body
    case Version(_, v) => FoundStr(b, 11, v);
    case Error(ename) => FoundStr(b, 7, ename);
    case Stats(n, _) => ReadU16(b, 7);
    case _ =>
  }

  lemma FoundStrings(f: Fcall, b: seq<byte>)
    requires Stands(f, b) && (f.body.Attach? || f.body.Create? || f.body.WStat?)
    ensures var r := GetBody(f.body, f.hdr.(fid := 0), b, 7); r.Got? && r.next == EndOf(f)
  {
    hide Num, StrAt, AfterStr, StatAt, AfterStat, GetStr, GetStat;
    match f.body
    case Attach(_, uname, aname) =>
      var p := if f.hdr.ty == 104 then 15 else 11;
      FoundStr(b, p, uname);
      FoundStr(b, AfterStr(p, uname), aname);
    case Create(_, name, _) =>
      if f.hdr.ty == 114 {
        FoundStr(b, 11, name);
      }
    case WStat(stat) => FoundStat(b, 13, stat);
  }

  lemma FoundCounts(f: Fcall, b: seq<byte>)
    requires Stands(f, b) && (f.body.Walk? || f.body.Walked? || f.body.IO?)
    ensures var r := GetBody(f.body, f.hdr.(fid := 0), b, 7); r.Got? && r.next == EndOf(f)
  {
    hide Num, GetQids, QidAt;
    match f.body
    case Walk(_, _, _) => ReadU16(b, 15);
    case Walked(n, _) =>
      ReadU16(b, 7);
      FoundQids(b, 9, n);
    case IO(_, _, _) =>
      ReadU32(b, 7);
      ReadU32(b, 19);
  }

  lemma StandsParses(f: Fcall, kind: Body, b: seq<byte>)
    requires Stands(f, b) && SameKind(f.body, kind)
    ensures var r := GetFcall(kind, b, 4); r.Got? && r.next == EndOf(f)
  {
    StartsWithHeader(f, b);
    var h := f.hdr.(fid := 0);
    KindOnly(f.body, kind, h, b, 7);
    hide Stands, EndOf, GetBody, GetHdr, SameKind;
    if f.body.Attach? || f.body.Create? || f.body.WStat? {
      FoundStrings(f, b);
    } else if f.body.Walk? || f.body.Walked? || f.body.IO? {
      FoundCounts(f, b);
    } else {
      FoundSimple(f, b);
    }
  }

  lemma StartsWithHeader(f: Fcall, b: seq<byte>)
    requires Laid(f, b)
    ensures GetHdr(b, 4) == Got(f.hdr.(fid := 0), 7)
  {
    hide Num, LaidBody;
    ReadU8(b, 4);
    ReadU16(b, 5);
  }

  /**
   In the alternative of `kind` a text parses exactly when a message of that kind stands
   there whole, and then to such a message.
   */
  lemma ParsesExactly(kind: Body, b: seq<byte>)
    ensures var r := GetFcall(kind, b, 4);
            && (r.Got? <==> exists f: Fcall :: SameKind(f.body, kind) && Stands(f, b))
            && (r.Got? ==> SameKind(r.value.body, kind) && Stands(r.value, b) && r.next == EndOf(r.value))
  {
    var r := GetFcall(kind, b, 4);
    ParsedLaid(kind, b);
    WithinText(kind, b);
    hide Laid, EndOf, GetFcall, SameKind;
    forall f: Fcall | SameKind(f.body, kind) && Stands(f, b)
      ensures r.Got?
    {
      StandsParses(f, kind, b);
    }
    if r.Got? {
      assert Stands(r.value, b);
    }
  }

  lemma WithinText(kind: Body, b: seq<byte>)
    ensures var r := GetFcall(kind, b, 4); r.Got? ==> r.next <= |b| && FewNames(r.value)
  {
    hide GetU8, GetU16, GetU32, GetU64, GetBytes, GetStr, GetQid, GetQids, GetStat, GetFidIf, SkipNames;
  }

  // ----- packing puts them there

  /** The names of a walk one after the other, and where they end. */
  function NamesEnd(p: nat, ss: seq<Str>): nat {
    if ss == [] then p else AfterStr(NamesEnd(p, ss[..|ss| - 1]), ss[|ss| - 1])
  }

  ghost predicate NamesAt(b: seq<byte>, p: nat, ss: seq<Str>) {
    ss == [] || (NamesAt(b, p, ss[..|ss| - 1]) && StrAt(b, NamesEnd(p, ss[..|ss| - 1]), ss[|ss| - 1]))
  }

  /** Where a packed message ends. */
  function PackedEnd(f: Fcall): nat
    requires WellFormed(f) && FewNames(f)
  {
    if f.body.Walk? then NamesEnd(17, f.body.wname[..f.body.nwname]) else EndOf(f)
  }

  /** A whole packed message: its length in front, the fields, and what only packing writes. */
  ghost predicate LaidWhole(f: Fcall, b: seq<byte>)
    requires WellFormed(f) && FewNames(f)
  {
    && NumAt(b, 0, 4, |b|) && |b| == PackedEnd(f) && Laid(f, b)
    && (f.body.Walk? ==> NamesAt(b, 17, f.body.wname[..f.body.nwname]))
    && (f.body.WStat? ==> NumAt(b, 13, 2, (StatLength(f.body.stat) - 2) % 0x1_0000))
  }

  lemma PackedStr(b: seq<byte>, p: nat, s: Str)
    requires Has(b, p, EncStr(s))
    ensures StrAt(b, p, s) && p + |EncStr(s)| == AfterStr(p, s)
  {
    hide Num, GetStr;
    StrBack(b, p, s);
    ReadStr(b, p);
    assert Trunc(s)[..|Trunc(s)|] == s[..|s| % 0x1_0000];
  }

  lemma {:induction false} PackedNames(b: seq<byte>, p: nat, ss: seq<Str>)
    requires Has(b, p, EncStrs(ss))
    ensures NamesAt(b, p, ss) && NamesEnd(p, ss) == p + |EncStrs(ss)|
  {
    hide EncStr, StrAt, AfterStr;
    if ss != [] {
      var n := |ss| - 1;
      HasParts(b, p, EncStrs(ss[..n]), EncStr(ss[n]));
      PackedNames(b, p, ss[..n]);
      PackedStr(b, p + |EncStrs(ss[..n])|, ss[n]);
    }
  }

  /** Cutting strings to their packed length, blanking what is not carried and filling up a payload change no place. */
  lemma WiredLaid(f: Fcall, env: Env, b: seq<byte>)
    requires WellFormed(f) && CountFits(f) && EnvFits(f, env) && !f.body.Walk? && Laid(Wired(f, env), b)
    ensures Laid(f, b) && EndOf(Wired(f, env)) == EndOf(f)
  {
    SameHeader(f, env);
    hide Num, LaidBody, EndOf, Wired;
    if f.body.IO? {
      WiredIO(f, env, b);
    } else if f.body.WStat? {
      WiredStat(f, env, b);
    } else if f.body.Version? || f.body.Error? || f.body.Attach? || f.body.Create? {
      WiredStrings(f, env, b);
    } else {
      WiredRest(f, env, b);
    }
  }

  lemma SameHeader(f: Fcall, env: Env)
    requires WellFormed(f) && EnvFits(f, env)
    ensures Wired(f, env).hdr.ty == f.hdr.ty && Wired(f, env).hdr.tag == f.hdr.tag
  {
  }

  lemma WiredIO(f: Fcall, env: Env, b: seq<byte>)
    requires WellFormed(f) && f.body.IO? && EnvFits(f, env) && LaidBody(Wired(f, env), b)
    ensures LaidBody(f, b) && EndOf(Wired(f, env)) == EndOf(f)
  {
    hide NumAt, DataAt, Payload;
    PayloadWired(b, 11, f.body.count, f.body.data, env.stale);
    PayloadWired(b, 23, f.body.count, f.body.data, env.stale);
  }

  lemma WiredStat(f: Fcall, env: Env, b: seq<byte>)
    requires WellFormed(f) && f.body.WStat? && LaidBody(Wired(f, env), b)
    ensures LaidBody(f, b) && EndOf(Wired(f, env)) == EndOf(f)
  {
    hide NumAt, StatAt, AfterStat, TruncStat;
    StatWired(b, 13, f.body.stat);
  }

  lemma WiredStrings(f: Fcall, env: Env, b: seq<byte>)
    requires WellFormed(f) && (f.body.Version? || f.body.Error? || f.body.Attach? || f.body.Create?)
    requires LaidBody(Wired(f, env), b)
    ensures LaidBody(f, b) && EndOf(Wired(f, env)) == EndOf(f)
  {
    hide NumAt, StrAt, AfterStr, Trunc;
    match f.body
    case Version(_, v) => StrWired(b, 11, v);
    case Error(ename) => StrWired(b, 7, ename);
    case Attach(_, uname, aname) =>
      var p := if f.hdr.ty == 104 then 15 else 11;
      StrWired(b, p, uname);
      StrWired(b, AfterStr(p, uname), aname);
    case Create(_, name, _) => StrWired(b, 11, name);
  }

  lemma WiredRest(f: Fcall, env: Env, b: seq<byte>)
    requires WellFormed(f) && CountFits(f) && EnvFits(f, env) && LaidBody(Wired(f, env), b)
    requires f.body.Flush? || f.body.Open? || f.body.Auth? || f.body.Walked? || f.body.Stats? || f.body.Plain?
          || f.body.Full?
    ensures LaidBody(f, b) && EndOf(Wired(f, env)) == EndOf(f)
  {
    hide NumAt, QidAt;
    if f.body.Stats? {
      assert f.body.bytes[..f.body.nstat][..f.body.nstat] == f.body.bytes[..f.body.nstat];
    } else if f.body.Walked? {
      var qs := Wired(f, env).body.wqid;
      forall i | 0 <= i < f.body.nwqid
        ensures QidAt(b, 9 + 13 * i, f.body.wqid[i])
      {
        assert QidAt(b, 9 + 13 * i, qs[i]);
      }
    }
  }

  lemma StrWired(b: seq<byte>, p: nat, s: Str)
    ensures StrAt(b, p, Trunc(s)) <==> StrAt(b, p, s)
    ensures AfterStr(p, Trunc(s)) == AfterStr(p, s)
  {
    hide Num;
    assert Trunc(s)[..|Trunc(s)|] == s[..|s| % 0x1_0000];
  }

  lemma StatWired(b: seq<byte>, p: nat, s: Stat)
    ensures StatAt(b, p, TruncStat(s)) <==> StatAt(b, p, s)
    ensures AfterStat(p, TruncStat(s)) == AfterStat(p, s)
  {
    hide Num, QidAt, StrAt, AfterStr, Trunc;
    StrWired(b, p + 41, s.name);
    var p1 := AfterStr(p + 41, s.name);
    StrWired(b, p1, s.uid);
    var p2 := AfterStr(p1, s.uid);
    StrWired(b, p2, s.gid);
    StrWired(b, AfterStr(p2, s.gid), s.muid);
  }

  lemma PayloadWired(b: seq<byte>, p: nat, count: u32, data: Str, stale: seq<byte>)
    requires |stale| == count
    ensures DataAt(b, p, count, Payload(data, count, stale)) ==> DataAt(b, p, count, data)
  {
    var e := Payload(data, count, stale);
    if |data| <= count && DataAt(b, p, count, e) {
      assert b[p..p + |data|] == b[p..p + |e|][..|data|] == data;
    }
  }

  lemma BehindFour(e: seq<byte>) returns (b: seq<byte>)
    ensures Has(b, 4, e)
  {
    b := [0, 0, 0, 0] + e;
  }

  /** The place where a packed message ends is its length. */
  lemma PackedLength(f: Fcall, env: Env)
    requires WellFormed(f) && CountFits(f) && EnvFits(f, env)
    ensures FewNames(f) && PackedEnd(f) == 4 + |Enc(f, env)|
  {
    hide Enc, Laid, Wired, EndOf, GetFcall, NumAt, NamesAt, NamesEnd, WellFormed, EnvFits, Has;
    var b := BehindFour(Enc(f, env));
    ParsedLaid(f.body, b);
    if f.body.Walk? {
      PackedWalk(f, env, b);
    } else {
      AsPacked(f, env, b, 4);
      WiredLaid(f, env, b);
    }
  }

  /** A packed message, its length word in front, has every field in its place. */
  lemma PackedLaid(f: Fcall, env: Env, b: seq<byte>)
    requires WellFormed(f) && CountFits(f) && EnvFits(f, env)
    requires |b| < 0x1_0000_0000 && b == Le32(|b|) + Enc(f, env)
    ensures FewNames(f) && LaidWhole(f, b)
  {
    hide Enc, Laid, Wired, EndOf, GetFcall, NumAt, NamesAt, NamesEnd, WellFormed, EnvFits, Has;
    PackedLength(f, env);
    StartsWithLength(b, Enc(f, env));
    ParsedLaid(f.body, b);
    if f.body.Walk? {
      PackedWalk(f, env, b);
    } else {
      AsPacked(f, env, b, 4);
      WiredLaid(f, env, b);
    }
    if f.body.WStat? {
      PackedSize(f, env, b);
    }
  }

  lemma StartsWithLength(b: seq<byte>, e: seq<byte>)
    requires |b| < 0x1_0000_0000 && b == Le32(|b|) + e
    ensures NumAt(b, 0, 4, |b|) && |b| == 4 + |e| && Has(b, 4, e)
  {
    hide Num, Le;
    assert Has(b, 0, Le32(|b|));
    U32Back(b, 0, |b|);
    ReadU32(b, 0);
  }

  lemma PackedWalk(f: Fcall, env: Env, b: seq<byte>)
    requires WellFormed(f) && CountFits(f) && f.body.Walk? && Has(b, 4, Enc(f, env))
    ensures Laid(f, b) && NamesAt(b, 17, f.body.wname[..f.body.nwname])
    ensures NamesEnd(17, f.body.wname[..f.body.nwname]) == 4 + |Enc(f, env)|
  {
    var Walk(newfid, n, wname) := f.body;
    WalkBack(f, env, b, 4);
    ParsedLaid(f.body, b);
    hide GetFcall, Num, EncStrs, NamesAt, NamesEnd, Has, Le32, Le16;
    HasParts(b, 4, EncHdr(f.hdr), EncBody(f, env));
    HasParts(b, 7, Le32(f.hdr.fid), Le32(newfid) + (Le16(n) + EncStrs(wname[..n])));
    HasParts(b, 11, Le32(newfid), Le16(n) + EncStrs(wname[..n]));
    HasParts(b, 15, Le16(n), EncStrs(wname[..n]));
    PackedNames(b, 17, wname[..n]);
  }

  lemma PackedSize(f: Fcall, env: Env, b: seq<byte>)
    requires WellFormed(f) && f.body.WStat? && EnvFits(f, env) && Has(b, 4, Enc(f, env))
    ensures NumAt(b, 13, 2, (StatLength(f.body.stat) - 2) % 0x1_0000)
  {
    hide Le32, Le16, EncStatFixed, EncStatStrings, Num, GetU16;
    var stat := f.body.stat;
    var size: u16 := (StatSize(stat) - 2) % 0x1_0000;
    HasParts(b, 4, EncHdr(f.hdr), EncBody(f, env));
    HasParts(b, 7, Le32(f.hdr.fid), Le16(env.junk) + EncStat(stat));
    HasParts(b, 11, Le16(env.junk), EncStat(stat));
    HasParts(b, 13, Le16(size), EncStatFixed(stat) + EncStatStrings(stat));
    U16Back(b, 13, size);
    ReadU16(b, 13);
  }

  // ----- closing and its like

  /** The frame of an RClunk, and those of a TClunk, a TRemove and a TStat, parse by their length alone. */
  lemma BarelyParses(t: byte, kind: Body, b: seq<byte>)
    requires Selects(t, kind)
    ensures t == 121 && |b| >= 7 ==> GetFcall(kind, b, 4).Got? && GetFcall(kind, b, 4).next == 7
    ensures (t == 120 || t == 122 || t == 124) && |b| >= 11 ==>
              GetFcall(kind, b, 4).Got? && GetFcall(kind, b, 4).next == 11
  {
    hide GetU8, GetU16, GetU32;
  }

  /** What is not carried does not matter. */
  lemma CanonStands(f: Fcall, b: seq<byte>)
    requires WellFormed(f) && Stands(Canon(f), b)
    ensures Stands(f, b) && EndOf(f) == EndOf(Canon(f))
  {
    hide NumAt, QidAt, StrAt, AfterStr, StatAt, AfterStat, DataAt;
    if f.body.Walked? {
      forall i | 0 <= i < f.body.nwqid
        ensures QidAt(b, 9 + 13 * i, f.body.wqid[i])
      {
        assert QidAt(b, 9 + 13 * i, Canon(f).body.wqid[i]);
      }
    }
  }
}
