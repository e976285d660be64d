/**
 The message cursor (Msg.h, convert.cc): one set of procedures that packs or unpacks
 according to the cursor's mode.  A procedure that would move past the end moves the
 cursor all the same and leaves the memory alone, and the caller looks once at the end.

 While packing, ghost fields remember where the packing began, what memory held then,
 and the bytes it stands for so far; Tracks ties them to the buffer.
 */
module Message {
  import opened Bytes
  import opened Layout
  import opened Options
  import opened Wire

  datatype Mode = Pack | Unpack

  /**
   `mem` is `before` except that from `base` on it holds `log`, as far as `log` was
   written: all of it while the cursor `pos` is within `end`, and nothing outside
   [base, end) in any case.
   */
  ghost predicate Holds(mem: seq<byte>, before: seq<byte>, base: nat, log: seq<byte>, pos: nat, end: nat) {
    && end <= |mem| == |before|
    && pos == base + |log|
    && (forall i :: 0 <= i < |mem| && (i < base || i >= pos || i >= end) ==> mem[i] == before[i])
    && (pos <= end ==> mem[base..pos] == log)
  }

  lemma Writes(mem: seq<byte>, before: seq<byte>, base: nat, log: seq<byte>, pos: nat, end: nat, e: seq<byte>,
               mem': seq<byte>)
    requires Holds(mem, before, base, log, pos, end) && pos + |e| <= end
    requires mem' == mem[..pos] + e + mem[pos + |e|..]
    ensures Holds(mem', before, base, log + e, pos + |e|, end)
  {
    assert mem'[base..pos + |e|] == mem[base..pos] + e;
  }

  lemma Overshoots(mem: seq<byte>, before: seq<byte>, base: nat, log: seq<byte>, pos: nat, end: nat, e: seq<byte>)
    requires Holds(mem, before, base, log, pos, end) && pos + |e| > end
    ensures Holds(mem, before, base, log + e, pos + |e|, end)
  {
  }

  /** Copying a short payload leaves the rest of its room as it was before packing. */
  lemma WritesPadded(mem: seq<byte>, before: seq<byte>, base: nat, log: seq<byte>, pos: nat, end: nat,
                     e: seq<byte>, n: nat, mem': seq<byte>)
    requires Holds(mem, before, base, log, pos, end) && pos + n <= end && |e| <= n
    requires mem' == mem[..pos] + e + mem[pos + |e|..]
    ensures Holds(mem', before, base, log + Payload(e, n, Window(before, pos, n)), pos + n, end)
  {
    var rest := Window(before, pos, n)[|e|..];
    assert mem[pos + |e|..pos + n] == rest;
    assert mem' == mem[..pos] + (e + rest) + mem[pos + n..];
    assert e + rest == Payload(e, n, Window(before, pos, n));
    Writes(mem, before, base, log, pos, end, e + rest, mem');
  }

  function GetN(n: nat, b: seq<byte>, p: nat): (r: Parsed<u32>)
    requires n == 1 || n == 2 || n == 4
  {
    if n == 1 then GetU8(b, p) else if n == 2 then GetU16(b, p) else GetU32(b, p)
  }

  /** After unpacking: the parse's value and position, or a cursor past the end. */
  ghost predicate Took<T(!new)>(r: Parsed<T>, w: T, pos: nat, end: nat) {
    match r
    case Short => pos > end
    case Got(v, next) => v == w && next == pos && pos <= end
  }

  datatype Outcome = Threw | Returned(k: nat)

  const NO_ENV := Env([], 0)

  /** Where the payload of an IO body that starts at `p` begins. */
  function PayloadAt(f: Fcall, p: nat): nat {
    p + 4 + if f.hdr.ty == T_READ || f.hdr.ty == T_WRITE then 12 else 0
  }

  lemma Sealed(packed: seq<byte>, before: seq<byte>, e: seq<byte>, n: u32, end: nat, mem: seq<byte>)
    requires Holds(packed, before, 4, e, n, end) && n <= end && mem == Le32(n) + packed[4..]
    ensures mem[..n] == Le32(n) + e && mem[n..] == before[n..]
  {
  }

  lemma NothingHeld(mem: seq<byte>, size: nat)
    requires size <= |mem|
    ensures Holds(mem, mem, 4, [], 4, size)
    ensures forall now: seq<byte>, log, pos: nat :: Holds(now, mem, 4, log, pos, size) ==>
              |now| == |mem| && pos == 4 + |log| && now[size..] == mem[size..]
  {
  }

  lemma PlainIsEmpty(f: Fcall, b: seq<byte>, p: nat)
    requires f.body.Plain?
    ensures EncBody(f, NO_ENV) == []
    ensures GetBody(f.body, f.hdr.(fid := 0), b, p) == if p <= |b| then Got(Canon(f), p) else Short
  {
  }

  lemma NoQids(b: seq<byte>, p: nat, v: seq<Qid>)
    ensures EncQids(v[..0]) == []
    ensures p <= |b| ==> Took(GetQids(b, p, 0), v[..0], p, |b|)
  {
  }

  /** One more qid of a list is packed. */
  lemma QidsOn(log: seq<byte>, v: seq<Qid>, i: nat)
    requires i < |v|
    ensures log + EncQids(v[..i]) + EncQid(v[i]) == log + EncQids(v[..i + 1])
  {
    hide EncQid;
    assert v[..i + 1][..i] == v[..i];
    Append3(log, EncQids(v[..i]), EncQid(v[i]));
  }

  /** One more qid of a list is unpacked. */
  lemma TookQids(b: seq<byte>, p: nat, i: nat, w: seq<Qid>, q: Qid, pos: nat, pos': nat, end: nat)
    requires i < |w| && Took(GetQids(b, p, i), w[..i], pos, end) && Took(GetQid(b, pos), q, pos', end) && end == |b|
    requires pos > end ==> pos' > end
    ensures Took(GetQids(b, p, i + 1), w[i := q][..i + 1], pos', end)
  {
    hide GetQid;
    assert w[i := q][..i + 1] == w[..i] + [q];
  }

  lemma NoNames(v: seq<Str>)
    ensures EncStrs(v[..0]) == []
  {
  }

  /** One more name of a walk is packed. */
  lemma NamesOn(log: seq<byte>, v: seq<Str>, i: nat)
    requires i < |v|
    ensures log + EncStrs(v[..i]) + EncStr(v[i]) == log + EncStrs(v[..i + 1])
  {
    hide EncStr;
    assert v[..i + 1][..i] == v[..i];
    Append3(log, EncStrs(v[..i]), EncStr(v[i]));
  }

  /** The two strings of an attach. */
  function GetTwo(b: seq<byte>, p: nat): Parsed<(Str, Str)> {
    var (s, q) :- GetStr(b, p);
    var (t, r) :- GetStr(b, q);
    Got((s, t), r)
  }

  lemma AlwaysFits(f: Fcall)
    ensures !f.body.Walk? && !f.body.Walked? ==> CountFits(f)
    ensures !f.body.IO? ==> EnvFits(f, NO_ENV)
  {
  }

  lemma AttachLog(l: seq<byte>, e: seq<byte>, b: Body)
    requires b.Attach?
    ensures l + e + Le32(b.afid) + (EncStr(b.uname) + EncStr(b.aname))
            == l + (e + (Le32(b.afid) + (EncStr(b.uname) + EncStr(b.aname))))
  {
    hide Le32, EncStr;
    Append3(l + e, Le32(b.afid), EncStr(b.uname) + EncStr(b.aname));
    Append3(l, e, Le32(b.afid) + (EncStr(b.uname) + EncStr(b.aname)));
  }

  /** A message that is not packed has too many names or too few bytes of room. */
  lemma PlacesOf(f: Fcall, env: Env, size: u32)
    requires WellFormed(f) && EnvFits(f, env)
    ensures CountFits(f) && 4 + |Enc(f, env)| <= size <==> FewNames(f) && PackedEnd(f) <= size
  {
    hide Enc, PackedEnd, EnvFits, WellFormed;
    if CountFits(f) {
      PackedLength(f, env);
    }
  }

  /** What was unpacked stands in the text, and it was unpacked if something of its kind did. */
  lemma Unpacked(box: FcallBox, kind: Body, b: seq<byte>, pos: nat)
    requires box.FilledFrom(kind, b, 4, pos, |b|)
    ensures var f := box.storage.value;
            && (pos <= |b| <==> exists g: Fcall :: SameKind(g.body, f.body) && Stands(g, b))
            && (pos <= |b| ==> Stands(f, b) && pos == EndOf(f))
  {
    hide Stands, GetFcall, EndOf, SameKind;
    var f := box.storage.value;
    ParsesExactly(kind, b);
    KindsAgree(f.body, kind);
    if pos <= |b| && WellFormed(f) {
      CanonStands(f, b);
    }
  }

  lemma KindsAgree(a: Body, b: Body)
    requires SameKind(a, b)
    ensures forall k: Body :: SameKind(k, a) <==> SameKind(k, b)
  {
  }

  /** An empty Fcall, by the type in the text. */
  lemma UnpackedAs(box: FcallBox, b: seq<byte>, pos: nat)
    requires |b| >= 7 && Known(b[4]) && box.FilledFrom(Blank(b[4]).value, b, 4, pos, |b|)
    ensures var f := box.storage.value;
            && (pos <= |b| <==> exists g: Fcall :: SameKind(g.body, f.body) && Stands(g, b))
            && (pos <= |b| ==> Stands(f, b) && pos == EndOf(f))
    ensures (b[4] == 121 ==> pos == 7) && (b[4] in {120, 122, 124} && |b| >= 11 ==> pos == 11)
  {
    hide Stands, GetFcall, EndOf, Blank;
    var kind := Blank(b[4]).value;
    Unpacked(box, kind, b, pos);
    BarelyParses(b[4], kind, b);
  }

  lemma HeaderType(b: seq<byte>)
    ensures |b| >= 7 ==> GetHdr(b, 4).Got? && GetHdr(b, 4).value.ty == b[4]
    ensures |b| < 7 ==> GetHdr(b, 4).Short?
    ensures |b| >= 5 ==> (Blank(b[4]).Some? <==> Known(b[4]))
  {
  }

  lemma NothingStands(b: seq<byte>)
    requires |b| < 7
    ensures forall g :: !Stands(g, b)
  {
  }

  class Msg {
    var data: array<byte>
    var size: u32
    var pos: nat
    var end: nat
    var mode: Mode
    ghost var base: nat
    ghost var before: seq<byte>
    ghost var log: seq<byte>

    constructor (buf: array<byte>, length: u32, mode: Mode)
      requires length <= buf.Length
      ensures data == buf && size == length && pos == 0 && end == length && this.mode == mode
      ensures base == 0 && before == buf[..] && log == []
    {
      data, size, pos, end := buf, length, 0, length;
      this.mode := mode;
      base, before, log := 0, buf[..], [];
    }

    /** What there is to unpack. */
    ghost function Text(): seq<byte>
      requires end <= data.Length
      reads this, data
    {
      data[..end]
    }

    ghost predicate Tracks()
      reads this, data
    {
      Holds(data[..], before, base, log, pos, end)
    }

    /** Once past the end the cursor stays there, and nothing is modified. */
    twostate predicate Advanced()
      reads this, data
    {
      && (pos >= old(pos) || pos > end)
      && (old(pos) > end ==> data[..] == old(data[..]))
    }

    /** Past the end for good, with nothing written outside [base, end). */
    ghost predicate Spoiled()
      reads this, data
    {
      && end <= data.Length == |before| && pos > end
      && forall i :: 0 <= i < data.Length && (i < base || i >= end) ==> data[i] == before[i]
    }

    /** memcpy to the cursor. */
    method CopyIn(e: seq<byte>)
      requires pos + |e| <= data.Length
      modifies data
      ensures data[..] == old(data[..pos]) + e + old(data[pos + |e|..])
    {
      forall i | 0 <= i < |e| {
        data[pos + i] := e[i];
      }
    }

    /** The byte stores of puint. */
    method Poke(n: nat, v: u32)
      requires n == 1 || n == 2 || n == 4
      requires n == 1 ==> v < 0x100
      requires n == 2 ==> v < 0x1_0000
      requires pos + n <= data.Length
      modifies data
      ensures data[..] == old(data[..pos]) + Le(n, v) + old(data[pos + n..])
    {
      LeOctets(v);
      if n == 4 {
        data[pos + 3] := Octet(v, 3);
        data[pos + 2] := Octet(v, 2);
      }
      if n >= 2 {
        data[pos + 1] := Octet(v, 1);
      }
      data[pos] := Octet(v, 0);
    }

    /** puint<size> */
    method PUint(n: nat, v: u32) returns (w: u32)
      requires n == 1 || n == 2 || n == 4
      requires n == 1 ==> v < 0x100
      requires n == 2 ==> v < 0x1_0000
      requires end <= data.Length && (mode.Pack? ==> Tracks())
      modifies this`pos, this`log, data
      ensures pos == old(pos) + n && Advanced()
      ensures pos > end ==> data[..] == old(data[..]) && w == v
      ensures mode.Pack? ==> (Tracks() && w == v && log == old(log) + Le(n, v))
      ensures mode.Unpack? ==> (data[..] == old(data[..]) && log == old(log))
      ensures mode.Unpack? ==> Took(GetN(n, Text(), old(pos)), w, pos, end)
      ensures n == 1 ==> w < 0x100
      ensures n == 2 ==> w < 0x1_0000
    {
      hide Holds;
      w := v;
      ghost var mem := data[..];
      if pos + n <= end {
        match mode
        case Pack =>
          Poke(n, v);
        case Unpack =>
          w := if n == 1 then data[pos]
               else if n == 2 then Of16(data[pos], data[pos + 1])
               else Of32(Of16(data[pos], data[pos + 1]), Of16(data[pos + 2], data[pos + 3]));
      }
      if mode.Pack? {
        if pos + n <= end {
          Writes(mem, before, base, log, pos, end, Le(n, v), data[..]);
        } else {
          Overshoots(mem, before, base, log, pos, end, Le(n, v));
        }
        log := log + Le(n, v);
      }
      pos := pos + n;
    }

    method PU8(v: byte) returns (w: byte)
      requires end <= data.Length && (mode.Pack? ==> Tracks())
      modifies this`pos, this`log, data
      ensures Advanced() && pos == old(pos) + 1
      ensures mode.Pack? ==> (Tracks() && w == v && log == old(log) + [v])
      ensures mode.Unpack? ==> (data[..] == old(data[..]) && log == old(log))
      ensures mode.Unpack? ==> Took(GetU8(Text(), old(pos)), w, pos, end)
      ensures pos > end ==> data[..] == old(data[..]) && w == v
    {
      LeOctets(v);
      w := PUint(1, v);
    }

    method PU16(v: u16) returns (w: u16)
      requires end <= data.Length && (mode.Pack? ==> Tracks())
      modifies this`pos, this`log, data
      ensures Advanced()
      ensures mode.Pack? ==> (Tracks() && w == v && log == old(log) + Le16(v))
      ensures mode.Unpack? ==> (data[..] == old(data[..]) && log == old(log))
      ensures mode.Unpack? ==> Took(GetU16(Text(), old(pos)), w, pos, end)
      ensures pos > end ==> data[..] == old(data[..]) && w == v
      ensures pos == old(pos) + 2
    {
      w := PUint(2, v);
    }

    method PU32(v: u32) returns (w: u32)
      requires end <= data.Length && (mode.Pack? ==> Tracks())
      modifies this`pos, this`log, data
      ensures Advanced()
      ensures mode.Pack? ==> (Tracks() && w == v && log == old(log) + Le32(v))
      ensures mode.Unpack? ==> (data[..] == old(data[..]) && log == old(log))
      ensures mode.Unpack? ==> Took(GetU32(Text(), old(pos)), w, pos, end)
      ensures pos > end ==> data[..] == old(data[..]) && w == v
      ensures pos == old(pos) + 4
    {
      w := PUint(4, v);
    }

    /** pu32 of a field that not every message carries. */
    method PU32If(carried: bool, v: u32) returns (w: u32)
      requires end <= data.Length && (mode.Pack? ==> Tracks())
      modifies this`pos, this`log, data
      ensures Advanced() && pos == old(pos) + (if carried then 4 else 0)
      ensures mode.Pack? ==> (Tracks() && w == v && log == old(log) + if carried then Le32(v) else [])
      ensures mode.Unpack? ==> (data[..] == old(data[..]) && log == old(log))
      ensures mode.Unpack? && old(pos) <= end ==>
                Took(GetFidIf(carried, Text(), old(pos)), if carried then w else 0, pos, end)
    {
      w := v;
      if carried {
        w := PU32(v);
      }
    }

    /** Two halves: when only the low one fits it is packed or unpacked, though the whole is not. */
    method PU64(v: u64) returns (w: u64)
      requires end <= data.Length && (mode.Pack? ==> Tracks())
      modifies this`pos, this`log, data
      ensures Advanced()
      ensures mode.Pack? ==> (Tracks() && w == v && log == old(log) + Le64(v))
      ensures mode.Unpack? ==> (data[..] == old(data[..]) && log == old(log))
      ensures mode.Unpack? ==> Took(GetU64(Text(), old(pos)), w, pos, end)
      ensures pos == old(pos) + 8
      ensures old(pos) + 4 > end ==> data[..] == old(data[..]) && w == v
      ensures mode.Pack? && old(pos) + 4 <= end < old(pos) + 8 ==>
                data[..] == old(data[..pos]) + Le32(v % 0x1_0000_0000) + old(data[pos + 4..])
      ensures mode.Unpack? && old(pos) + 4 <= end < old(pos) + 8 ==>
                var low := GetU32(Text(), old(pos));
                low.Got? && w == Of64(low.value, v / 0x1_0000_0000)
    {
      var vl := v % 0x1_0000_0000;
      var vb := v / 0x1_0000_0000;
      ghost var l0 := log;
      vl := PU32(vl);
      vb := PU32(vb);
      Append3(l0, Le32(v % 0x1_0000_0000), Le32(v / 0x1_0000_0000));
      LeHalves(v);
      w := Of64(vl, vb);
    }

    /** Bytes at the cursor: `e` when packing, whatever is there when unpacking; skipped when they do not fit. */
    method PBytes(e: seq<byte>, n: nat, v: seq<byte>) returns (w: seq<byte>)
      requires end <= data.Length && (mode.Pack? ==> Tracks() && |e| <= n)
      modifies this`pos, this`log, data
      ensures pos == old(pos) + n && Advanced()
      ensures pos > end ==> data[..] == old(data[..]) && w == v
      ensures mode.Pack? ==> (Tracks() && w == v && log == old(log) + Payload(e, n, Window(before, old(pos), n)))
      ensures mode.Unpack? ==> (data[..] == old(data[..]) && log == old(log))
      ensures mode.Unpack? ==> Took(GetBytes(Text(), old(pos), n), w, pos, end)
    {
      hide Holds;
      w := v;
      ghost var mem := data[..];
      if pos + n <= end {
        match mode
        case Unpack =>
          w := data[pos..pos + n];
          assert Text()[pos..pos + n] == w;
        case Pack =>
          CopyIn(e);
      }
      if mode.Pack? {
        ghost var all := Payload(e, n, Window(before, pos, n));
        if pos + n <= end {
          WritesPadded(mem, before, base, log, pos, end, e, n, data[..]);
        } else {
          Overshoots(mem, before, base, log, pos, end, all);
        }
        log := log + all;
      }
      pos := pos + n;
    }

    /** pdata of a std::string, whose copy stops at the string's length. */
    method PData(v: Str, n: u32) returns (w: Str)
      requires end <= data.Length && (mode.Pack? ==> Tracks())
      modifies this`pos, this`log, data
      ensures pos == old(pos) + n && Advanced()
      ensures pos > end ==> data[..] == old(data[..]) && w == v
      ensures mode.Pack? ==> (Tracks() && w == v && log == old(log) + Payload(v, n, Window(before, old(pos), n)))
      ensures mode.Unpack? ==> (data[..] == old(data[..]) && log == old(log))
      ensures mode.Unpack? ==> Took(GetBytes(Text(), old(pos), n), w, pos, end)
    {
      var e := if n <= |v| then v[..n] else v;
      w := PBytes(e, n, v);
    }

    /** pstring: the length word is packed when it fits, even if the string then does not. */
    method PString(v: Str) returns (w: Str)
      requires end <= data.Length && (mode.Pack? ==> Tracks())
      modifies this`pos, this`log, data
      ensures Advanced()
      ensures mode.Pack? ==> (Tracks() && w == v && log == old(log) + EncStr(v))
      ensures mode.Unpack? ==> (data[..] == old(data[..]) && log == old(log))
      ensures mode.Unpack? ==> Took(GetStr(Text(), old(pos)), w, pos, end)
      ensures pos > end ==> w == v
      ensures old(pos) + 2 > end ==> data[..] == old(data[..])
      ensures mode.Pack? && old(pos) + 2 <= end < pos ==>
                data[..] == old(data[..pos]) + Le16(|Trunc(v)|) + old(data[pos + 2..])
    {
      ghost var l0 := log;
      var len: u16 := *;
      if mode.Pack? {
        len := |v| % 0x1_0000;
      }
      len := PU16(len);
      w := PBytes(if mode.Pack? then v[..len] else [], len, v);
      Append3(l0, Le16(|Trunc(v)|), Trunc(v));
    }

    /** Qid::packUnpack */
    method PQid(v: Qid) returns (w: Qid)
      requires end <= data.Length && (mode.Pack? ==> Tracks())
      modifies this`pos, this`log, data
      ensures Advanced() && pos == old(pos) + 13
      ensures mode.Pack? ==> (Tracks() && w == v && log == old(log) + EncQid(v))
      ensures mode.Unpack? ==> (data[..] == old(data[..]) && log == old(log))
      ensures mode.Unpack? ==> Took(GetQid(Text(), old(pos)), w, pos, end)
    {
      ghost var l0 := log;
      var ty := PU8(v.ty);
      var version := PU32(v.version);
      var path := PU64(v.path);
      Append3(l0, [v.ty], Le32(v.version));
      Append3(l0, [v.ty] + Le32(v.version), Le64(v.path));
      w := Qid(ty, version, path);
    }

    /** After `i` rounds of the loop of pqids; `mem`, `p` and `l` are buffer, cursor and log at its start. */
    ghost predicate QidsSoFar(v: seq<Qid>, w: seq<Qid>, i: nat, mem: seq<byte>, p: nat, l: seq<byte>)
      reads this, data
    {
      && i <= |v| == |w| && end <= data.Length == |mem| && (pos >= p || pos > end)
      && (p > end || mode.Unpack? ==> data[..] == mem)
      && (mode.Pack? ==> Tracks() && w == v && log == l + EncQids(v[..i]))
      && (mode.Unpack? ==> log == l && (p <= end ==> Took(GetQids(mem[..end], p, i), w[..i], pos, end)))
    }

    method PQidOne(v: seq<Qid>, u: seq<Qid>, i: nat, ghost mem: seq<byte>, ghost p: nat, ghost l: seq<byte>)
      returns (w: seq<Qid>)
      requires i < |v| && QidsSoFar(v, u, i, mem, p, l)
      modifies this`pos, this`log, data
      ensures QidsSoFar(v, w, i + 1, mem, p, l)
    {
      hide Tracks, Holds, EncQid, GetQid, EncQids, GetQids;
      ghost var p0 := pos;
      var q := PQid(u[i]);
      w := u[i := q];
      if mode.Pack? {
        QidsOn(l, v, i);
      } else if p <= end {
        TookQids(mem[..end], p, i, u, q, p0, pos, end);
      }
    }

    /** The loop of pqids. */
    method PQidLoop(n: u16, v: seq<Qid>) returns (w: seq<Qid>)
      requires n <= WELEM == |v| && end <= data.Length && (mode.Pack? ==> Tracks())
      modifies this`pos, this`log, data
      ensures |w| == WELEM && Advanced()
      ensures mode.Pack? ==> (Tracks() && w == v && log == old(log) + EncQids(v[..n]))
      ensures mode.Unpack? ==> (data[..] == old(data[..]) && log == old(log))
      ensures mode.Unpack? && old(pos) <= end ==> Took(GetQids(Text(), old(pos), n), w[..n], pos, end)
    {
      NoQids(Text(), pos, v);
      hide Tracks, Holds, EncQids, GetQids, Took;
      w := v;
      ghost var mem, p, l := data[..], pos, log;
      assert QidsSoFar(v, w, 0, mem, p, l);
      var i := 0;
      while i < n
        invariant 0 <= i <= n && QidsSoFar(v, w, i, mem, p, l)
      {
        w := PQidOne(v, w, i, mem, p, l);
        i := i + 1;
      }
    }

    /** pqids */
    method PQids(n: u16, v: seq<Qid>) returns (m: u16, w: seq<Qid>)
      requires |v| == WELEM && end <= data.Length && (mode.Pack? ==> Tracks())
      modifies this`pos, this`log, data
      ensures |w| == WELEM && Advanced()
      ensures mode.Pack? ==> m == n && w == v
      ensures mode.Pack? && n <= WELEM ==> (Tracks() && log == old(log) + (Le16(n) + EncQids(v[..n])))
      ensures mode.Pack? && n > WELEM ==> Spoiled()
      ensures mode.Unpack? ==> (data[..] == old(data[..]) && log == old(log))
      ensures mode.Unpack? ==> match GetU16(Text(), old(pos))
                               case Short => pos > end
                               case Got(k, p) => m == k && if k > WELEM then pos > end
                                                           else Took(GetQids(Text(), p, k), w[..k], pos, end)
    {
      hide Le16, GetU16, EncQids, GetQids;
      m := PU16(n);
      w := v;
      if m > WELEM {
        pos := end + 1;
        return;
      }
      w := PQidLoop(m, v);
      Append3(old(log), Le16(n), EncQids(v[..m]));
    }

    /** Stat::packUnpack, the first three fields. */
    method PStatHead(v: Stat) returns (ty: u16, dev: u32, qid: Qid)
      requires end <= data.Length && (mode.Pack? ==> Tracks())
      modifies this`pos, this`log, data
      ensures Advanced() && pos == old(pos) + 19
      ensures mode.Pack? ==>
                ty == v.ty && dev == v.dev && qid == v.qid && Tracks() && log == old(log) + EncStatHead(v)
      ensures mode.Unpack? ==> (data[..] == old(data[..]) && log == old(log))
      ensures mode.Unpack? && pos <= end ==>
                && GetU16(Text(), old(pos)) == Got(ty, old(pos) + 2)
                && GetU32(Text(), old(pos) + 2) == Got(dev, old(pos) + 6)
                && GetQid(Text(), old(pos) + 6) == Got(qid, pos)
    {
      hide Tracks, Holds, Le16, Le32, EncQid, GetU16, GetU32, GetQid;
      ghost var l0 := log;
      ty := PU16(v.ty);
      dev := PU32(v.dev);
      Append3(l0, Le16(v.ty), Le32(v.dev));
      qid := PQid(v.qid);
      Append3(l0, Le16(v.ty) + Le32(v.dev), EncQid(v.qid));
    }

    /** Stat::packUnpack, the mode, the times and the length. */
    method PStatTimes(v: Stat) returns (mo: u32, atime: u32, mtime: u32, length: u64)
      requires end <= data.Length && (mode.Pack? ==> Tracks())
      modifies this`pos, this`log, data
      ensures Advanced() && pos == old(pos) + 20
      ensures mode.Pack? ==>
                && mo == v.mode && atime == v.atime && mtime == v.mtime && length == v.length
                && Tracks() && log == old(log) + EncStatTimes(v)
      ensures mode.Unpack? ==> (data[..] == old(data[..]) && log == old(log))
      ensures mode.Unpack? && pos <= end ==>
                && GetU32(Text(), old(pos)) == Got(mo, old(pos) + 4)
                && GetU32(Text(), old(pos) + 4) == Got(atime, old(pos) + 8)
                && GetU32(Text(), old(pos) + 8) == Got(mtime, old(pos) + 12)
                && GetU64(Text(), old(pos) + 12) == Got(length, pos)
    {
      hide Tracks, Holds, Le32, Le64, GetU32, GetU64;
      ghost var l0 := log;
      mo := PU32(v.mode);
      atime := PU32(v.atime);
      Append3(l0, Le32(v.mode), Le32(v.atime));
      mtime := PU32(v.mtime);
      Append3(l0, Le32(v.mode) + Le32(v.atime), Le32(v.mtime));
      length := PU64(v.length);
      Append3(l0, Le32(v.mode) + Le32(v.atime) + Le32(v.mtime), Le64(v.length));
    }

    /** Stat::packUnpack, the fields of fixed size. */
    method PStatFixed(v: Stat) returns (w: Stat)
      requires end <= data.Length && (mode.Pack? ==> Tracks())
      modifies this`pos, this`log, data
      ensures Advanced()
      ensures mode.Pack? ==> (Tracks() && w == v && log == old(log) + EncStatFixed(v))
      ensures mode.Unpack? ==> (data[..] == old(data[..]) && log == old(log))
      ensures mode.Unpack? ==>
                Took(GetStatFixed(Text(), old(pos)), w.(name := [], uid := [], gid := [], muid := []), pos, end)
    {
      hide Tracks, Holds, EncStatHead, EncStatTimes, GetU16, GetU32, GetU64, GetQid;
      var ty, dev, qid := PStatHead(v);
      var mo, atime, mtime, length := PStatTimes(v);
      Append3(old(log), EncStatHead(v), EncStatTimes(v));
      w := Stat(ty, dev, qid, mo, atime, mtime, length, v.name, v.uid, v.gid, v.muid);
    }

    /** Stat::packUnpack, the strings. */
    method PStatStrings(v: Stat) returns (w: Stat)
      requires end <= data.Length && (mode.Pack? ==> Tracks())
      modifies this`pos, this`log, data
      ensures Advanced()
      ensures mode.Pack? ==> (Tracks() && w == v && log == old(log) + EncStatStrings(v))
      ensures mode.Unpack? ==> (data[..] == old(data[..]) && log == old(log))
      ensures mode.Unpack? ==>
                Took(GetStatStrings(Text(), old(pos), v.(name := [], uid := [], gid := [], muid := [])), w, pos, end)
    {
      hide EncStr, GetStr;
      ghost var l0 := log;
      ghost var e1 := EncStr(v.name) + EncStr(v.uid);
      var name := PString(v.name);
      var uid := PString(v.uid);
      Append3(l0, EncStr(v.name), EncStr(v.uid));
      var gid := PString(v.gid);
      Append3(l0, e1, EncStr(v.gid));
      var muid := PString(v.muid);
      Append3(l0, e1 + EncStr(v.gid), EncStr(v.muid));
      w := v.(name := name, uid := uid, gid := gid, muid := muid);
    }

    /** Stat::packUnpack */
    method PStat(v: Stat) returns (w: Stat)
      requires end <= data.Length && (mode.Pack? ==> Tracks())
      modifies this`pos, this`log, data
      ensures Advanced()
      ensures mode.Pack? ==> (Tracks() && w == v && log == old(log) + EncStat(v))
      ensures mode.Unpack? ==> (data[..] == old(data[..]) && log == old(log))
      ensures mode.Unpack? ==> Took(GetStat(Text(), old(pos)), w, pos, end)
    {
      hide Le16, EncStatFixed, EncStatStrings, GetU16, GetStatFixed, GetStatStrings;
      ghost var l0 := log;
      var total: u16 := 0;
      if mode.Pack? {
        total := (StatSize(v) - 2) % 0x1_0000;
      }
      ghost var e0 := Le16(total);
      total := PU16(total);
      w := PStatFixed(v);
      Append3(l0, e0, EncStatFixed(v));
      w := PStatStrings(w);
      Append3(l0, e0 + EncStatFixed(v), EncStatStrings(v));
      Append3(e0, EncStatFixed(v), EncStatStrings(v));
    }

    /** A name read at `p`: the bytes after its length, if they are inside the text. */
    static ghost predicate NameAt(b: seq<byte>, p: nat, s: Str) {
      var r := GetU16(b, p);
      r.Got? && r.next + r.value <= |b| ==> s == b[r.next..r.next + r.value]
    }

    /** One round of pstrings over std::string: unpacking does not move past the name, and reads it unchecked. */
    method PName(v: Str) returns (w: Str)
      requires end <= data.Length && (mode.Pack? ==> Tracks())
      modifies this`pos, this`log, data
      ensures Advanced()
      ensures mode.Pack? ==> (Tracks() && w == v && log == old(log) + EncStr(v))
      ensures mode.Unpack? ==> (data[..] == old(data[..]) && log == old(log))
      ensures mode.Unpack? ==> pos == old(pos) + 2 && NameAt(Text(), old(pos), w)
    {
      match mode
      case Pack =>
        w := PString(v);
      case Unpack =>
        var len := PU16(0);
        w := *;
        if pos + len <= data.Length {
          w := data[pos..pos + len];
        }
        assert pos + len <= end ==> Text()[pos..pos + len] == w;
    }

    /** The loop of pstrings. */
    method PNameLoop(n: u16, v: seq<Str>) returns (w: seq<Str>)
      requires n <= WELEM == |v| && end <= data.Length && (mode.Pack? ==> Tracks())
      modifies this`pos, this`log, data
      ensures |w| == WELEM && Advanced()
      ensures mode.Pack? ==> (Tracks() && w == v && log == old(log) + EncStrs(v[..n]))
      ensures mode.Unpack? ==> (data[..] == old(data[..]) && log == old(log) && pos == old(pos) + 2 * n)
      ensures mode.Unpack? ==> forall i :: 0 <= i < n ==> NameAt(Text(), old(pos) + 2 * i, w[i])
    {
      NoNames(v);
      hide Tracks, Holds, EncStr, EncStrs, NameAt;
      w := v;
      ghost var p1, l1 := pos, log;
      var i := 0;
      while i < n
        invariant 0 <= i <= n && |w| == WELEM && end <= data.Length
        invariant (pos >= p1 || pos > end) && (p1 > end ==> data[..] == old(data[..]))
        invariant mode.Pack? ==> (Tracks() && w == v && log == l1 + EncStrs(v[..i]))
        invariant mode.Unpack? ==> (data[..] == old(data[..]) && log == l1 && pos == p1 + 2 * i)
        invariant mode.Unpack? ==> forall j :: 0 <= j < i ==> NameAt(Text(), p1 + 2 * j, w[j])
      {
        var s := PName(w[i]);
        w := w[i := s];
        NamesOn(l1, v, i);
        i := i + 1;
      }
    }

    /** pstrings over std::string: unpacking reads each name without moving past it, and unchecked. */
    method PStrings(n: u16, v: seq<Str>) returns (m: u16, w: seq<Str>)
      requires |v| == WELEM && end <= data.Length && (mode.Pack? ==> Tracks())
      modifies this`pos, this`log, data
      ensures |w| == WELEM && Advanced()
      ensures mode.Pack? ==> m == n && w == v
      ensures mode.Pack? && n <= WELEM ==> (Tracks() && log == old(log) + (Le16(n) + EncStrs(v[..n])))
      ensures mode.Pack? && n > WELEM ==> Spoiled()
      ensures mode.Unpack? ==> (data[..] == old(data[..]) && log == old(log))
      ensures mode.Unpack? ==> match GetU16(Text(), old(pos))
                               case Short => pos > end
                               case Got(k, p) =>
                                 m == k && if k > WELEM then pos > end
                                           else (Took(SkipNames(Text(), p, k), (), pos, end)
                                                 && forall i :: 0 <= i < k ==> NameAt(Text(), p + 2 * i, w[i]))
    {
      hide Le16, EncStrs, GetU16, NameAt;
      m := PU16(n);
      w := v;
      if m > WELEM {
        pos := end + 1;
        return;
      }
      w := PNameLoop(m, v);
      Append3(old(log), Le16(n), EncStrs(v[..m]));
    }

    /** FVersion::packUnpack, after the header */
    method PVersion(f: Fcall) returns (g: Fcall)
      requires f.body.Version? && WellFormed(f) && end <= data.Length && (mode.Pack? ==> Tracks())
      modifies this`pos, this`log, data
      ensures g.body.Version? && g.hdr.ty == f.hdr.ty && g.hdr.tag == f.hdr.tag && Advanced()
      ensures mode.Pack? ==> (g == f && Tracks() && log == old(log) + EncBody(f, NO_ENV))
      ensures mode.Unpack? ==> (data[..] == old(data[..]) && log == old(log))
      ensures mode.Unpack? ==>
                Took(GetBody(f.body, f.hdr.(fid := 0), Text(), old(pos)),
                     if WellFormed(g) then Canon(g) else g, pos, end)
    {
      hide Le16, Le32, Le64, EncStr, EncQid, EncStat, GetU8, GetU16, GetU32, GetU64, GetStr, GetQid, GetStat, GetBytes;
      hide Tracks, Holds;
      var msize := PU32(f.body.msize);
      var version := PString(f.body.version);
      Append3(old(log), Le32(f.body.msize), EncStr(f.body.version));
      g := f.(body := Version(msize, version));
    }

    method PTwo(s: Str, t: Str) returns (v: Str, w: Str)
      requires end <= data.Length && (mode.Pack? ==> Tracks())
      modifies this`pos, this`log, data
      ensures Advanced()
      ensures mode.Pack? ==> (v == s && w == t && Tracks() && log == old(log) + (EncStr(s) + EncStr(t)))
      ensures mode.Unpack? ==> (data[..] == old(data[..]) && log == old(log))
      ensures mode.Unpack? ==> Took(GetTwo(Text(), old(pos)), (v, w), pos, end)
    {
      hide Tracks, Holds, EncStr, GetStr;
      v := PString(s);
      w := PString(t);
      Append3(old(log), EncStr(s), EncStr(t));
    }

    /** FAttach::packUnpack, after the header */
    method PAttach(f: Fcall) returns (g: Fcall)
      requires f.body.Attach? && WellFormed(f) && end <= data.Length && (mode.Pack? ==> Tracks())
      modifies this`pos, this`log, data
      ensures g.body.Attach? && g.hdr.ty == f.hdr.ty && g.hdr.tag == f.hdr.tag && Advanced()
      ensures mode.Pack? ==> (g == f && Tracks() && log == old(log) + EncBody(f, NO_ENV))
      ensures mode.Unpack? ==> (data[..] == old(data[..]) && log == old(log))
      ensures mode.Unpack? ==>
                Took(GetBody(f.body, f.hdr.(fid := 0), Text(), old(pos)),
                     if WellFormed(g) then Canon(g) else g, pos, end)
    {
      hide Le16, Le32, Le64, EncStr, EncQid, EncStat, GetU8, GetU16, GetU32, GetU64, GetStr, GetQid, GetStat, GetBytes;
      hide Tracks, Holds, GetFidIf;
      var Attach(afid, uname, aname) := f.body;
      var fid := f.hdr.fid;
      ghost var e := if f.hdr.ty == T_ATTACH then Le32(fid) else [];
      ghost var l0 := log;
      fid := PU32If(f.hdr.ty == T_ATTACH, fid);
      afid := PU32(afid);
      uname, aname := PTwo(uname, aname);
      AttachLog(l0, e, f.body);
      g := Fcall(f.hdr.(fid := fid), Attach(afid, uname, aname));
    }

    /** FRAuth::packUnpack, after the header */
    method PAuth(f: Fcall) returns (g: Fcall)
      requires f.body.Auth? && WellFormed(f) && end <= data.Length && (mode.Pack? ==> Tracks())
      modifies this`pos, this`log, data
      ensures g.body.Auth? && g.hdr.ty == f.hdr.ty && g.hdr.tag == f.hdr.tag && Advanced()
      ensures mode.Pack? ==> (g == f && Tracks() && log == old(log) + EncBody(f, NO_ENV))
      ensures mode.Unpack? ==> (data[..] == old(data[..]) && log == old(log))
      ensures mode.Unpack? ==>
                Took(GetBody(f.body, f.hdr.(fid := 0), Text(), old(pos)),
                     if WellFormed(g) then Canon(g) else g, pos, end)
    {
      hide Le16, Le32, Le64, EncStr, EncQid, EncStat, GetU8, GetU16, GetU32, GetU64, GetStr, GetQid, GetStat, GetBytes;
      hide Tracks, Holds;
      var aqid := PQid(f.body.aqid);
      g := f.(body := Auth(aqid));
    }

    /** FROpen::packUnpack, after the header */
    method POpen(f: Fcall) returns (g: Fcall)
      requires f.body.Open? && WellFormed(f) && end <= data.Length && (mode.Pack? ==> Tracks())
      modifies this`pos, this`log, data
      ensures g.body.Open? && g.hdr.ty == f.hdr.ty && g.hdr.tag == f.hdr.tag && Advanced()
      ensures mode.Pack? ==> (g == f && Tracks() && log == old(log) + EncBody(f, NO_ENV))
      ensures mode.Unpack? ==> (data[..] == old(data[..]) && log == old(log))
      ensures mode.Unpack? ==>
                Took(GetBody(f.body, f.hdr.(fid := 0), Text(), old(pos)),
                     if WellFormed(g) then Canon(g) else g, pos, end)
    {
      hide Le16, Le32, Le64, EncStr, EncQid, EncStat, GetU8, GetU16, GetU32, GetU64, GetStr, GetQid, GetStat, GetBytes;
      hide Tracks, Holds;
      var Open(qid, iounit) := f.body;
      qid := PQid(qid);
      iounit := PU32If(f.hdr.ty != R_ATTACH, iounit);
      Append3(old(log), EncQid(f.body.qid), if f.hdr.ty != R_ATTACH then Le32(f.body.iounit) else []);
      g := f.(body := Open(qid, iounit));
    }

    /** FTWalk::packUnpack, after the header */
    method PWalk(f: Fcall) returns (g: Fcall)
      requires f.body.Walk? && WellFormed(f) && end <= data.Length && (mode.Pack? ==> Tracks())
      modifies this`pos, this`log, data
      ensures g.body.Walk? && g.hdr.ty == f.hdr.ty && g.hdr.tag == f.hdr.tag && Advanced()
      ensures |g.body.wname| == WELEM
      ensures mode.Unpack? && pos <= end ==>
                forall i :: 0 <= i < g.body.nwname <= WELEM ==> NameAt(Text(), old(pos) + 10 + 2 * i, g.body.wname[i])
      ensures mode.Pack? ==> g == f
      ensures mode.Pack? && CountFits(f) ==> (Tracks() && log == old(log) + EncBody(f, NO_ENV))
      ensures mode.Pack? && !CountFits(f) ==> Spoiled()
      ensures mode.Unpack? ==> (data[..] == old(data[..]) && log == old(log))
      ensures mode.Unpack? ==>
                Took(GetBody(f.body, f.hdr.(fid := 0), Text(), old(pos)),
                     if WellFormed(g) then Canon(g) else g, pos, end)
    {
      hide Le16, Le32, Le64, EncStr, EncQid, EncStat, GetU8, GetU16, GetU32, GetU64, GetStr, GetQid, GetStat, GetBytes;
      hide Tracks, Holds, NameAt, EncStrs;
      var Walk(newfid, n, wname) := f.body;
      var fid := PU32(f.hdr.fid);
      newfid := PU32(newfid);
      n, wname := PStrings(n, wname);
      if f.body.nwname <= WELEM {
        Append3(old(log), Le32(f.hdr.fid), Le32(f.body.newfid));
        Append3(old(log), Le32(f.hdr.fid) + Le32(f.body.newfid),
                Le16(f.body.nwname) + EncStrs(f.body.wname[..f.body.nwname]));
        Append3(Le32(f.hdr.fid), Le32(f.body.newfid), Le16(f.body.nwname) + EncStrs(f.body.wname[..f.body.nwname]));
      }
      g := Fcall(f.hdr.(fid := fid), Walk(newfid, n, wname));
    }

    /** FTFlush::packUnpack, after the header */
    method PFlush(f: Fcall) returns (g: Fcall)
      requires f.body.Flush? && WellFormed(f) && end <= data.Length && (mode.Pack? ==> Tracks())
      modifies this`pos, this`log, data
      ensures g.body.Flush? && g.hdr.ty == f.hdr.ty && g.hdr.tag == f.hdr.tag && Advanced()
      ensures mode.Pack? ==> (g == f && Tracks() && log == old(log) + EncBody(f, NO_ENV))
      ensures mode.Unpack? ==> (data[..] == old(data[..]) && log == old(log))
      ensures mode.Unpack? ==>
                Took(GetBody(f.body, f.hdr.(fid := 0), Text(), old(pos)),
                     if WellFormed(g) then Canon(g) else g, pos, end)
    {
      hide Le16, Le32, Le64, EncStr, EncQid, EncStat, GetU8, GetU16, GetU32, GetU64, GetStr, GetQid, GetStat, GetBytes;
      hide Tracks, Holds;
      var oldtag := PU16(f.body.oldtag);
      g := f.(body := Flush(oldtag));
    }

    /** FError::packUnpack, after the header */
    method PError(f: Fcall) returns (g: Fcall)
      requires f.body.Error? && WellFormed(f) && end <= data.Length && (mode.Pack? ==> Tracks())
      modifies this`pos, this`log, data
      ensures g.body.Error? && g.hdr.ty == f.hdr.ty && g.hdr.tag == f.hdr.tag && Advanced()
      ensures mode.Pack? ==> (g == f && Tracks() && log == old(log) + EncBody(f, NO_ENV))
      ensures mode.Unpack? ==> (data[..] == old(data[..]) && log == old(log))
      ensures mode.Unpack? ==>
                Took(GetBody(f.body, f.hdr.(fid := 0), Text(), old(pos)),
                     if WellFormed(g) then Canon(g) else g, pos, end)
    {
      hide Le16, Le32, Le64, EncStr, EncQid, EncStat, GetU8, GetU16, GetU32, GetU64, GetStr, GetQid, GetStat, GetBytes;
      hide Tracks, Holds;
      var ename := PString(f.body.ename);
      g := f.(body := Error(ename));
    }

    /** FRWalk::packUnpack, after the header */
    method PWalked(f: Fcall) returns (g: Fcall)
      requires f.body.Walked? && WellFormed(f) && end <= data.Length && (mode.Pack? ==> Tracks())
      modifies this`pos, this`log, data
      ensures g.body.Walked? && g.hdr.ty == f.hdr.ty && g.hdr.tag == f.hdr.tag && Advanced()
      ensures mode.Pack? ==> g == f
      ensures mode.Pack? && CountFits(f) ==> (Tracks() && log == old(log) + EncBody(f, NO_ENV))
      ensures mode.Pack? && !CountFits(f) ==> Spoiled()
      ensures mode.Unpack? ==> (data[..] == old(data[..]) && log == old(log))
      ensures mode.Unpack? ==>
                Took(GetBody(f.body, f.hdr.(fid := 0), Text(), old(pos)),
                     if WellFormed(g) then Canon(g) else g, pos, end)
    {
      hide Le16, Le32, Le64, EncStr, EncQid, EncStat, GetU8, GetU16, GetU32, GetU64, GetStr, GetQid, GetStat, GetBytes;
      hide Tracks, Holds;
      var n, wqid := PQids(f.body.nwqid, f.body.wqid);
      g := f.(body := Walked(n, wqid));
    }

    /** FTCreate::packUnpack, after the header */
    method PCreate(f: Fcall) returns (g: Fcall)
      requires f.body.Create? && WellFormed(f) && end <= data.Length && (mode.Pack? ==> Tracks())
      modifies this`pos, this`log, data
      ensures g.body.Create? && g.hdr.ty == f.hdr.ty && g.hdr.tag == f.hdr.tag && Advanced()
      ensures mode.Pack? ==> (g == f && Tracks() && log == old(log) + EncBody(f, NO_ENV))
      ensures mode.Unpack? ==> (data[..] == old(data[..]) && log == old(log))
      ensures mode.Unpack? ==>
                Took(GetBody(f.body, f.hdr.(fid := 0), Text(), old(pos)),
                     if WellFormed(g) then Canon(g) else g, pos, end)
    {
      hide Le16, Le32, Le64, EncStr, EncQid, EncStat, GetU8, GetU16, GetU32, GetU64, GetStr, GetQid, GetStat, GetBytes;
      hide Tracks, Holds;
      var Create(perm, name, mo) := f.body;
      ghost var l0 := log;
      ghost var e := if f.hdr.ty == T_CREATE then EncStr(name) + Le32(perm) else [];
      var fid := PU32(f.hdr.fid);
      if f.hdr.ty == T_CREATE {
        name := PString(name);
        perm := PU32(perm);
        Append3(l0 + Le32(f.hdr.fid), EncStr(f.body.name), Le32(f.body.perm));
      }
      assert mode.Pack? ==> log == l0 + Le32(f.hdr.fid) + e;
      mo := PU8(mo);
      Append3(l0 + Le32(f.hdr.fid), e, [f.body.mode]);
      Append3(l0, Le32(f.hdr.fid), e + [f.body.mode]);
      g := Fcall(f.hdr.(fid := fid), Create(perm, name, mo));
    }

    /** The part of FIO::packUnpack that only requests carry. */
    method PIOHead(f: Fcall) returns (fid: u32, offset: u64)
      requires f.body.IO? && (f.hdr.ty == T_READ || f.hdr.ty == T_WRITE)
      requires end <= data.Length && (mode.Pack? ==> Tracks())
      modifies this`pos, this`log, data
      ensures Advanced() && pos == old(pos) + 12
      ensures mode.Pack? ==> (fid == f.hdr.fid && offset == f.body.offset && Tracks()
                              && log == old(log) + (Le32(fid) + Le64(offset)))
      ensures mode.Unpack? ==> (data[..] == old(data[..]) && log == old(log))
      ensures mode.Unpack? && pos <= end ==>
                GetU32(Text(), old(pos)) == Got(fid, old(pos) + 4) && GetU64(Text(), old(pos) + 4) == Got(offset, pos)
    {
      hide Le32, Le64, GetU32, GetU64;
      fid := PU32(f.hdr.fid);
      offset := PU64(f.body.offset);
      Append3(old(log), Le32(f.hdr.fid), Le64(f.body.offset));
    }

    /** The part of FIO::packUnpack that all carry: the count, and for some the payload. */
    method PCounted(carried: bool, n: u32, v: Str) returns (m: u32, w: Str)
      requires end <= data.Length && (mode.Pack? ==> Tracks())
      modifies this`pos, this`log, data
      ensures Advanced()
      ensures mode.Pack? ==>
                && m == n && w == v && Tracks()
                && log == old(log) + (Le32(n) + if carried then Payload(v, n, Window(before, old(pos) + 4, n)) else [])
      ensures mode.Unpack? ==> data[..] == old(data[..]) && log == old(log)
      ensures mode.Unpack? ==>
                Took(GetCounted(carried, Text(), old(pos)), (m, if carried then w else []), pos, end)
    {
      hide Tracks, Holds, Le32, GetU32, Payload, Window;
      m := PU32(n);
      w := v;
      if carried {
        w := PData(v, m);
        Append3(old(log), Le32(n), Payload(v, n, Window(before, old(pos) + 4, n)));
      }
    }

    /** FIO::packUnpack, after the header */
    method PIO(f: Fcall) returns (g: Fcall, ghost env: Env)
      requires f.body.IO? && WellFormed(f) && end <= data.Length && (mode.Pack? ==> Tracks())
      modifies this`pos, this`log, data
      ensures g.body.IO? && g.hdr.ty == f.hdr.ty && g.hdr.tag == f.hdr.tag && Advanced()
      ensures EnvFits(f, env)
      ensures env.stale == Window(before, PayloadAt(f, old(pos)), f.body.count)
      ensures mode.Pack? ==> (g == f && Tracks() && log == old(log) + EncBody(f, env))
      ensures mode.Unpack? ==> (data[..] == old(data[..]) && log == old(log))
      ensures mode.Unpack? ==> Took(GetBody(f.body, f.hdr.(fid := 0), Text(), old(pos)), Canon(g), pos, end)
    {
      hide Tracks, Holds, Le32, Le64, GetU32, GetU64, GetCounted, Payload, Window;
      var IO(count, offset, d) := f.body;
      var ty := f.hdr.ty;
      var fid := f.hdr.fid;
      ghost var l0 := log;
      ghost var e := if ty == T_READ || ty == T_WRITE then Le32(fid) + Le64(offset) else [];
      if ty == T_READ || ty == T_WRITE {
        fid, offset := PIOHead(f);
      }
      env := Env(Window(before, PayloadAt(f, old(pos)), f.body.count), 0);
      ghost var e' := if ty == R_READ || ty == T_WRITE then Payload(d, count, env.stale) else [];
      count, d := PCounted(ty == R_READ || ty == T_WRITE, count, d);
      Append3(l0, e, Le32(f.body.count) + e');
      g := Fcall(f.hdr.(fid := fid), IO(count, offset, d));
    }

    /** FRStat::packUnpack, after the header */
    method PStats(f: Fcall) returns (g: Fcall)
      requires f.body.Stats? && WellFormed(f) && end <= data.Length && (mode.Pack? ==> Tracks())
      modifies this`pos, this`log, data
      ensures g.body.Stats? && g.hdr.ty == f.hdr.ty && g.hdr.tag == f.hdr.tag && Advanced()
      ensures mode.Pack? ==> (g == f && Tracks() && log == old(log) + EncBody(f, NO_ENV))
      ensures mode.Unpack? ==> (data[..] == old(data[..]) && log == old(log))
      ensures mode.Unpack? ==>
                Took(GetBody(f.body, f.hdr.(fid := 0), Text(), old(pos)),
                     if WellFormed(g) then Canon(g) else g, pos, end)
    {
      hide Le16, Le32, Le64, EncStr, EncQid, EncStat, GetU8, GetU16, GetU32, GetU64, GetStr, GetQid, GetStat, GetBytes;
      hide Tracks, Holds;
      var Stats(n, bytes) := f.body;
      if mode.Unpack? {
        bytes := [];
      }
      n := PU16(n);
      bytes := PBytes(if mode.Pack? then bytes[..n] else [], n, bytes);
      Append3(old(log), Le16(f.body.nstat), f.body.bytes[..f.body.nstat]);
      g := f.(body := Stats(n, bytes));
    }

    /** FTWStat::packUnpack, after the header: the outer size is never set */
    method PWStat(f: Fcall) returns (g: Fcall, ghost env: Env)
      requires f.body.WStat? && WellFormed(f) && end <= data.Length && (mode.Pack? ==> Tracks())
      modifies this`pos, this`log, data
      ensures g.body.WStat? && g.hdr.ty == f.hdr.ty && g.hdr.tag == f.hdr.tag && Advanced()
      ensures EnvFits(f, env)
      ensures mode.Pack? ==> (g == f && Tracks() && log == old(log) + EncBody(f, env))
      ensures mode.Unpack? ==> (data[..] == old(data[..]) && log == old(log))
      ensures mode.Unpack? ==>
                Took(GetBody(f.body, f.hdr.(fid := 0), Text(), old(pos)),
                     if WellFormed(g) then Canon(g) else g, pos, end)
    {
      hide Le16, Le32, Le64, EncStr, EncQid, EncStat, GetU8, GetU16, GetU32, GetU64, GetStr, GetQid, GetStat, GetBytes;
      hide Tracks, Holds;
      var fid := PU32(f.hdr.fid);
      var size: u16 := *;
      env := Env([], size);
      size := PU16(size);
      var stat := PStat(f.body.stat);
      Append3(old(log), Le32(f.hdr.fid), Le16(env.junk));
      Append3(old(log), Le32(f.hdr.fid) + Le16(env.junk), EncStat(f.body.stat));
      Append3(Le32(f.hdr.fid), Le16(env.junk), EncStat(f.body.stat));
      g := Fcall(f.hdr.(fid := fid), WStat(stat));
    }

    /** FFullHeader::packUnpack, after the header */
    method PFull(f: Fcall) returns (g: Fcall)
      requires f.body.Full? && WellFormed(f) && end <= data.Length && (mode.Pack? ==> Tracks())
      modifies this`pos, this`log, data
      ensures g.body.Full? && g.hdr.ty == f.hdr.ty && g.hdr.tag == f.hdr.tag && Advanced()
      ensures mode.Pack? ==> (g == f && Tracks() && log == old(log) + EncBody(f, NO_ENV))
      ensures mode.Unpack? ==> (data[..] == old(data[..]) && log == old(log))
      ensures mode.Unpack? ==>
                Took(GetBody(f.body, f.hdr.(fid := 0), Text(), old(pos)),
                     if WellFormed(g) then Canon(g) else g, pos, end)
    {
      hide Le16, Le32, Le64, EncStr, EncQid, EncStat, GetU8, GetU16, GetU32, GetU64, GetStr, GetQid, GetStat, GetBytes;
      hide Tracks, Holds;
      var fid := PU32(f.hdr.fid);
      g := f.(hdr := f.hdr.(fid := fid));
    }

    /** FHdr::packUnpack */
    method PHdr(h: Hdr) returns (k: Hdr)
      requires end <= data.Length && (mode.Pack? ==> Tracks())
      modifies this`pos, this`log, data
      ensures k.fid == h.fid && pos == old(pos) + 3 && Advanced()
      ensures mode.Pack? ==> (k == h && Tracks() && log == old(log) + EncHdr(h))
      ensures mode.Unpack? ==> (data[..] == old(data[..]) && log == old(log))
      ensures mode.Unpack? ==> Took(GetHdr(Text(), old(pos)), k.(fid := 0), pos, end)
      ensures mode.Unpack? && old(pos) < end ==> k.ty == Text()[old(pos)]
    {
      LeOctets(h.ty);
      var ty := PUint(1, h.ty);
      var tag := PUint(2, h.tag);
      Append3(old(log), [h.ty], Le16(h.tag));
      k := Hdr(ty, tag, h.fid);
    }

    /** The alternatives whose encoding depends on the message alone. */
    method PSimple(f: Fcall) returns (g: Fcall)
      requires !f.body.Walk? && !f.body.Walked? && !f.body.WStat? && !f.body.IO?
      requires WellFormed(f) && end <= data.Length && (mode.Pack? ==> Tracks())
      modifies this`pos, this`log, data
      ensures SameKind(g.body, f.body) && g.hdr.ty == f.hdr.ty && g.hdr.tag == f.hdr.tag && Advanced()
      ensures mode.Pack? ==> (g == f && Tracks() && log == old(log) + EncBody(f, NO_ENV))
      ensures mode.Unpack? ==> (data[..] == old(data[..]) && log == old(log))
      ensures mode.Unpack? ==>
                Took(GetBody(f.body, f.hdr.(fid := 0), Text(), old(pos)),
                     if WellFormed(g) then Canon(g) else g, pos, end)
    {
      if f.body.Plain? {
        PlainIsEmpty(f, Text(), pos);
      }
      hide EncBody, GetBody, Canon, WellFormed, Tracks, Holds;
      match f.body
      case Version(_, _) => g := PVersion(f);
      case Flush(_) => g := PFlush(f);
      case Open(_, _) => g := POpen(f);
      case Error(_) => g := PError(f);
      case Auth(_) => g := PAuth(f);
      case Attach(_, _, _) => g := PAttach(f);
      case Create(_, _, _) => g := PCreate(f);
      case Stats(_, _) => g := PStats(f);
      case Plain => g := f;
      case Full => g := PFull(f);
    }

    /** The rest of the alternative's packUnpack, once the header is in `f`. */
    method PBody(f: Fcall) returns (g: Fcall, ghost env: Env)
      requires WellFormed(f) && end <= data.Length && (mode.Pack? ==> Tracks())
      modifies this`pos, this`log, data
      ensures SameKind(g.body, f.body) && g.hdr.ty == f.hdr.ty && g.hdr.tag == f.hdr.tag && Advanced()
      ensures f.body.Walk? ==> |g.body.wname| == WELEM
      ensures EnvFits(f, env)
      ensures f.body.IO? ==> env.stale == Window(before, PayloadAt(f, old(pos)), f.body.count)
      ensures mode.Pack? ==> g == f
      ensures mode.Pack? && CountFits(f) ==> (Tracks() && log == old(log) + EncBody(f, env))
      ensures mode.Pack? && !CountFits(f) ==> Spoiled()
      ensures mode.Unpack? ==> (data[..] == old(data[..]) && log == old(log))
      ensures mode.Unpack? ==>
                Took(GetBody(f.body, f.hdr.(fid := 0), Text(), old(pos)),
                     if WellFormed(g) then Canon(g) else g, pos, end)
      ensures mode.Unpack? && pos <= end && f.body.Walk? ==>
                forall i :: 0 <= i < g.body.nwname <= WELEM ==> NameAt(Text(), old(pos) + 10 + 2 * i, g.body.wname[i])
    {
      AlwaysFits(f);
      hide EncBody, GetBody, Canon, CountFits, Tracks, Holds;
      env := NO_ENV;
      match f.body
      case Walk(_, _, _) => g := PWalk(f);
      case Walked(_, _) => g := PWalked(f);
      case WStat(_) => g, env := PWStat(f);
      case IO(_, _, _) => g, env := PIO(f);
      case _ => g := PSimple(f);
    }

    /** Msg::pack: 0 when the cursor ended past the buffer, else the message's length. */
    method PackMessage(box: FcallBox) returns (r: Outcome, ghost env: Env)
      requires size <= data.Length && (box.storage.Some? ==> WellFormed(box.storage.value))
      modifies this, data, box
      ensures data == old(data) && size == old(size) && box.storage == old(box.storage)
      ensures forall i :: size <= i < data.Length ==> data[i] == old(data[i])
      ensures box.storage.None? ==> r == Threw
      ensures box.storage.Some? ==>
                var f := box.storage.value;
                && EnvFits(f, env)
                && (f.body.IO? ==> env.stale == Window(old(data[..]), PayloadAt(f, 7), f.body.count))
                && if !CountFits(f) || 4 + |Enc(f, env)| > size then r == Returned(0)
                   else
                     var n: u32 := 4 + |Enc(f, env)|;
                     && r == Returned(n)
                     && pos == 0 && end == n
                     && data[..n] == Le32(n) + Enc(f, env)
                     && data[n..] == old(data[n..])
      ensures box.storage.Some? ==>
                var f := box.storage.value;
                && (r == Returned(0) <==> !FewNames(f) || PackedEnd(f) > size)
                && (r != Returned(0) ==> end <= data.Length && LaidWhole(f, Text()))
    {
      hide Holds, Le32, Enc, EncBody, Canon, WellFormed, CountFits, EnvFits, Window, PayloadAt;
      hide PackedEnd, LaidWhole, FewNames;
      NothingHeld(data[..], size);
      env := NO_ENV;
      end := size;
      pos := 4;
      mode := Pack;
      base, before, log := 4, data[..], [];
      var threw;
      threw, env := box.PackUnpack(this);
      if threw {
        return Threw, env;
      }
      PlacesOf(box.storage.value, env, size);
      if pos > end {
        return Returned(0), env;
      }
      ghost var e, packed := log, data[..];
      var n := Seal();
      Sealed(packed, old(data[..]), e, n, size, data[..]);
      PackedLaid(box.storage.value, env, Text());
      r := Returned(n);
    }

    /** The end of pack: the end is where the cursor is, and the length goes in front. */
    method Seal() returns (n: u32)
      requires 4 <= pos <= end <= data.Length && end <= size && mode.Pack?
      modifies this`pos, this`end, this`base, this`before, this`log, data
      ensures n == old(pos) && pos == 0 && end == n
      ensures data[..] == Le32(n) + old(data[4..])
    {
      end := pos;
      n := end;
      pos := 0;
      base, before, log := 0, data[..], [];
      var len := PU32(n);
      assert data[0..4] == Le32(n);
      pos := 0;
    }

    /** Msg::unpack: 0 when the cursor ended past the message, else the position it ended at. */
    method UnpackMessage(box: FcallBox) returns (r: Outcome)
      requires end <= data.Length && (box.storage.Some? ==> WellFormed(box.storage.value))
      modifies this`pos, this`mode, this`log, data, box
      ensures data[..] == old(data[..])
      ensures old(box.storage).Some? ==>
                r == Returned(if pos > end then 0 else pos)
                && box.FilledFrom(old(box.storage).value.body, Text(), 4, pos, end)
      ensures old(box.storage).None? ==>
                match GetHdr(Text(), 4)
                case Short => r == Threw || r == Returned(0)
                case Got(h, _) =>
                  match Blank(h.ty)
                  case None => r == Threw
                  case Some(kind) =>
                    r == Returned(if pos > end then 0 else pos) && box.FilledFrom(kind, Text(), 4, pos, end)
      ensures old(box.storage).None? && end >= 5 ==>
                && (r == Threw <==> !Known(Text()[4]))
                && (r != Threw ==> box.storage.Some? && Selects(Text()[4], box.storage.value.body))
                && (Text()[4] == 121 && end >= 7 ==> r == Returned(7))
                && (Text()[4] in {120, 122, 124} && end >= 11 ==> r == Returned(11))
      ensures r.Returned? && box.storage.Some? ==>
                var f := box.storage.value;
                && (r != Returned(0) <==> exists g: Fcall :: SameKind(g.body, f.body) && Stands(g, Text()))
                && (r != Returned(0) ==> Stands(f, Text()) && r == Returned(EndOf(f)))
    {
      hide Selects, Stands, EndOf, SameKind, GetFcall, GetHdr, Blank;
      pos := 4;
      mode := Unpack;
      var threw;
      ghost var env;
      threw, env := box.PackUnpack(this);
      if threw {
        return Threw;
      }
      HeaderType(Text());
      if old(box.storage).Some? {
        Unpacked(box, old(box.storage).value.body, Text(), pos);
      } else if end >= 7 {
        UnpackedAs(box, Text(), pos);
      } else {
        NothingStands(Text());
      }
      r := Returned(if pos > end then 0 else pos);
    }
  }

  /** Fcall: a message whose alternative can be missing or replaced. */
  class FcallBox {
    var storage: Option<Fcall>

    constructor (storage: Option<Fcall>)
      ensures this.storage == storage
    {
      this.storage := storage;
    }

    /** The alternative of `kind`, filled with what stands in `b` at `p`; or too little stands there. */
    ghost predicate FilledFrom(kind: Body, b: seq<byte>, p: nat, pos: nat, end: nat)
      reads this
    {
      && storage.Some? && SameKind(storage.value.body, kind)
      && var f := storage.value;
         && Took(GetFcall(kind, b, p), if WellFormed(f) then Canon(f) else f, pos, end)
         && (pos <= end && f.body.Walk? ==>
               |f.body.wname| == WELEM
               && forall i :: 0 <= i < f.body.nwname <= WELEM ==> Msg.NameAt(b, p + 13 + 2 * i, f.body.wname[i]))
    }

    /** Fcall::packUnpack. An empty Fcall throws when packing; when unpacking it peeks at the header first. */
    method PackUnpack(m: Msg) returns (threw: bool, ghost env: Env)
      requires storage.Some? ==> WellFormed(storage.value)
      requires m.end <= m.data.Length && (m.mode.Pack? ==> m.Tracks())
      modifies this, m`pos, m`log, m.data
      ensures m.mode.Pack? ==> storage == old(storage) && (threw <==> storage.None?)
      ensures m.mode.Pack? && threw ==> m.data[..] == old(m.data[..])
      ensures m.mode.Pack? && storage.Some? ==>
                var f := storage.value;
                && EnvFits(f, env)
                && (f.body.IO? ==> env.stale == Window(m.before, PayloadAt(f, old(m.pos) + 3), f.body.count))
                && if CountFits(f) then (m.Tracks() && m.log == old(m.log) + Enc(f, env)) else m.Spoiled()
      ensures m.mode.Unpack? ==> m.data[..] == old(m.data[..])
      ensures m.mode.Unpack? && old(storage).Some? ==>
                !threw && FilledFrom(old(storage).value.body, m.Text(), old(m.pos), m.pos, m.end)
      ensures m.mode.Unpack? && old(storage).None? ==>
                match GetHdr(m.Text(), old(m.pos))
                case Short => threw || m.pos > m.end
                case Got(h, _) =>
                  match Blank(h.ty)
                  case None => threw
                  case Some(kind) => !threw && FilledFrom(kind, m.Text(), old(m.pos), m.pos, m.end)
      ensures m.mode.Unpack? && old(storage).None? && old(m.pos) < m.end ==>
                && (threw <==> !Known(m.Text()[old(m.pos)]))
                && (!threw ==> storage.Some? && Selects(m.Text()[old(m.pos)], storage.value.body))
    {
      env := NO_ENV;
      if storage.None? {
        if m.mode.Pack? {
          return true, env;
        }
        threw := PeekAndConstruct(m);
        if threw {
          return;
        }
      }
      threw := false;
      hide GetHdr, GetFcall, Blank, EncBody, Enc, Canon, WellFormed, CountFits;
      env := Visit(m);
    }

    /** Unpacks a header, goes back to where it started, and takes the blank alternative of the type it saw. */
    method PeekAndConstruct(m: Msg) returns (threw: bool)
      requires storage.None? && m.mode.Unpack? && m.end <= m.data.Length
      modifies this, m`pos, m`log, m.data
      ensures m.data[..] == old(m.data[..]) && m.pos == old(m.pos)
      ensures !threw ==> storage.Some? && WellFormed(storage.value)
      ensures match GetHdr(m.Text(), m.pos)
              case Short => true
              case Got(h, _) =>
                match Blank(h.ty)
                case None => threw
                case Some(kind) => !threw && storage.value.body == kind
      ensures m.pos < m.end ==>
                var t := m.Text()[m.pos];
                && (threw <==> !Known(t))
                && (!threw ==> storage.value.hdr.ty == t && Selects(t, storage.value.body))
    {
      var start := m.pos;
      var tmp: Hdr := *;
      tmp := m.PHdr(tmp);
      m.pos := start;
      match Blank(tmp.ty)
      case None => threw := true;
      case Some(kind) =>
        storage := Some(Fcall(tmp, kind));
        threw := false;
    }

    /** The packUnpack of the alternative held. */
    method Visit(m: Msg) returns (ghost env: Env)
      requires storage.Some? && WellFormed(storage.value)
      requires m.end <= m.data.Length && (m.mode.Pack? ==> m.Tracks())
      modifies this, m`pos, m`log, m.data
      ensures m.mode.Pack? ==> storage == old(storage)
      ensures m.mode.Pack? ==>
                var f := old(storage).value;
                && EnvFits(f, env)
                && (f.body.IO? ==> env.stale == Window(m.before, PayloadAt(f, old(m.pos) + 3), f.body.count))
                && if CountFits(f) then (m.Tracks() && m.log == old(m.log) + Enc(f, env)) else m.Spoiled()
      ensures m.mode.Unpack? ==>
                m.data[..] == old(m.data[..])
                && FilledFrom(old(storage).value.body, m.Text(), old(m.pos), m.pos, m.end)
    {
      hide EncBody, GetBody, Canon, GetHdr, EncHdr;
      var f := storage.value;
      ghost var l0 := m.log;
      var h := m.PHdr(f.hdr);
      ghost var f0 := f;
      f := f.(hdr := h);
      var g;
      g, env := m.PBody(f);
      storage := Some(g);
      if m.mode.Pack? && CountFits(f) {
        Append3(l0, EncHdr(f.hdr), EncBody(f, env));
      }
    }
  }
}
