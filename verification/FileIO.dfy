/**
 Chunked file input and output (client.cc): one read or write becomes requests of at
 most an iounit each.  The server is whatever answers the requests; every exchange is
 recorded, and what a server may answer is a condition on the record.
 */
module FileIO {
  import opened Bytes
  import opened Wire
  import opened Message
  import opened Directory

  datatype ReadReply = NoReply | Data(bytes: seq<byte>)
  datatype WriteReply = NoAnswer | Accepted(n: nat)

  datatype Exchange = Asked(offset: nat, count: nat, reply: ReadReply)
  datatype Delivery = Sent(offset: nat, payload: seq<byte>, reply: WriteReply)

  datatype Backend =
    | Script(readReplies: seq<ReadReply>, writeReplies: seq<WriteReply>)   // any replies at all
    | Dir(entries: seq<Stat>, unit: u32)                         // srv_readdir on a directory

  ghost predicate Shrunk(b: Backend, b': Backend, strictly: bool)
    requires b.Script?
  {
    b'.Script? && |b'.readReplies| + (if strictly then 1 else 0) <= |b.readReplies|
  }

  /** The far side of dofcall; asked and sent record what it was asked and what it was sent. */
  class Remote {
    var backend: Backend
    ghost var asked: seq<Exchange>
    ghost var sent: seq<Delivery>

    constructor (backend: Backend)
      ensures this.backend == backend && asked == [] && sent == []
    {
      this.backend := backend;
      asked, sent := [], [];
    }

    /** A TRead and its answer. */
    method Read(offset: nat, count: u32) returns (r: ReadReply)
      modifies this`backend, this`asked
      ensures asked == old(asked) + [Asked(offset, count, r)]
      ensures old(backend).Dir? && Counted(old(backend).entries) ==>
                backend == old(backend)
                && r == Data(Page(backend.entries, 0, offset, Min(count, backend.unit)))
      ensures old(backend).Script? ==> Shrunk(old(backend), backend, r.Data?)
    {
      match backend {
      case Script(rs, ws) =>
        r := if rs == [] then NoReply else rs[0];
        backend := Script(if rs == [] then [] else rs[1..], ws);
      case Dir(es, unit) =>
        var m := ReadDir(es, offset, count, unit);
        if Counted(es) {
          PageFits(es, 0, offset, Min(count, unit));
        }
        if m.pos > m.end {
          r := NoReply;
        } else {
          r := Data(m.data[..m.pos]);
          assert m.data[..m.pos] == m.data[..][0..m.pos];
        }
      }
      asked := asked + [Asked(offset, count, r)];
    }

    /** A TWrite and its answer. */
    method Write(offset: nat, payload: seq<byte>) returns (r: WriteReply)
      modifies this`backend, this`sent
      ensures sent == old(sent) + [Sent(offset, payload, r)]
    {
      r := NoAnswer;
      if backend.Script? && backend.writeReplies != [] {
        r := backend.writeReplies[0];
        backend := Script(backend.readReplies, backend.writeReplies[1..]);
      }
      sent := sent + [Sent(offset, payload, r)];
    }
  }

  // ----- reading

  /** The bytes of the answers, in order. */
  function Gathered(es: seq<Exchange>): seq<byte> {
    if es == [] then []
    else
      var last := es[|es| - 1];
      Gathered(es[..|es| - 1]) + if last.reply.Data? then last.reply.bytes else []
  }

  /** A number cut to a signed 32-bit int. */
  function Int32(n: int): int {
    var u := n % 0x1_0000_0000;
    if u < 0x8000_0000 then u else u - 0x1_0000_0000
  }

  /** The size of a request: min<int> of what is missing and the iounit, stored in 32 bits. */
  function Ask(left: nat, unit: nat): u32 {
    (if Int32(left) < Int32(unit) then Int32(left) else Int32(unit)) % 0x1_0000_0000
  }

  /** Never more than what is missing, exactly for the iounits below 2^31. */
  lemma AskNoMoreExactly(unit: u32)
    ensures unit < 0x8000_0000 <==> forall left: nat :: Ask(left, unit) <= left
  {
    if unit < 0x8000_0000 {
      forall left: nat
        ensures Ask(left, unit) <= left
      {
        AskWithin(left, unit);
      }
    } else {
      assert Ask(1, unit) == unit;
    }
  }

  lemma AskWithin(left: nat, unit: nat)
    requires unit < 0x8000_0000
    ensures Ask(left, unit) <= left
  {
    AskWraps(left, unit);
  }

  /** And then at most the lower 32 bits of what is missing. */
  lemma AskWraps(left: nat, unit: nat)
    requires unit < 0x8000_0000
    ensures Ask(left, unit) <= left % 0x1_0000_0000 <= left
    ensures left < 0x8000_0000 ==> Ask(left, unit) == Min(left, unit)
    ensures left % 0x1_0000_0000 < 0x8000_0000 ==> Ask(left, unit) <= unit
    ensures left % 0x1_0000_0000 >= 0x8000_0000 ==> Ask(left, unit) == left % 0x1_0000_0000
  {
  }

  /** Requests for adjoining ranges from `offset`, each for what is still missing, cut by the iounit. */
  ghost predicate Adjoining(es: seq<Exchange>, offset: nat, count: nat, unit: nat) {
    forall k :: 0 <= k < |es| ==>
      && |Gathered(es[..k])| < count
      && es[k].offset == offset + |Gathered(es[..k])|
      && es[k].count == Ask(count - |Gathered(es[..k])|, unit)
  }

  predicate TooMuch(e: Exchange) { e.reply.Data? && |e.reply.bytes| > e.count }

  predicate Refused(e: Exchange) { e.reply.NoReply? || TooMuch(e) }

  /** Answered with exactly what was asked. */
  predicate Filled(e: Exchange) { e.reply.Data? && |e.reply.bytes| == e.count }

  ghost predicate AllFilled(es: seq<Exchange>) {
    forall k :: 0 <= k < |es| ==> Filled(es[k])
  }

  /**
   The exchanges of one read that did not fail: every answer but the last was full, and
   the last one was short or completed the count.
   */
  ghost predicate Complete(es: seq<Exchange>, offset: nat, count: nat, unit: nat) {
    && Adjoining(es, offset, count, unit)
    && |Gathered(es)| <= count
    && (es == [] ==> count == 0)
    && (es != [] ==>
          && AllFilled(es[..|es| - 1])
          && !Refused(es[|es| - 1])
          && (Filled(es[|es| - 1]) ==> |Gathered(es)| == count))
  }

  /** The exchanges of a read that failed: the last answer was none, or too long. */
  ghost predicate Abandoned(es: seq<Exchange>, offset: nat, count: nat, unit: nat) {
    Adjoining(es, offset, count, unit) && es != [] && AllFilled(es[..|es| - 1]) && Refused(es[|es| - 1])
  }

  lemma EndsOneWay(es: seq<Exchange>, offset: nat, count: nat, unit: nat)
    ensures !(Abandoned(es, offset, count, unit) && Complete(es, offset, count, unit))
  {
    hide Gathered, Adjoining;
  }

  /** A directory server answers each request with its page. */
  ghost predicate Paged(b: Backend, es: seq<Exchange>) {
    b.Dir? && Counted(b.entries) ==>
      forall k :: 0 <= k < |es| ==>
        es[k].reply == Data(Page(b.entries, 0, es[k].offset, Min(es[k].count, b.unit)))
  }

  predicate Answered(es: seq<Exchange>) { es != [] && es[0].reply.Data? }

  /** A directory whose sizes fit is unchanged; a script has lost an answer for the first request, if that got one. */
  ghost predicate Ahead(b: Backend, b': Backend, es: seq<Exchange>) {
    && (b.Dir? && Counted(b.entries) ==> b' == b)
    && (b.Script? ==> Shrunk(b, b', Answered(es)))
  }

  lemma {:induction false} GatheredSnoc(es: seq<Exchange>, e: Exchange)
    ensures Gathered(es + [e]) == Gathered(es) + if e.reply.Data? then e.reply.bytes else []
  {
    assert (es + [e])[..|es|] == es;
  }

  lemma AdjoiningSnoc(es: seq<Exchange>, e: Exchange, offset: nat, count: nat, unit: nat)
    requires Adjoining(es, offset, count, unit) && |Gathered(es)| < count
    requires e.offset == offset + |Gathered(es)| && e.count == Ask(count - |Gathered(es)|, unit)
    ensures Adjoining(es + [e], offset, count, unit)
  {
    forall k | 0 <= k <= |es|
      ensures (es + [e])[..k] == es[..k]
    {
    }
    assert es[..|es|] == es;
  }

  lemma PagedSnoc(b0: Backend, b: Backend, b': Backend, es: seq<Exchange>, e: Exchange)
    requires Ahead(b0, b, es) && Paged(b0, es)
    requires b.Dir? && Counted(b.entries) ==>
               b' == b && e.reply == Data(Page(b.entries, 0, e.offset, Min(e.count, b.unit)))
    requires b.Script? ==> Shrunk(b, b', e.reply.Data?)
    ensures Ahead(b0, b', es + [e]) && Paged(b0, es + [e])
  {
  }

  /** memcpy(buf + at, bytes), behind what was gathered so far. */
  method CopyTo(buf: array<byte>, at: nat, bytes: seq<byte>, ghost g: seq<byte>, ghost mem: seq<byte>)
    requires at == |g| && at + |bytes| <= buf.Length == |mem| && buf[..] == g + mem[at..]
    modifies buf
    ensures buf[..] == (g + bytes) + mem[at + |bytes|..]
  {
    forall i | 0 <= i < |bytes| {
      buf[at + i] := bytes[i];
    }
  }

  /** What the loop of _pread keeps of its exchanges. */
  ghost predicate Reading(b0: Backend, b: Backend, es: seq<Exchange>, offset: nat, count: nat, unit: nat) {
    Ahead(b0, b, es) && Paged(b0, es) && Adjoining(es, offset, count, unit) && AllFilled(es)
  }

  /** One more exchange in the loop of _pread. */
  lemma AnsweredOne(b0: Backend, b: Backend, b': Backend, es: seq<Exchange>, e: Exchange, offset: nat, count: nat,
                    unit: nat)
    requires unit < 0x8000_0000 && Reading(b0, b, es, offset, count, unit) && |Gathered(es)| < count
    requires e.offset == offset + |Gathered(es)| && e.count == Ask(count - |Gathered(es)|, unit)
    requires b.Dir? && Counted(b.entries) ==>
               b' == b && e.reply == Data(Page(b.entries, 0, e.offset, Min(e.count, b.unit)))
    requires b.Script? ==> Shrunk(b, b', e.reply.Data?)
    ensures Ahead(b0, b', es + [e]) && Paged(b0, es + [e])
    ensures Gathered(es + [e]) == Gathered(es) + if e.reply.Data? then e.reply.bytes else []
    ensures Refused(e) ==> Abandoned(es + [e], offset, count, unit)
    ensures Filled(e) ==> Reading(b0, b', es + [e], offset, count, unit)
    ensures !Refused(e) && !Filled(e) ==> Complete(es + [e], offset, count, unit)
  {
    hide Gathered, Ask, Adjoining, AllFilled, Paged, Ahead, Counted, Page, Shrunk;
    AdjoiningSnoc(es, e, offset, count, unit);
    GatheredSnoc(es, e);
    PagedSnoc(b0, b, b', es, e);
    AskWithin(count - |Gathered(es)|, unit);
    FilledSnoc(es, e);
  }

  lemma FilledSnoc(es: seq<Exchange>, e: Exchange)
    requires AllFilled(es)
    ensures (es + [e])[..|es + [e]| - 1] == es
    ensures Filled(e) ==> AllFilled(es + [e])
  {
  }

  /** The counts a read can complete; for all others it goes on asking (CompletesExactly). */
  predicate Completes(count: nat, unit: nat) {
    count == 0 || (count < 0x1_0000_0000 && (unit > 0 || count >= 0x8000_0000))
  }

  /** A request asks for something, and if it is filled the rest can be completed too. */
  lemma AsksOn(left: nat, unit: nat)
    requires left > 0 && unit < 0x8000_0000 && Completes(left, unit)
    ensures 0 < Ask(left, unit) <= left && Completes(left - Ask(left, unit), unit)
  {
    AskWraps(left, unit);
  }

  /**
   One turn of the loop of _pread: `left` bytes are missing, the next goes to `off`, and
   the iounit is below 2^31.
   */
  method AskOnce(r: Remote, off: nat, left: nat, iounit: nat, ghost b0: Backend, ghost es: seq<Exchange>,
                 ghost offset: nat, ghost count: nat)
    returns (n: u32, reply: ReadReply, ghost e: Exchange)
    requires iounit < 0x8000_0000 && Reading(b0, r.backend, es, offset, count, iounit)
    requires |Gathered(es)| + left == count && off == offset + |Gathered(es)| && Completes(left, iounit) && left > 0
    modifies r`backend, r`asked
    ensures e == Asked(off, n, reply) && r.asked == old(r.asked) + [e]
    ensures 0 < n <= left && Completes(left - n, iounit)
    ensures Ahead(b0, r.backend, es + [e]) && Paged(b0, es + [e])
    ensures Gathered(es + [e]) == Gathered(es) + if e.reply.Data? then e.reply.bytes else []
    ensures Refused(e) ==> Abandoned(es + [e], offset, count, iounit)
    ensures Filled(e) ==> Reading(b0, r.backend, es + [e], offset, count, iounit)
    ensures !Refused(e) && !Filled(e) ==> Complete(es + [e], offset, count, iounit)
  {
    hide Adjoining, Paged, Ahead, Shrunk, Answered, Counted, Page, Gathered, AllFilled, Complete, Abandoned, Reading;
    hide Ask, Completes, Refused, Filled;
    AsksOn(left, iounit);
    n := Ask(left, iounit);
    ghost var b := r.backend;
    reply := r.Read(off, n);
    e := Asked(off, n, reply);
    AnsweredOne(b0, b, r.backend, es, e, offset, count, iounit);
  }

  lemma EndsFull(b0: Backend, b: Backend, es: seq<Exchange>, offset: nat, count: nat, unit: nat)
    requires Reading(b0, b, es, offset, count, unit) && |Gathered(es)| == count
    ensures Ahead(b0, b, es) && Paged(b0, es) && Complete(es, offset, count, unit)
  {
  }

  lemma NothingAsked(b: Backend, offset: nat, count: nat, unit: nat)
    ensures Reading(b, b, [], offset, count, unit) && Gathered([]) == []
  {
  }

  /** _pread, for any iounit that keeps its requests within the buffer (AskNoMoreExactly). */
  method PRead(r: Remote, buf: array<byte>, count: nat, offset: nat, iounit: nat)
    returns (res: int, ghost es: seq<Exchange>)
    requires count <= buf.Length && iounit < 0x8000_0000 && Completes(count, iounit)
    modifies r`backend, r`asked, buf
    ensures r.asked == old(r.asked) + es
    ensures Ahead(old(r.backend), r.backend, es) && Paged(old(r.backend), es)
    ensures res == -1 ==> Abandoned(es, offset, count, iounit)
    ensures res != -1 ==> Complete(es, offset, count, iounit) && res == |Gathered(es)| <= count
    ensures res != -1 ==> buf[..] == Gathered(es) + old(buf[..])[res..]
  {
    hide Adjoining, Paged, Ahead, Shrunk, Answered, Counted, Page, Gathered, AllFilled, Complete, Abandoned, Reading;
    hide Ask, Completes;
    NothingAsked(old(r.backend), offset, count, iounit);
    es := [];
    var len: nat := 0;
    var off := offset;
    ghost var mem, short := buf[..], false;
    while len < count
      invariant len <= count && off == offset + len && len == |Gathered(es)|
      invariant r.asked == old(r.asked) + es
      invariant Reading(old(r.backend), r.backend, es, offset, count, iounit) && Completes(count - len, iounit)
      invariant buf[..] == Gathered(es) + mem[len..]
      invariant !short
      decreases count - len
    {
      ghost var g := Gathered(es);
      var n, reply;
      ghost var e;
      n, reply, e := AskOnce(r, off, count - len, iounit, old(r.backend), es, offset, count);
      es := es + [e];
      if reply.NoReply? {
        return -1, es;
      } else if |reply.bytes| > n {
        return -1, es;
      }
      CopyTo(buf, len, reply.bytes, g, mem);
      off := off + |reply.bytes|;
      len := len + |reply.bytes|;
      if |reply.bytes| < n {
        short := true;
        break;
      }
    }
    if !short {
      EndsFull(old(r.backend), r.backend, es, offset, count, iounit);
    }
    res := len;
  }

  /** Full answers never gather more than the lower 32 bits of the count. */
  lemma {:induction false} FullGathers(es: seq<Exchange>, offset: nat, count: nat, unit: nat)
    requires unit < 0x8000_0000 && Adjoining(es, offset, count, unit) && AllFilled(es)
    ensures |Gathered(es)| <= count % 0x1_0000_0000
    ensures unit == 0 && count % 0x1_0000_0000 < 0x8000_0000 ==> Gathered(es) == []
  {
    hide Gathered, Adjoining, Ask;
    if es == [] {
      NothingRead([], offset, count);
    } else {
      var n := |es| - 1;
      var es0, e := es[..n], es[n];
      FrontAdjoins(es, offset, count, unit);
      FullGathers(es0, offset, count, unit);
      GatheredSnoc(es0, e);
      assert es == es0 + [e];
      LowerLeft(count, |Gathered(es0)|);
      AskWraps(count - |Gathered(es0)|, unit);
    }
  }

  lemma LowerLeft(count: nat, n: nat)
    requires n <= count % 0x1_0000_0000
    ensures (count - n) % 0x1_0000_0000 == count % 0x1_0000_0000 - n
  {
  }

  /**
   A read can be completed by full answers exactly when Completes says so.  Otherwise
   bytes are missing however many full answers came, and the read goes on asking.
   */
  lemma CompletesExactly(offset: nat, count: nat, unit: nat)
    requires unit < 0x8000_0000
    ensures Completes(count, unit) <==> exists es :: Complete(es, offset, count, unit) && AllFilled(es)
    ensures !Completes(count, unit) ==>
              forall es :: Adjoining(es, offset, count, unit) && AllFilled(es) ==> |Gathered(es)| < count
  {
    hide Gathered, Adjoining, AllFilled;
    if Completes(count, unit) {
      NothingAsked(Script([], []), offset, count, unit);
      var es := FullRun([], offset, count, unit);
    } else {
      forall es | Adjoining(es, offset, count, unit) && AllFilled(es)
        ensures |Gathered(es)| < count && !Complete(es, offset, count, unit)
      {
        FullGathers(es, offset, count, unit);
        NotDone(es, offset, count, unit);
      }
    }
  }

  lemma NotDone(es: seq<Exchange>, offset: nat, count: nat, unit: nat)
    requires AllFilled(es) && |Gathered(es)| < count
    ensures !Complete(es, offset, count, unit)
  {
    hide Gathered, Adjoining;
  }

  lemma FullRun(es: seq<Exchange>, offset: nat, count: nat, unit: nat) returns (all: seq<Exchange>)
    requires unit < 0x8000_0000 && Adjoining(es, offset, count, unit) && AllFilled(es)
    requires |Gathered(es)| <= count && Completes(count - |Gathered(es)|, unit)
    ensures Complete(all, offset, count, unit) && AllFilled(all)
    decreases count - |Gathered(es)|
  {
    hide Gathered, Adjoining, Ask, Completes;
    var g := |Gathered(es)|;
    if g == count {
      NothingRead([], offset, count);
      all := es;
    } else {
      AsksOn(count - g, unit);
      var n := Ask(count - g, unit);
      var e := Asked(offset + g, n, Data(Window([], 0, n)));
      AdjoiningSnoc(es, e, offset, count, unit);
      GatheredSnoc(es, e);
      all := FullRun(es + [e], offset, count, unit);
    }
  }

  /** Every request stays within the iounit exactly when the lower 32 bits of the count are not a negative int. */
  lemma WithinUnitExactly(es: seq<Exchange>, offset: nat, count: nat, unit: nat)
    requires unit < 0x8000_0000 && es != [] && Adjoining(es, offset, count, unit) && AllFilled(es[..|es| - 1])
    ensures (forall k :: 0 <= k < |es| ==> es[k].count <= unit) <==> count % 0x1_0000_0000 < 0x8000_0000
  {
    hide Gathered, Ask;
    forall k | 0 <= k < |es|
      ensures count % 0x1_0000_0000 < 0x8000_0000 ==> es[k].count <= unit
    {
      RequestFits(es, offset, count, unit, k);
    }
    assert es[..0] == [];
    NothingRead([], offset, count);
    AskWraps(count, unit);
  }

  lemma RequestFits(es: seq<Exchange>, offset: nat, count: nat, unit: nat, k: nat)
    requires unit < 0x8000_0000 && k < |es| && Adjoining(es, offset, count, unit) && AllFilled(es[..|es| - 1])
    ensures count % 0x1_0000_0000 < 0x8000_0000 ==> es[k].count <= unit
  {
    hide Gathered, Ask;
    var front := es[..k];
    forall i | 0 <= i < k
      ensures front[..i] == es[..i] && front[i] == es[i] == es[..|es| - 1][i]
    {
    }
    FullGathers(front, offset, count, unit);
    LowerLeft(count, |Gathered(front)|);
    AskWraps(count - |Gathered(front)|, unit);
  }

  // ----- what a read returns

  /** The bytes of a file from `offset`, at most `n` of them. */
  function Range(file: seq<byte>, offset: nat, n: nat): (s: seq<byte>)
    ensures |s| <= n
  {
    var lo := Min(offset, |file|);
    file[lo..Min(lo + n, |file|)]
  }

  /** The answer is the beginning of what was asked for. */
  ghost predicate Truthful(file: seq<byte>, e: Exchange) {
    e.reply.Data? ==> e.reply.bytes <= Range(file, e.offset, e.count)
  }

  /** The answer is all of what was asked for. */
  ghost predicate Whole(file: seq<byte>, e: Exchange) {
    e.reply == Data(Range(file, e.offset, e.count))
  }

  /** A beginning of a range is what the file has there. */
  lemma BeginningMeans(file: seq<byte>, offset: nat, s: seq<byte>, n: nat)
    requires s <= Range(file, offset, n)
    ensures |s| <= n
    ensures s != [] ==> offset + |s| <= |file| && s == file[offset..offset + |s|]
  {
    if s != [] {
      var r := Range(file, offset, n);
      assert s == r[..|s|];
    }
  }

  lemma MeansBeginning(file: seq<byte>, offset: nat, s: seq<byte>, n: nat)
    requires |s| <= n && (s != [] ==> offset + |s| <= |file| && s == file[offset..offset + |s|])
    ensures s <= Range(file, offset, n) && s == Range(file, offset, |s|)
  {
  }

  /** Adjoining beginnings join to a beginning. */
  lemma RangesJoin(file: seq<byte>, offset: nat, a: seq<byte>, n: nat, b: seq<byte>, m: nat)
    requires a <= Range(file, offset, n) && b <= Range(file, offset + |a|, m)
    ensures a + b <= Range(file, offset, |a| + m) && a + b == Range(file, offset, |a + b|)
  {
    hide Range;
    BeginningMeans(file, offset, a, n);
    BeginningMeans(file, offset + |a|, b, m);
    var ab := a + b;
    if a != [] && b != [] {
      SlicesJoin(file, offset, a, b);
    } else {
      assert ab == if a == [] then b else a;
    }
    MeansBeginning(file, offset, ab, |a| + m);
  }

  lemma SlicesJoin(file: seq<byte>, lo: nat, a: seq<byte>, b: seq<byte>)
    requires lo + |a| + |b| <= |file| && a == file[lo..lo + |a|] && b == file[lo + |a|..lo + |a| + |b|]
    ensures a + b == file[lo..lo + |a + b|]
  {
  }

  /** Against any server that answers with a beginning of each range, a read gathers a beginning of its own range. */
  lemma {:induction false} PReadFaithful(file: seq<byte>, es: seq<Exchange>, offset: nat, count: nat, unit: nat)
    requires unit < 0x8000_0000 && Adjoining(es, offset, count, unit)
    requires forall k :: 0 <= k < |es| ==> Truthful(file, es[k])
    ensures Gathered(es) <= Range(file, offset, count)
  {
    hide Gathered, Range, Ask;
    if es == [] {
      NothingRead(file, offset, count);
    } else {
      var n := |es| - 1;
      var es0, e := es[..n], es[n];
      FrontAdjoins(es, offset, count, unit);
      PReadFaithful(file, es0, offset, count, unit);
      GatheredSnoc(es0, e);
      assert es == es0 + [e];
      if e.reply.Data? {
        NextFaithful(file, offset, count, Gathered(es0), e.reply.bytes, e.count);
      } else {
        assert Gathered(es) == Gathered(es0);
      }
    }
  }

  lemma NothingRead(file: seq<byte>, offset: nat, count: nat)
    ensures Gathered([]) == [] <= Range(file, offset, count)
  {
  }

  lemma FrontAdjoins(es: seq<Exchange>, offset: nat, count: nat, unit: nat)
    requires Adjoining(es, offset, count, unit) && es != []
    ensures Adjoining(es[..|es| - 1], offset, count, unit)
    ensures var g, e := Gathered(es[..|es| - 1]), es[|es| - 1];
            && |g| < count && e.offset == offset + |g| && e.count == Ask(count - |g|, unit)
            && (unit < 0x8000_0000 ==> e.count <= count - |g|)
  {
    hide Gathered, Ask;
    if unit < 0x8000_0000 {
      AskWithin(count - |Gathered(es[..|es| - 1])|, unit);
    }
    var es0 := es[..|es| - 1];
    forall k | 0 <= k < |es0|
      ensures es0[..k] == es[..k] && es0[k] == es[k]
    {
    }
    assert |Gathered(es[..|es| - 1])| < count;
  }

  lemma NextFaithful(file: seq<byte>, offset: nat, count: nat, a: seq<byte>, b: seq<byte>, n: nat)
    requires a <= Range(file, offset, count) && b <= Range(file, offset + |a|, n) && |a| + n <= count
    ensures a + b <= Range(file, offset, count)
    ensures b == Range(file, offset + |a|, n) && |b| < n ==> a + b == Range(file, offset, count)
  {
    RangesJoin(file, offset, a, count, b, n);
    RangeGrows(file, offset, |a| + n, count);
    if b == Range(file, offset + |a|, n) && |b| < n {
      var all := Range(file, offset, count);
      assert |a + b| == |all|;
      assert all[..|all|] == all;
    }
  }

  lemma RangeGrows(file: seq<byte>, offset: nat, n: nat, m: nat)
    requires n <= m
    ensures Range(file, offset, n) <= Range(file, offset, m)
  {
  }

  /**
   Against a server that answers with all of what was asked, a read that does not fail is
   the one plain read it stands for: the file's bytes from `offset`, as many as there are
   up to `count`.
   */
  lemma PReadRefines(file: seq<byte>, es: seq<Exchange>, offset: nat, count: nat, unit: nat)
    requires unit < 0x8000_0000 && Complete(es, offset, count, unit)
    requires forall k :: 0 <= k < |es| ==> Whole(file, es[k])
    ensures Gathered(es) == Range(file, offset, count)
  {
    hide Gathered, Range, Ask, Adjoining, AllFilled, Truthful;
    forall k | 0 <= k < |es| ensures Truthful(file, es[k]) {
      WholeIsTruthful(file, es[k]);
    }
    PReadFaithful(file, es, offset, count, unit);
    var all := Range(file, offset, count);
    assert all[..|all|] == all;
    if es == [] {
      NothingRead(file, offset, count);
    } else if !Filled(es[|es| - 1]) {
      CutRefines(file, es, offset, count, unit);
    }
  }

  lemma WholeIsTruthful(file: seq<byte>, e: Exchange)
    requires Whole(file, e)
    ensures Truthful(file, e)
  {
  }

  lemma CutRefines(file: seq<byte>, es: seq<Exchange>, offset: nat, count: nat, unit: nat)
    requires unit < 0x8000_0000 && Adjoining(es, offset, count, unit) && es != []
    requires forall k :: 0 <= k < |es| ==> Truthful(file, es[k])
    requires Whole(file, es[|es| - 1]) && !Filled(es[|es| - 1])
    ensures Gathered(es) == Range(file, offset, count)
  {
    hide Gathered, Range, Adjoining, Truthful;
    var n := |es| - 1;
    var es0, e := es[..n], es[n];
    FrontAdjoins(es, offset, count, unit);
    PReadFaithful(file, es0, offset, count, unit);
    GatheredSnoc(es0, e);
    assert es == es0 + [e];
    NextFaithful(file, offset, count, Gathered(es0), e.reply.bytes, e.count);
  }

  /** A read that does not fail is short only when the last answer was. */
  lemma ShortOnlyIfCut(es: seq<Exchange>, offset: nat, count: nat, unit: nat)
    requires unit < 0x8000_0000 && Complete(es, offset, count, unit)
    ensures |Gathered(es)| < count <==> es != [] && |es[|es| - 1].reply.bytes| < es[|es| - 1].count
  {
    hide Gathered, Adjoining, Ask, AllFilled;
    if es != [] {
      var n := |es| - 1;
      FrontAdjoins(es, offset, count, unit);
      GatheredSnoc(es[..n], es[n]);
      assert es == es[..n] + [es[n]];
    } else {
      NothingRead([], offset, count);
    }
  }
}
