/** The server's side of reading a directory: srv_readdir's paging loop (srv_util.cc). */
module Directory {
  import opened Bytes
  import opened Wire
  import opened WireProofs
  import opened Message

  /** The stat records of a directory's entries, "." left out, packed one after the other. */
  function EncStats(es: seq<Stat>): seq<byte> {
    if es == [] then [] else EncStat(es[0]) + EncStats(es[1..])
  }

  /**
   What one request gets: the entries from byte `offset` on that fit in `room`, in order
   and whole.  `at` is the offset of the first of `es`; sizes are those of Stat::size.
   */
  function Page(es: seq<Stat>, at: nat, offset: nat, room: nat): seq<byte> {
    if es == [] then []
    else
      var n := StatSize(es[0]);
      if at < offset then Page(es[1..], at + n, offset, room)
      else if room < n then []
      else EncStat(es[0]) + Page(es[1..], at + n, offset, room - n)
  }

  function Min(a: nat, b: nat): nat { if a < b then a else b }

  /** srv_readdir up to its respond: the reply's payload is the buffer up to the cursor. */
  method ReadDir(es: seq<Stat>, offset: nat, count: u32, iounit: u32) returns (m: Msg)
    ensures fresh(m) && fresh(m.data) && m.mode.Pack? && m.size == m.end == m.data.Length == Min(count, iounit)
    ensures m.Tracks() && m.base == 0 && m.log == Page(es, 0, offset, Min(count, iounit))
    ensures Counted(es) ==>
              exists i, k :: FirstFrom(es, i, offset) && FullPage(es, i, k, Min(count, iounit), m.log)
  {
    hide EncStat, StatSize;
    var size: nat := count;
    if size > iounit {
      size := iounit;
    }
    var buf := new byte[size](i => 0);
    m := new Msg(buf, size, Pack);
    assert m.Tracks();
    hide Holds;
    var at: nat := 0;
    var i := 0;
    assert es[0..] == es;
    ghost var room := size;
    while i < |es|
      invariant 0 <= i <= |es| && m.data == buf && fresh(m) && fresh(buf)
      invariant m.mode.Pack? && m.Tracks() && m.base == 0 && m.size == m.end == room
      invariant Page(es, 0, offset, room) == m.log + Page(es[i..], at, offset, size)
    {
      var n := StatSize(es[i]);
      assert es[i..][1..] == es[i + 1..];
      if at >= offset {
        if size < n {
          break;
        }
        ghost var l := m.log;
        var s := m.PStat(es[i]);
        Append3(l, EncStat(es[i]), Page(es[i + 1..], at + n, offset, size - n));
        size := size - n;
      }
      at := at + n;
      i := i + 1;
    }
    assert m.log + [] == m.log;
    if Counted(es) {
      PageIsFull(es, offset, room);
    }
  }

  // ----- sizes

  /** The bytes of a packed record; pstring cuts each string to its length modulo 2^16. */
  function RecordLength(e: Stat): (n: nat)
    ensures n >= 49
  {
    49 + |Trunc(e.name)| + |Trunc(e.uid)| + |Trunc(e.gid)| + |Trunc(e.muid)|
  }

  /** Every packed record's length fits the 16 bits of Stat::size. */
  ghost predicate Counted(es: seq<Stat>) {
    forall e :: e in es ==> RecordLength(e) < 0x1_0000
  }

  /** Stat::size, from the uncut strings, agrees with the packed length modulo 2^16. */
  lemma SizeOfRecord(e: Stat)
    ensures |EncStat(e)| == RecordLength(e) && StatSize(e) == RecordLength(e) % 0x1_0000
  {
    StatExact(e);
    hide EncStat, Trunc, TruncStat;
    var a, b, c, d := |e.name| / 0x1_0000, |e.uid| / 0x1_0000, |e.gid| / 0x1_0000, |e.muid| / 0x1_0000;
    CutBy(e.name);
    CutBy(e.uid);
    CutBy(e.gid);
    CutBy(e.muid);
    SameRemainder(RecordLength(e), a + b + c + d);
  }

  lemma CutBy(s: Str)
    ensures |Trunc(s)| + 0x1_0000 * (|s| / 0x1_0000) == |s|
  {
  }

  lemma SameRemainder(n: nat, q: nat)
    ensures (n + 0x1_0000 * q) % 0x1_0000 == n % 0x1_0000
  {
  }

  /** The paging loop never fills more than its buffer, when every record is counted. */
  lemma {:induction false} PageFits(es: seq<Stat>, at: nat, offset: nat, room: nat)
    requires Counted(es)
    ensures |Page(es, at, offset, room)| <= room
  {
    hide EncStat, StatSize, RecordLength;
    if es != [] {
      SizeOfRecord(es[0]);
      PageFits(es[1..], at + StatSize(es[0]), offset, room);
      if room >= StatSize(es[0]) {
        PageFits(es[1..], at + StatSize(es[0]), offset, room - StatSize(es[0]));
      }
    }
  }

  /** The first record that is not counted overruns the room its size asks for, read from where it starts. */
  lemma {:induction false} Overruns(es: seq<Stat>, at: nat) returns (offset: nat, room: nat)
    requires !Counted(es)
    ensures at <= offset && |Page(es, at, offset, room)| > room
  {
    hide EncStat, StatSize, RecordLength;
    SizeOfRecord(es[0]);
    if RecordLength(es[0]) >= 0x1_0000 {
      offset, room := at, StatSize(es[0]);
    } else {
      offset, room := Overruns(es[1..], at + StatSize(es[0]));
    }
  }

  /** No read of a directory overruns its buffer, exactly when every packed record's length fits 16 bits. */
  lemma FitsExactly(es: seq<Stat>)
    ensures (forall offset: nat, room: nat :: |Page(es, 0, offset, room)| <= room) <==> Counted(es)
  {
    if Counted(es) {
      forall offset: nat, room: nat
        ensures |Page(es, 0, offset, room)| <= room
      {
        PageFits(es, 0, offset, room);
      }
    } else {
      var offset, room := Overruns(es, 0);
    }
  }

  // ----- pages start and end between entries

  /** How many of the entries fit in `room`, one after the other. */
  function Fits(es: seq<Stat>, room: nat): (n: nat)
    ensures n <= |es|
  {
    if es == [] || room < StatSize(es[0]) then 0 else 1 + Fits(es[1..], room - StatSize(es[0]))
  }

  /** The entries from `i` up to `k` fill `log`, whole and in order, within the room; the next one does not fit. */
  ghost predicate FullPage(es: seq<Stat>, i: nat, k: nat, room: nat, log: seq<byte>) {
    && i <= k <= |es| && log == EncStats(es[i..k]) && |log| <= room
    && (k < |es| ==> |log| + |EncStat(es[k])| > room)
  }

  /** Entry `i` is the first that starts at or behind the offset. */
  ghost predicate FirstFrom(es: seq<Stat>, i: nat, offset: nat) {
    && i <= |es| && (i > 0 ==> |EncStats(es[..i - 1])| < offset)
    && (i < |es| ==> |EncStats(es[..i])| >= offset)
  }

  /** Past the offset, the page is the entries that fit. */
  lemma {:induction false} PageHere(es: seq<Stat>, at: nat, offset: nat, room: nat)
    requires offset <= at
    ensures Page(es, at, offset, room) == EncStats(es[..Fits(es, room)])
  {
    hide EncStat, StatSize;
    if es != [] && room >= StatSize(es[0]) {
      var n := StatSize(es[0]);
      PageHere(es[1..], at + n, offset, room - n);
      var k := Fits(es[1..], room - n);
      assert es[..k + 1][1..] == es[1..][..k];
    } else {
      assert es[..0] == [];
    }
  }

  lemma EntrySize(es: seq<Stat>, i: nat)
    requires Counted(es) && i < |es|
    ensures |EncStat(es[i])| == StatSize(es[i]) >= 49
  {
    SizeOfRecord(es[i]);
  }

  /** No more fit. */
  lemma {:induction false} FitsMost(es: seq<Stat>, room: nat)
    requires Counted(es)
    ensures var n := Fits(es, room);
            && |EncStats(es[..n])| <= room
            && (n < |es| ==> |EncStats(es[..n])| + |EncStat(es[n])| > room)
  {
    hide EncStat, StatSize, RecordLength;
    if es != [] {
      EntrySize(es, 0);
      var m := StatSize(es[0]);
      if room >= m {
        FitsMost(es[1..], room - m);
        var n := Fits(es[1..], room - m);
        assert es[..n + 1][1..] == es[1..][..n];
      }
    }
  }

  lemma FitsFull(es: seq<Stat>, i: nat, room: nat)
    requires Counted(es) && i <= |es|
    ensures var k := i + Fits(es[i..], room); FullPage(es, i, k, room, EncStats(es[i..][..k - i]))
  {
    hide EncStats, EncStat, RecordLength;
    FitsMost(es[i..], room);
    var k := i + Fits(es[i..], room);
    assert es[i..][..k - i] == es[i..k];
    assert k < |es| ==> es[k] == es[i..][k - i];
  }

  /** At the offset where entry `i` starts, the page is the entries from `i` that fit. */
  lemma {:induction false} PageFrom(es: seq<Stat>, at: nat, i: nat, room: nat)
    requires Counted(es) && i <= |es|
    ensures var page, k := Page(es, at, at + |EncStats(es[..i])|, room), i + Fits(es[i..], room);
            page == EncStats(es[i..][..k - i]) && FullPage(es, i, k, room, page)
  {
    hide EncStat, Fits, StatSize, StatLength;
    if i == 0 {
      assert es[..0] == [] && es[0..] == es;
      PageHere(es, at, at, room);
    } else {
      EntrySize(es, 0);
      var n := StatSize(es[0]);
      assert es[..i][1..] == es[1..][..i - 1];
      assert |EncStats(es[..i])| == n + |EncStats(es[1..][..i - 1])|;
      assert es[1..][i - 1..] == es[i..];
      PageFrom(es[1..], at + n, i - 1, room);
    }
    FitsFull(es, i, room);
  }

  /** The first of the entries that starts at or after the offset. */
  function Start(es: seq<Stat>, at: nat, offset: nat): (j: nat)
    ensures j <= |es|
  {
    if es == [] || at >= offset then 0 else 1 + Start(es[1..], at + StatSize(es[0]), offset)
  }

  lemma {:induction false} PageStarts(es: seq<Stat>, at: nat, offset: nat, room: nat)
    ensures var j := Start(es, at, offset); Page(es, at, offset, room) == EncStats(es[j..][..Fits(es[j..], room)])
  {
    hide EncStat, EncStats, StatSize, Fits;
    if at >= offset {
      assert es[0..] == es;
      PageHere(es, at, offset, room);
    } else if es != [] {
      PageStarts(es[1..], at + StatSize(es[0]), offset, room);
      var j := Start(es[1..], at + StatSize(es[0]), offset);
      assert es[1..][j..] == es[j + 1..];
    } else {
      PageHere(es, at, at, room);
    }
  }

  /** The entry before the first starts before the offset. */
  lemma {:induction false} StartAt(es: seq<Stat>, at: nat, offset: nat)
    requires Counted(es)
    ensures var j := Start(es, at, offset);
            && (j > 0 ==> at + |EncStats(es[..j - 1])| < offset)
            && (j < |es| ==> at + |EncStats(es[..j])| >= offset)
  {
    hide EncStat, StatSize, StatLength;
    if es != [] && at < offset {
      EntrySize(es, 0);
      var n := StatSize(es[0]);
      StartAt(es[1..], at + n, offset);
      var j := Start(es[1..], at + n, offset);
      assert es[..j + 1][1..] == es[1..][..j];
      if j > 0 {
        assert es[..j][1..] == es[1..][..j - 1];
      }
    }
  }

  /** What a request gets: from the first entry at or behind its offset, all that fit. */
  lemma PageIsFull(es: seq<Stat>, offset: nat, room: nat)
    requires Counted(es)
    ensures exists i, k :: FirstFrom(es, i, offset) && FullPage(es, i, k, room, Page(es, 0, offset, room))
  {
    hide EncStats, EncStat, RecordLength, Fits, Start, Page;
    var i := Start(es, 0, offset);
    PageStarts(es, 0, offset, room);
    StartAt(es, 0, offset);
    FitsFull(es, i, room);
    assert FirstFrom(es, i, offset);
  }
}
