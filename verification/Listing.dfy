/** Listing a directory end to end: the loop of xls (jyqc.cc) against srv_readdir's pages. */
module Listing {
  import opened Bytes
  import opened Wire
  import opened WireProofs
  import opened Message
  import opened Directory
  import opened FileIO
  import opened Fid

  /** The entries as they arrive, each string cut to its length modulo 2^16. */
  function Cut(es: seq<Stat>): (r: seq<Stat>)
    ensures |r| == |es|
  {
    seq(|es|, i requires 0 <= i < |es| => TruncStat(es[i]))
  }

  // ----- parsing a page

  /** A buffer parsed with pstat until the cursor reaches its end; a buffer of whole records gives exactly those. */
  method ParseStats(bytes: seq<byte>, ghost es: seq<Stat>) returns (stats: seq<Stat>)
    requires |bytes| < 0x8000_0000 && Counted(es)
    ensures bytes == EncStats(es) ==> stats == Cut(es)
  {
    hide EncStat, GetStat, EncStats, Counted;
    var buf := new byte[|bytes|](i requires 0 <= i < |bytes| => bytes[i]);
    assert buf[..] == bytes;
    var m := new Msg(buf, |bytes|, Unpack);
    stats := [];
    ghost var i := 0;
    assert es[0..] == es && bytes[0..] == bytes && es[..0] == [];
    while m.pos < m.end
      invariant m.data == buf && m.end == buf.Length == |bytes| && m.mode.Unpack? && fresh(m) && fresh(buf)
      invariant buf[..] == bytes
      invariant bytes == EncStats(es) ==>
                  i <= |es| && stats == Cut(es[..i]) && m.pos <= m.end && bytes[m.pos..] == EncStats(es[i..])
      decreases |bytes| - m.pos
    {
      ghost var p := m.pos;
      var stat: Stat := *;
      stat := m.PStat(stat);
      assert m.Text() == bytes;
      if bytes == EncStats(es) {
        NextRecord(bytes, p, es, i);
        i := i + 1;
      }
      stats := stats + [stat];
    }
    if bytes == EncStats(es) {
      NoRecordLeft(es, i);
      assert es[..i] == es;
    }
  }

  lemma NextRecord(b: seq<byte>, p: nat, es: seq<Stat>, i: nat)
    requires Counted(es) && i <= |es| && p < |b| && b[p..] == EncStats(es[i..])
    ensures i < |es| && Cut(es[..i]) + [TruncStat(es[i])] == Cut(es[..i + 1])
    ensures var q := p + |EncStat(es[i])|;
            GetStat(b, p) == Got(TruncStat(es[i]), q) && q <= |b| && b[q..] == EncStats(es[i + 1..])
  {
    hide EncStat, GetStat, Counted;
    assert es[i..] != [];
    EntrySize(es, i);
    assert es[i..][1..] == es[i + 1..];
    var q := p + |EncStat(es[i])|;
    assert b[p..q] == b[p..][..|EncStat(es[i])|] && b[q..] == b[p..][|EncStat(es[i])|..];
    StatBack(b, p, es[i]);
  }

  lemma NoRecordLeft(es: seq<Stat>, i: nat)
    requires Counted(es) && i <= |es| && EncStats(es[i..]) == []
    ensures i == |es|
  {
    hide EncStat;
    if i < |es| {
      EntrySize(es, i);
    }
  }

  // ----- the listing

  /** How many entries come before the first that is larger than a page. */
  function Reach(es: seq<Stat>, page: nat): (n: nat)
    ensures n <= |es| && (n < |es| ==> StatSize(es[n]) > page)
    ensures forall i :: 0 <= i < n ==> StatSize(es[i]) <= page
  {
    if es == [] || page < StatSize(es[0]) then 0 else 1 + Reach(es[1..], page)
  }

  /** All of them, exactly when each fits a page. */
  lemma {:induction false} ReachesAll(es: seq<Stat>, page: nat)
    ensures Reach(es, page) == |es| <==> forall i :: 0 <= i < |es| ==> StatSize(es[i]) <= page
  {
    hide StatSize;
    if es != [] {
      ReachesAll(es[1..], page);
      if forall i :: 0 <= i < |es| ==> StatSize(es[i]) <= page {
        assert forall i :: 0 <= i < |es[1..]| ==> StatSize(es[1..][i]) == StatSize(es[i + 1]);
      } else {
        var i :| 0 <= i < |es| && StatSize(es[i]) > page;
        assert i > 0 ==> es[1..][i - 1] == es[i];
      }
    }
  }

  /** A page ends within reach, and an empty page means the end of it. */
  lemma {:induction false} FitsWithin(es: seq<Stat>, room: nat, page: nat)
    requires room <= page
    ensures Fits(es, room) <= Reach(es, page)
    ensures room == page && Fits(es, room) == 0 ==> Reach(es, page) == 0
  {
    hide StatSize;
    if es != [] && room >= StatSize(es[0]) {
      FitsWithin(es[1..], room - StatSize(es[0]), page);
    }
  }

  lemma {:induction false} ReachFrom(es: seq<Stat>, i: nat, page: nat)
    requires i <= Reach(es, page)
    ensures Reach(es, page) == i + Reach(es[i..], page)
  {
    hide StatSize;
    if i == 0 {
      assert es[0..] == es;
    } else {
      ReachFrom(es[1..], i - 1, page);
      assert es[1..][i - 1..] == es[i..];
    }
  }

  lemma {:induction false} EncSplit(es: seq<Stat>, i: nat)
    requires i <= |es|
    ensures EncStats(es) == EncStats(es[..i]) + EncStats(es[i..])
  {
    hide EncStat;
    if i > 0 {
      EncSplit(es[1..], i - 1);
      assert es[1..][..i - 1] == es[..i][1..];
      assert es[1..][i - 1..] == es[i..];
      Append3(EncStat(es[0]), EncStats(es[1..][..i - 1]), EncStats(es[i..]));
    } else {
      assert es[..0] == [] && es[0..] == es;
    }
  }

  lemma PartFits(es: seq<Stat>, i: nat, n: nat)
    requires Counted(es) && i + n <= |es|
    ensures Counted(es[i..][..n]) && Cut(es[..i]) + Cut(es[i..][..n]) == Cut(es[..i + n])
    ensures |EncStats(es[..i + n])| == |EncStats(es[..i])| + |EncStats(es[i..][..n])| <= |EncStats(es)|
  {
    hide EncStats, StatLength;
    EncSplit(es[..i + n], i);
    assert es[..i + n][..i] == es[..i] && es[..i + n][i..] == es[i..][..n];
    EncSplit(es, i + n);
    assert forall k :: 0 <= k < n ==> es[i..][..n][k] == es[i + k];
  }

  /** The offset of each read of the loop of xls. */
  function ReadOffset(es: seq<Stat>, page: nat, n: nat): (o: nat)
    ensures o < 0x1_0000_0000
  {
    if n == 0 then 0
    else
      var o := ReadOffset(es, page, n - 1);
      (o + |Page(es, 0, o, page)|) % 0x1_0000_0000
  }

  /** The requests from the `a`-th on are at those offsets. */
  ghost predicate ReadsAt(asked: seq<Exchange>, a: nat, es: seq<Stat>, page: nat) {
    a <= |asked| && forall m :: a <= m < |asked| ==> asked[m].offset == ReadOffset(es, page, m - a)
  }

  /** One more read at the next offset. */
  lemma ReadsOneMore(asked: seq<Exchange>, a: nat, es: seq<Stat>, page: nat, e: Exchange, i: nat)
    requires a <= |asked| && ReadsAt(asked, a, es, page) && Counted(es) && i <= |es|
    requires e.offset == |EncStats(es[..i])| == ReadOffset(es, page, |asked| - a)
    ensures ReadsAt(asked + [e], a, es, page)
    ensures var n := |EncStats(es[i..][..Fits(es[i..], page)])|;
            ReadOffset(es, page, |asked| + 1 - a) == (e.offset + n) % 0x1_0000_0000
  {
    hide EncStats, Counted, Page, Fits;
    PageFrom(es, 0, i, page);
  }

  /**
   xls on an opened directory whose packed size is below 2^32: every entry before the
   first larger than a page comes exactly once, whole and in order, and then a reply of no
   bytes ends it.  So the listing is the directory exactly when every entry fits a page;
   whole means but for what pstring cuts off a string of 65536 bytes or more.  The requests
   are at the offsets that StartsAgainExactly is about.
   */
  method List(f: CFid, r: Remote) returns (stats: seq<Stat>)
    requires 0 < f.iounit < 0x8000_0000 && f.offset == 0
    requires r.backend.Dir? && Counted(r.backend.entries) && |EncStats(r.backend.entries)| < 0x1_0000_0000
    modifies f`offset, r`backend, r`asked
    ensures r.backend == old(r.backend)
    ensures var es, page := r.backend.entries, Min(f.iounit, r.backend.unit);
            && stats == Cut(es[..Reach(es, page)])
            && (|stats| < |es| ==> |EncStat(es[|stats|])| > page)
            && (forall i :: 0 <= i < |stats| ==> |EncStat(es[i])| <= page && stats[i] == TruncStat(es[i]))
            && (stats == Cut(es) <==> forall i :: 0 <= i < |es| ==> StatSize(es[i]) <= page)
    ensures ReadsAt(r.asked, |old(r.asked)|, r.backend.entries, Min(f.iounit, r.backend.unit))
    ensures r.asked != [] && r.asked[|r.asked| - 1].reply == Data([])
  {
    hide EncStat, EncStats, Counted, Page, Fits, Reach, StatSize;
    hide Gathered, Adjoining, Complete, Abandoned, Ahead, Paged;
    hide ReadOffset, ReadsAt;
    ghost var es, page, a := r.backend.entries, Min(f.iounit, r.backend.unit), |r.asked|;
    stats := [];
    ghost var i := 0;
    Started(es);
    NoneRead(r.asked, es, page);
    ReachesAll(es, page);
    var buf := new byte[f.iounit](i => 0);
    while true
      invariant buf.Length == f.iounit == old(f.iounit) && fresh(buf)
      invariant r.backend == old(r.backend) && i <= Reach(es, page)
      invariant stats == Cut(es[..i]) && f.offset == |EncStats(es[..i])|
      invariant a <= |r.asked| && ReadsAt(r.asked, a, es, page) && f.offset == ReadOffset(es, page, |r.asked| - a)
      decreases |es| - i
    {
      ghost var asked := r.asked;
      var count;
      ghost var xs;
      count, xs := f.Read(r, buf, f.iounit);
      ghost var n := Fits(es[i..], page);
      ReadsPage(old(r.backend), r.backend, xs, es, i, f.iounit, count);
      ReadsOneMore(asked, a, es, page, xs[0], i);
      assert xs == [xs[0]];
      ReachFrom(es, i, page);
      FitsWithin(es[i..], page, page);
      PartFits(es, i, n);
      assert r.asked[|r.asked| - 1] == xs[0];
      if count <= 0 {
        NothingEncoded(es[i..][..n]);
        ReachMeans(es, page);
        assert es[..i] == es ==> i == |es|;
        return;
      }
      var got := ParseStats(buf[..count], es[i..][..n]);
      stats := stats + got;
      i := i + n;
    }
  }

  lemma ReachMeans(es: seq<Stat>, page: nat)
    requires Counted(es)
    ensures var n := Reach(es, page);
            && (n < |es| ==> |EncStat(es[n])| > page)
            && (forall i :: 0 <= i < n ==> |EncStat(es[i])| <= page && Cut(es[..n])[i] == TruncStat(es[i]))
  {
    hide EncStat, Counted, Reach;
    forall i | 0 <= i < |es|
      ensures |EncStat(es[i])| == StatSize(es[i])
    {
      EntrySize(es, i);
    }
  }

  lemma NoneRead(asked: seq<Exchange>, es: seq<Stat>, page: nat)
    ensures ReadsAt(asked, |asked|, es, page) && ReadOffset(es, page, 0) == 0
  {
  }

  lemma Started(es: seq<Stat>)
    ensures es[..0] == [] && EncStats([]) == []
  {
  }

  lemma NothingEncoded(es: seq<Stat>)
    requires Counted(es) && EncStats(es) == []
    ensures es == []
  {
    hide EncStats, Counted;
    assert es[0..] == es;
    NoRecordLeft(es, 0);
  }

  /** One read of a directory: one request, and the answer is the entries from `i` that fit. */
  lemma {:induction false} ReadsPage(b: Backend, b': Backend, xs: seq<Exchange>, es: seq<Stat>, i: nat, unit: nat,
                                     count: int)
    requires b.Dir? && Counted(b.entries) && es == b.entries && i <= |es| && 0 < unit < 0x8000_0000
    requires Ahead(b, b', xs) && Paged(b, xs)
    requires count == -1 ==> Abandoned(xs, |EncStats(es[..i])|, unit, unit)
    requires count != -1 ==> Complete(xs, |EncStats(es[..i])|, unit, unit) && count == |Gathered(xs)|
    ensures b' == b && |xs| == 1 && count != -1
    ensures var part := es[i..][..Fits(es[i..], Min(unit, b.unit))];
            && Gathered(xs) == EncStats(part) && xs[0].reply == Data(EncStats(part))
            && xs[0].offset == |EncStats(es[..i])|
  {
    hide EncStat, EncStats, Counted, Page, Fits, Gathered, Adjoining, Complete, Abandoned;
    var offset := |EncStats(es[..i])|;
    if count == -1 {
      LastRefused(xs, offset, unit);
      DirectoryAnswers(b, xs);
      assert false;
    }
    ReadFullUnit(xs, offset, unit);
    PageFrom(es, 0, i, Min(unit, b.unit));
  }

  /** What a directory answers is never refused. */
  lemma DirectoryAnswers(b: Backend, xs: seq<Exchange>)
    requires b.Dir? && Counted(b.entries) && Paged(b, xs)
    ensures forall k :: 0 <= k < |xs| ==> !Refused(xs[k])
  {
    hide Page, Counted;
    forall k | 0 <= k < |xs| ensures !Refused(xs[k]) {
      PageFits(b.entries, 0, xs[k].offset, Min(xs[k].count, b.unit));
    }
  }

  lemma LastRefused(xs: seq<Exchange>, offset: nat, unit: nat)
    requires Abandoned(xs, offset, unit, unit)
    ensures xs != [] && Refused(xs[|xs| - 1])
  {
  }

  // ----- directories too large for the offset

  /** Entries start one after the other, less than 65536 bytes apart. */
  lemma SizesGrow(es: seq<Stat>, i: nat, j: nat)
    requires Counted(es) && i <= j <= |es|
    ensures |EncStats(es[..i])| <= |EncStats(es[..j])|
    ensures i < j ==> |EncStats(es[..i])| < |EncStats(es[..j])|
    ensures j == i + 1 ==> |EncStats(es[..j])| < |EncStats(es[..i])| + 0x1_0000
  {
    hide EncStat, EncStats, StatLength, Counted;
    PartFits(es, i, j - i);
    if i < j {
      OneEntry(es, i, j);
    }
  }

  lemma OneEntry(es: seq<Stat>, i: nat, j: nat)
    requires Counted(es) && i < j <= |es|
    ensures var part := es[i..][..j - i]; |EncStats(part)| >= 49 && (j == i + 1 ==> |EncStats(part)| < 0x1_0000)
  {
    hide EncStat, StatLength;
    EntrySize(es, i);
    SizeOfRecord(es[i]);
    var part := es[i..][..j - i];
    assert part[0] == es[i];
    assert j == i + 1 ==> part[1..] == [];
  }

  lemma StartsThere(es: seq<Stat>, i: nat)
    requires Counted(es) && i <= |es|
    ensures Start(es, 0, |EncStats(es[..i])|) == i
  {
    hide EncStats, Counted, Start;
    var o := |EncStats(es[..i])|;
    var j := Start(es, 0, o);
    StartAt(es, 0, o);
    if j < i {
      SizesGrow(es, j, i);
    } else if j > i {
      SizesGrow(es, i, j - 1);
    }
  }

  /** The n-th read returns entry `k`. */
  predicate Lists(es: seq<Stat>, page: nat, n: nat, k: nat) {
    var j := Start(es, 0, ReadOffset(es, page, n));
    j <= k < j + Fits(es[j..], page)
  }

  /** Entry `k` came before the n-th read. */
  ghost predicate Listed(es: seq<Stat>, page: nat, n: nat, k: nat) {
    exists m :: 0 <= m < n && Lists(es, page, m, k)
  }

  lemma ListedNext(es: seq<Stat>, page: nat, n: nat, k: nat)
    ensures Listed(es, page, n + 1, k) <==> Listed(es, page, n, k) || Lists(es, page, n, k)
  {
    hide Lists;
    if Listed(es, page, n, k) {
      var m :| 0 <= m < n && Lists(es, page, m, k);
      assert 0 <= m < n + 1;
    }
  }

  /** Before the n-th read the entries before `i` have come and no others. */
  ghost predicate ListedTo(es: seq<Stat>, page: nat, n: nat, i: nat) {
    forall k: nat :: Listed(es, page, n, k) <==> k < i
  }

  /** And the n-th read goes on with entry `i`. */
  ghost predicate OnTrack(es: seq<Stat>, page: nat, n: nat, i: nat) {
    i <= |es| && ReadOffset(es, page, n) == |EncStats(es[..i])| && ListedTo(es, page, n, i)
  }

  lemma Turn(es: seq<Stat>, page: nat, n: nat, i: nat)
    requires Counted(es) && OnTrack(es, page, n, i)
    ensures var i' := i + Fits(es[i..], page);
            && i' <= |es| && ReadOffset(es, page, n + 1) == |EncStats(es[..i'])| % 0x1_0000_0000
            && (forall k: nat :: Lists(es, page, n, k) <==> i <= k < i')
            && ListedTo(es, page, n + 1, i')
            && (|EncStats(es[..i'])| < 0x1_0000_0000 ==> OnTrack(es, page, n + 1, i'))
  {
    hide EncStats, Counted, Start, Fits, Page, Listed;
    StartsThere(es, i);
    PageStarts(es, 0, ReadOffset(es, page, n), page);
    PartFits(es, i, Fits(es[i..], page));
    var next := n + 1;
    forall k: nat
      ensures Listed(es, page, next, k) <==> k < i + Fits(es[i..], page)
    {
      ListedNext(es, page, n, k);
    }
  }

  lemma {:induction false} StaysOnTrack(es: seq<Stat>, page: nat, n: nat) returns (i: nat)
    requires Counted(es) && |EncStats(es)| < 0x1_0000_0000
    ensures OnTrack(es, page, n, i)
  {
    hide EncStats, Counted, Fits, Lists;
    if n == 0 {
      i := 0;
      OnTrackFirst(es, page);
    } else {
      var i0 := StaysOnTrack(es, page, n - 1);
      Turn(es, page, n - 1, i0);
      i := i0 + Fits(es[i0..], page);
      SizesGrow(es, i, |es|);
      assert es[..|es|] == es;
    }
  }

  lemma OnTrackFirst(es: seq<Stat>, page: nat)
    ensures OnTrack(es, page, 0, 0)
  {
    Started(es);
  }

  lemma {:induction false} ComesAgain(es: seq<Stat>, page: nat, n: nat, i: nat) returns (n': nat, k: nat)
    requires Counted(es) && (forall i :: 0 <= i < |es| ==> StatSize(es[i]) <= page)
    requires |EncStats(es)| >= 0x1_0000_0000 && OnTrack(es, page, n, i)
    ensures Listed(es, page, n', k) && Lists(es, page, n', k)
    decreases |es| - i
  {
    hide EncStats, Counted, StatSize, Fits, Lists, Listed, Start;
    NotAtEnd(es, page, n, i);
    Turn(es, page, n, i);
    FitsOne(es, i, page);
    var i' := i + Fits(es[i..], page);
    if |EncStats(es[..i'])| < 0x1_0000_0000 {
      n', k := ComesAgain(es, page, n + 1, i');
    } else {
      n', k := n + 1, Start(es, 0, ReadOffset(es, page, n + 1));
      StartsEarlier(es, i');
      FitsOne(es, k, page);
      ListsStart(es, page, n');
    }
  }

  lemma NotAtEnd(es: seq<Stat>, page: nat, n: nat, i: nat)
    requires |EncStats(es)| >= 0x1_0000_0000 && OnTrack(es, page, n, i)
    ensures i < |es|
  {
    hide EncStats, Listed;
    assert es[..|es|] == es;
  }

  lemma FitsOne(es: seq<Stat>, i: nat, page: nat)
    requires i < |es| && StatSize(es[i]) <= page
    ensures Fits(es[i..], page) > 0
  {
    hide StatSize;
  }

  lemma ListsStart(es: seq<Stat>, page: nat, n: nat)
    requires var k := Start(es, 0, ReadOffset(es, page, n)); Fits(es[k..], page) > 0
    ensures Lists(es, page, n, Start(es, 0, ReadOffset(es, page, n)))
  {
    hide Fits, Start;
  }

  /** An offset that has wrapped around leads to an entry before. */
  lemma StartsEarlier(es: seq<Stat>, i: nat)
    requires Counted(es) && i <= |es| && |EncStats(es[..i])| >= 0x1_0000_0000
    ensures Start(es, 0, |EncStats(es[..i])| % 0x1_0000_0000) < i
  {
    hide EncStats, Counted, Start;
    Started(es);
    var o := |EncStats(es[..i])| % 0x1_0000_0000;
    var j := Start(es, 0, o);
    StartAt(es, 0, o);
    SizesGrow(es, i - 1, i);
    if j >= i {
      SizesGrow(es, i - 1, j - 1);
    }
  }

  /**
   Listing a directory whose entries all fit a page brings some entry again exactly when
   its packed size does not fit the 32-bit offset.
   */
  lemma StartsAgainExactly(es: seq<Stat>, page: nat)
    requires Counted(es) && forall i :: 0 <= i < |es| ==> StatSize(es[i]) <= page
    ensures |EncStats(es)| >= 0x1_0000_0000 <==>
              exists n: nat, k: nat :: Listed(es, page, n, k) && Lists(es, page, n, k)
  {
    hide EncStats, Counted, StatSize, Lists, Listed;
    if |EncStats(es)| >= 0x1_0000_0000 {
      OnTrackFirst(es, page);
      var n, k := ComesAgain(es, page, 0, 0);
    } else {
      forall n: nat, k: nat | Listed(es, page, n, k)
        ensures !Lists(es, page, n, k)
      {
        var i := StaysOnTrack(es, page, n);
        Turn(es, page, n, i);
      }
    }
  }
}
