/** The client's fid allocator (client.cc, getFid and putfid). */
module FidPool {
  import opened Bytes
  import opened Fid

  const ROOT_FID: u32 := 1
  const MAX_FID: u32 := 0xFFFF_FFFF

  /** The last fid numbered, and the fids to be reused. */
  datatype Fids = Fids(last: u32, free: seq<u32>)

  const MOUNTED := Fids(ROOT_FID, [])

  function TakeOne(p: Fids): (Fids, u32) {
    if p.free == [] then
      var fid: u32 := (p.last + 1) % 0x1_0000_0000;
      (Fids(fid, []), fid)
    else (Fids(p.last, p.free[1..]), p.free[0])
  }

  function GiveBack(p: Fids, fid: u32): Fids {
    if fid == p.last then Fids((p.last as int - 1) % 0x1_0000_0000, p.free) else Fids(p.last, [fid] + p.free)
  }

  /** The free fids and those out are, without repetition or overlap, the numbers from 2 to the last. */
  ghost predicate Partition(p: Fids, out: set<u32>) {
    && ROOT_FID <= p.last
    && (forall i, j :: 0 <= i < j < |p.free| ==> p.free[i] != p.free[j])
    && (forall fid :: fid in out ==> fid !in p.free)
    && (forall fid: u32 :: ROOT_FID < fid <= p.last <==> fid in out || fid in p.free)
  }

  /** All 2^32 - 2 fids are out. */
  predicate Exhausted(p: Fids) { p.free == [] && p.last == MAX_FID }

  /** Taking a fid keeps the partition and hands out a new one exactly when there is one left. */
  lemma TakeKeeps(p: Fids, out: set<u32>)
    requires Partition(p, out)
    ensures var (p', fid) := TakeOne(p);
            Partition(p', out + {fid}) && fid !in out && fid != ROOT_FID <==> !Exhausted(p)
  {
    var (p', fid) := TakeOne(p);
    if !Exhausted(p) {
      if p.free != [] {
        assert p.free[0] in p.free;
        assert forall x :: x in p.free <==> x == fid || x in p'.free;
      }
      assert fid !in out;
    }
  }

  /** Giving back a fid that is out keeps the partition, also when it was the last one. */
  lemma GiveKeeps(p: Fids, out: set<u32>, fid: u32)
    requires Partition(p, out) && fid in out
    ensures Partition(GiveBack(p, fid), out - {fid})
  {
    var p' := GiveBack(p, fid);
    if fid == p.last {
      assert ROOT_FID < fid;
    } else {
      assert p'.free[1..] == p.free;
      assert forall x :: x in p'.free <==> x == fid || x in p.free;
    }
  }

  /**
   A fid given back is the next one handed out, and the allocator is then as it was before;
   but for the last fid numbered, which waits until no other is free.
   */
  lemma GivenIsNext(p: Fids, out: set<u32>, fid: u32)
    requires Partition(p, out) && fid in out
    ensures TakeOne(GiveBack(p, fid)) == (p, fid) <==> fid != p.last || p.free == []
    ensures fid == p.last && p.free != [] ==> TakeOne(GiveBack(p, fid)).1 == p.free[0]
  {
    if fid != p.last {
      assert GiveBack(p, fid).free[1..] == p.free;
    }
  }

  // ----- runs

  datatype Op = Take | Give(fid: u32)

  /** The fids that are out after an operation. */
  function Out(p: Fids, out: set<u32>, op: Op): set<u32> {
    match op
    case Take => out + {TakeOne(p).1}
    case Give(fid) => out - {fid}
  }

  function Apply(p: Fids, op: Op): Fids {
    match op
    case Take => TakeOne(p).0
    case Give(fid) => GiveBack(p, fid)
  }

  /** Callers give back only what is out to them, and do not take when nothing is left. */
  ghost predicate Proper(p: Fids, out: set<u32>, ops: seq<Op>)
    decreases |ops|
  {
    ops == []
    || (&& (if ops[0].Take? then !Exhausted(p) else ops[0].fid in out)
        && Proper(Apply(p, ops[0]), Out(p, out, ops[0]), ops[1..]))
  }

  /** Where a run ends. */
  function AfterRun(p: Fids, out: set<u32>, ops: seq<Op>): (Fids, set<u32>)
    decreases |ops|
  {
    if ops == [] then (p, out) else AfterRun(Apply(p, ops[0]), Out(p, out, ops[0]), ops[1..])
  }

  /** Every run keeps the partition. */
  lemma {:induction false} RunKeepsPartition(p: Fids, out: set<u32>, ops: seq<Op>)
    requires Partition(p, out) && Proper(p, out, ops)
    ensures var (p', out') := AfterRun(p, out, ops); Partition(p', out')
    decreases |ops|
  {
    hide Partition, TakeOne, GiveBack;
    if ops != [] {
      if ops[0].Take? {
        TakeKeeps(p, out);
      } else {
        GiveKeeps(p, out, ops[0].fid);
      }
      RunKeepsPartition(Apply(p, ops[0]), Out(p, out, ops[0]), ops[1..]);
    }
  }

  /**
   After any run since the mount: the next fid handed out is in nobody's hands and is not
   the root's, unless all are out.
   */
  lemma NeverSharedNorRoot(ops: seq<Op>)
    requires Proper(MOUNTED, {}, ops)
    ensures var (p, out) := AfterRun(MOUNTED, {}, ops);
            && 1 !in out && 1 !in p.free
            && (forall fid: u32 :: 1 < fid <= p.last <==> fid in out || fid in p.free)
            && (p.free != [] || p.last < 0xFFFF_FFFF ==> TakeOne(p).1 !in out && TakeOne(p).1 != 1)
  {
    RunKeepsPartition(MOUNTED, {}, ops);
    var (p, out) := AfterRun(MOUNTED, {}, ops);
    hide AfterRun, TakeOne;
    TakeKeeps(p, out);
  }

  // ----- the allocator

  class Allocator {
    var lastfid: u32
    var freefid: seq<CFid>

    constructor ()
      ensures View() == MOUNTED
    {
      lastfid, freefid := ROOT_FID, [];
    }

    ghost function View(): Fids
      reads this, freefid
    {
      Fids(lastfid, FidsOf(freefid))
    }

    /** getFid: a fid given back before, the latest first; a new one if there is none. */
    method GetFid() returns (f: CFid)
      modifies this
      ensures View() == TakeOne(old(View())).0 && f.fid == TakeOne(old(View())).1
      ensures if old(freefid) == [] then fresh(f) && freefid == [] && f.fid == lastfid
              else f == old(freefid)[0] && freefid == old(freefid)[1..] && lastfid == old(lastfid)
      ensures old(freefid) == [] && old(lastfid) < 0xFFFF_FFFF ==> f.fid == old(lastfid) + 1
    {
      if freefid == [] {
        lastfid := (lastfid + 1) % 0x1_0000_0000;
        f := new CFid(lastfid);
      } else {
        f := freefid[0];
        freefid := freefid[1..];
      }
    }

    /** putfid: the last one is forgotten, any other goes to the front of the free list. */
    method PutFid(f: CFid)
      modifies this
      ensures View() == GiveBack(old(View()), f.fid)
      ensures if f.fid == old(lastfid) then freefid == old(freefid) && (f.fid > 0 ==> lastfid == f.fid - 1)
              else freefid == [f] + old(freefid) && lastfid == old(lastfid)
    {
      if f.fid == lastfid {
        lastfid := (lastfid as int - 1) % 0x1_0000_0000;
      } else {
        freefid := [f] + freefid;
        assert freefid[1..] == old(freefid);
      }
    }
  }

  ghost function FidsOf(fs: seq<CFid>): (s: seq<u32>)
    reads fs
    ensures |s| == |fs| && forall i :: 0 <= i < |fs| ==> s[i] == fs[i].fid
  {
    if fs == [] then [] else [fs[0].fid] + FidsOf(fs[1..])
  }
}
