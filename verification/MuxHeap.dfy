/**
 The multiplexer's data structures as rpc.cc keeps them: Rpc nodes linked into a ring
 through the client's `sleep` node, and the vector of slots.  Each operation refines the
 operation of TagTable or WaitQueue that the step model uses.
 */
module MuxHeap {
  import opened Options
  import opened TagTable
  import opened WaitQueue

  datatype Message = Message(tag: nat, body: seq<int>)

  /**
   RpcBody and its list links; `signals` counts notify_one on its rendezvous.  The only
   owner left when a call has left the queue and its slot is muxrpc itself; `expired` says
   that it has returned, so that weak pointers find nothing.
   */
  class Rpc {
    var tag: nat
    var p: Option<Message>
    var async: bool
    var signals: nat
    var expired: bool
    var next: Rpc?
    var prev: Rpc?

    constructor ()
      ensures tag == 0 && p.None? && !async && !expired && next == null && prev == null && signals == 0
    {
      tag, p, async, expired, signals, next, prev := 0, None, false, false, 0, null, null;
    }
  }

  lemma Covers<T>(t: Table<T>, span: nat)
    requires TagTable.Valid(t, span)
    ensures |t.wait| == t.mwait
  {
  }

  /** Taking one element out leaves no duplicates, and not that element. */
  lemma NoDupAround<T>(s: seq<T>, k: nat, x: T)
    requires NoDup(s) && k < |s| && x !in s
    ensures var t := s[..k] + s[k + 1..]; NoDup(t) && x !in t && s[k] !in t
  {
  }

  datatype TagResult = Wait | Tag(tag: nat)

  /** What the waiting loop of muxrpc and the test after it come to. */
  datatype MuxResult = Sleep | HasReply | Muxes | CheckFailed

  /** The first queued call that is not asynchronous. */
  ghost function FirstWaiter(q: seq<Rpc>): (m: Rpc?)
    reads q`async
    ensures m != null ==> m in q && !m.async
    ensures m == null <==> forall r :: r in q ==> r.async
  {
    if q == [] then null
    else if !q[0].async then q[0]
    else FirstWaiter(q[1..])
  }

  class Client {
    var nwait: nat
    var mwait: nat
    var freetag: nat
    var wait: seq<Option<Rpc>>
    var muxer: Rpc?
    const sleep: Rpc
    var mintag: nat
    var maxtag: nat
    var tagSignals: nat      // notify_one on _tagrend
    ghost var calls: set<Rpc>  // every Rpc this client has seen
    ghost var q: seq<Rpc>      // the ring, starting after sleep

    constructor (mintag: nat, maxtag: nat)
      requires mintag < maxtag
      ensures Valid() && fresh(sleep) && calls == {} && q == [] && muxer == null
      ensures Tab() == Table(0, 0, 0, []) && this.mintag == mintag && this.maxtag == maxtag
    {
      nwait, mwait, freetag, wait := 0, 0, 0, [];
      muxer, tagSignals, calls, q := null, 0, {}, [];
      this.mintag, this.maxtag := mintag, maxtag;
      sleep := new Rpc();
      new;
      sleep.next, sleep.prev := sleep, sleep;
    }

    /** muxrpc's own node. */
    method NewCall() returns (r: Rpc)
      requires Valid()
      modifies this`calls
      ensures Valid() && fresh(r) && calls == old(calls) + {r} && r !in q
      ensures r.tag == 0 && r.p.None? && !r.async && !r.expired
    {
      r := new Rpc();
      calls := calls + {r};
    }

    ghost function Tab(): Table<Rpc>
      reads this
    {
      Table(nwait, mwait, freetag, wait)
    }

    /** A circular doubly linked list: sleep, then q. */
    ghost predicate Linked()
      reads this`q, sleep`next, sleep`prev, q`next, q`prev
    {
      && NoDup(q) && sleep !in q
      && sleep.next == (if q == [] then sleep else q[0])
      && sleep.prev == (if q == [] then sleep else q[|q| - 1])
      && (forall i {:trigger q[i].next} :: 0 <= i < |q| ==> q[i].next == if i == |q| - 1 then sleep else q[i + 1])
      && (forall i {:trigger q[i].prev} :: 0 <= i < |q| ==> q[i].prev == if i == 0 then sleep else q[i - 1])
    }

    /** A call has links exactly while it is queued. */
    ghost predicate Members()
      reads this`calls, this`q, calls`next, calls`prev
    {
      && sleep !in calls
      && (forall r :: r in q ==> r in calls)
      && (forall r :: r in calls && r !in q ==> r.next == null && r.prev == null)
    }

    ghost predicate Valid()
      reads this, sleep`next, sleep`prev, calls`next, calls`prev, q`next, q`prev
    {
      && mintag < maxtag
      && TagTable.Valid(Tab(), maxtag - mintag)
      && Linked() && Members()
      && (forall i :: 0 <= i < |wait| && wait[i].Some? ==> wait[i].value in calls)
      && (muxer == null || muxer in calls)
    }

    /** The links say which calls are queued. */
    lemma LinkedMeansQueued(r: Rpc)
      requires Valid() && r in calls
      ensures r in q <==> r.prev != null
      ensures r in q <==> r.next != null
    {
      if r in q {
        var k :| 0 <= k < |q| && q[k] == r;
        assert q[k].prev != null && q[k].next != null;
      }
    }

    method Enqueue(r: Rpc)
      requires Valid() && r in calls && r !in q
      modifies this`q, sleep`next, sleep`prev, calls`next, calls`prev
      ensures Valid() && q == [r] + old(q)
    {
      r.next := sleep.next;
      r.prev := sleep;
      r.next.prev := r;
      r.prev.next := r;
      q := [r] + q;
    }

    method Dequeue(r: Rpc)
      requires Valid() && r in q
      modifies this`q, sleep`next, sleep`prev, calls`next, calls`prev
      ensures Valid() && q == Without(old(q), r)
    {
      assert NoDup(q) && forall x :: x in q ==> x in calls;
      hide Linked, Members, TagTable.Valid, NoDup, Without;
      Unlink(r);
    }

    /** The pointer work of dequeue. */
    method Unlink(r: Rpc)
      requires Linked() && Members() && r in q
      modifies this`q, sleep`next, sleep`prev, q`next, q`prev
      ensures Linked() && Members() && q == Without(old(q), r)
    {
      ghost var k :| 0 <= k < |q| && q[k] == r;
      ghost var was := q;
      UnlinkRing(r, k);
      Remains(was, k);
    }

    lemma Remains(was: seq<Rpc>, k: nat)
      requires k < |was| && NoDup(was) && q == was[..k] + was[k + 1..]
      ensures q == Without(was, was[k])
      ensures forall x :: x in q <==> x in was && x != was[k]
    {
      WithoutAt(was, k);
      WithoutMembers(was, was[k]);
    }

    /** The pointer work, on the ring alone. */
    method UnlinkRing(r: Rpc, ghost k: nat)
      requires Linked() && k < |q| && q[k] == r
      modifies this`q, sleep`next, sleep`prev, q`next, q`prev
      ensures Linked() && q == old(q)[..k] + old(q)[k + 1..]
      ensures r.next == null && r.prev == null
    {
      assert q[k].next == r.next && q[k].prev == r.prev;
      ghost var was := q;
      NoDupAround(was, k, sleep);
      r.next.prev := r.prev;
      r.prev.next := r.next;
      r.next, r.prev := null, null;
      q := was[..k] + was[k + 1..];
      forall i | 0 <= i < |q|
        ensures q[i].next == if i == |q| - 1 then sleep else q[i + 1]
        ensures q[i].prev == if i == 0 then sleep else q[i - 1]
      {
        assert q[i] == was[if i < k then i else i + 1];
      }
    }

    /** One pass of gettag, up to the point where it would wait on _tagrend. */
    method GetTag(r: Rpc) returns (res: TagResult)
      requires Valid() && r in calls
      modifies this`nwait, this`mwait, this`freetag, this`wait, r`tag
      ensures Valid()
      ensures res.Wait? <==> old(nwait == mwait && mwait >= maxtag - mintag)
      ensures res.Wait? ==> Tab() == old(Tab()) && r.tag == old(r.tag)
      ensures res.Tag? ==>
                var t := Tested(old(Tab()));
                && t.freetag < t.mwait && Scan(t).Some?
                && Tab() == Take(t, Scan(t).value, r)
                && res.tag == r.tag == Scan(t).value + mintag
    {
      var room := MakeRoom();
      if !room {
        return Wait;
      }
      var tag := TakeSlot(r);
      res := Tag(tag);
    }

    /** The loop test of gettag: false when it has to wait. */
    method MakeRoom() returns (room: bool)
      requires Valid()
      modifies this`mwait, this`freetag, this`wait
      ensures Valid()
      ensures room <==> old(nwait != mwait || mwait < maxtag - mintag)
      ensures room ==> Tab() == Tested(old(Tab())) && nwait != mwait
      ensures !room ==> Tab() == old(Tab())
    {
      if nwait == mwait {
        if mwait < maxtag - mintag {
          GrowTable();
        } else {
          return false;
        }
      }
      room := true;
    }

    /** The scan of gettag. */
    method TakeSlot(r: Rpc) returns (tag: nat)
      requires Valid() && r in calls && nwait != mwait
      modifies this`nwait, this`wait, r`tag
      ensures Valid()
      ensures var t := old(Tab());
              && t.freetag < t.mwait && Scan(t).Some?
              && Tab() == Take(t, Scan(t).value, r)
              && tag == r.tag == Scan(t).value + mintag
    {
      hide Linked, Members;
      ScanFindsSlot(Tab(), maxtag - mintag);
      var i := freetag;
      if wait[i].None? {
        tag := Found(r, i);
        return;
      }
      while i < mwait
        invariant freetag <= i <= mwait
        invariant FirstFree(wait, freetag, mwait) == FirstFree(wait, i, mwait)
      {
        if wait[i].None? {
          tag := Found(r, i);
          return;
        }
        i := i + 1;
      }
      i := 0;
      while i < freetag
        invariant 0 <= i <= freetag
        invariant FirstFree(wait, 0, freetag) == FirstFree(wait, i, freetag)
      {
        if wait[i].None? {
          tag := Found(r, i);
          return;
        }
        i := i + 1;
      }
      assert false;
    }

    method GrowTable()
      requires Valid() && nwait == mwait && mwait < maxtag - mintag
      modifies this`mwait, this`freetag, this`wait
      ensures Valid() && Tab() == Grow(old(Tab())) && nwait < mwait
    {
      hide TagTable.Valid, Linked, PowerOfTwo, Occupied;
      GrowKeepsValid(Tab(), maxtag - mintag);
      Covers(Tab(), maxtag - mintag);
      var mw := mwait;
      if mw == 0 {
        mw := 1;
      } else {
        mw := mw * 2;
      }
      ghost var was := wait;
      wait := wait + Empty(mw - mwait);
      assert forall i :: 0 <= i < |wait| ==> wait[i] == if i < |was| then was[i] else None;
      freetag := mwait;
      mwait := mw;
    }

    method Found(r: Rpc, index: nat) returns (tag: nat)
      requires Valid() && r in calls && index < mwait && wait[index].None?
      modifies this`nwait, this`wait, r`tag
      ensures Valid() && Tab() == Take(old(Tab()), index, r)
      ensures tag == r.tag == index + mintag
    {
      TakeKeepsValid(Tab(), index, r, maxtag - mintag);
      nwait := nwait + 1;
      wait := wait[index := Some(r)];
      r.tag := index + mintag;
      tag := r.tag;
    }

    /** puttag; false stands for its throw. */
    method PutTag(r: Rpc) returns (ok: bool)
      requires Valid()
      modifies this`nwait, this`freetag, this`wait, this`tagSignals
      ensures Valid()
      ensures ok <==> 0 <= r.tag - mintag < mwait && old(wait[r.tag - mintag]) == Some(r)
      ensures ok ==> old(nwait) > 0 && Tab() == Release(old(Tab()), r.tag - mintag) && tagSignals == old(tagSignals) + 1
      ensures !ok ==> unchanged(this)
    {
      var i := r.tag - mintag;
      if !(0 <= i < mwait) || wait[i] != Some(r) {
        return false;
      }
      ReleaseKeepsValid(Tab(), i, maxtag - mintag);
      wait := wait[i := None];
      nwait := nwait - 1;
      freetag := i;
      tagSignals := tagSignals + 1;
      ok := true;
    }

    /** muxer.lock() */
    function MuxerLock(): Rpc?
      reads this, muxer
    {
      if muxer != null && !muxer.expired then muxer else null
    }

    /** One look of muxrpc at the muxer and its own reply: it sleeps, leaves with the reply, or becomes the muxer. */
    method TestMux(r: Rpc) returns (res: MuxResult)
      requires Valid() && r in calls
      modifies this`muxer
      ensures Valid()
      ensures res.HasReply? <==> r.p.Some?
      ensures res.Sleep? <==> r.p.None? && old(MuxerLock()) != null && old(MuxerLock()) != r
      ensures res.Muxes? <==> r.p.None? && (old(MuxerLock()) == null || old(MuxerLock()) == r)
      ensures muxer == if res.Muxes? then r else old(muxer)
    {
      if MuxerLock() != null && MuxerLock() != r && r.p.None? {
        return Sleep;
      }
      if r.p.Some? {
        return HasReply;
      }
      if !(MuxerLock() == null || MuxerLock() == r) {
        return CheckFailed;
      }
      muxer := r;
      res := Muxes;
    }

    /** muxrpc has returned and its Rpc dies. */
    method Expire(r: Rpc)
      requires Valid() && r in calls
      modifies r`expired
      ensures Valid() && r.expired
    {
      r.expired := true;
    }

    /** The bounds mountfd sets between its two requests. */
    method Mount()
      requires Valid() && maxtag - mintag <= 255
      modifies this`mintag, this`maxtag
      ensures Valid() && mintag == 0 && maxtag == 255
    {
      mintag := 0;
      maxtag := 255;
    }

    /** The loop of electmuxer along the ring. */
    method FirstInRing() returns (rpc: Rpc?)
      requires Linked()
      ensures rpc == FirstWaiter(q)
    {
      hide NoDup;
      rpc := sleep.next;
      ghost var k := 0;
      while rpc != sleep
        invariant k <= |q| && rpc == if k == |q| then sleep else q[k]
        invariant FirstWaiter(q) == FirstWaiter(q[k..])
        decreases |q| - k
      {
        if !rpc.async {
          assert q[k..][0] == rpc;
          return;
        }
        assert q[k].next == rpc.next && q[k..][1..] == q[k + 1..];
        rpc := rpc.next;
        k := k + 1;
      }
      rpc := null;
    }

    method ElectMuxer()
      requires Valid()
      modifies this`muxer, q`signals
      ensures Valid() && muxer == FirstWaiter(q)
      ensures forall r :: r in q ==> r.signals == old(r.signals) + if r == muxer then 1 else 0
    {
      hide TagTable.Valid, Linked;
      muxer := FirstInRing();
      if muxer != null {
        muxer.signals := muxer.signals + 1;
      }
    }

    /** dispatchandqlock after it has the lock; false stands for its throws. */
    method Dispatch(f: Message) returns (ok: bool)
      requires Valid()
      modifies this`q, sleep`next, sleep`prev, calls`next, calls`prev, calls`p, calls`signals
      ensures Valid() && Tab() == old(Tab()) && muxer == old(muxer)
      ensures ok <==> 0 <= f.tag - mintag < mwait && wait[f.tag - mintag].Some?
                      && wait[f.tag - mintag].value in old(q)
      ensures ok ==>
                var r := wait[f.tag - mintag].value;
                && q == Without(old(q), r) && r.p == Some(f) && r.signals == old(r.signals) + 1
                && forall x :: x in calls && x != r ==> x.p == old(x.p) && x.signals == old(x.signals)
      ensures !ok ==> unchanged(this, sleep, calls)
    {
      var tag := f.tag - mintag;
      if tag < 0 || tag >= mwait {
        return false;
      }
      if wait[tag].None? {
        return false;
      }
      var r2 := wait[tag].value;
      LinkedMeansQueued(r2);
      if r2.prev == null {
        return false;
      }
      r2.p := Some(f);
      Dequeue(r2);
      r2.signals := r2.signals + 1;
      ok := true;
    }
  }

  /** Nothing ever sets the asynchronous flag, so the call elected is the newest one queued. */
  lemma ElectsNewest(q: seq<Rpc>)
    requires forall r :: r in q ==> !r.async
    ensures FirstWaiter(q) == if q == [] then null else q[0]
  {
  }

  /** In general it is the call with only asynchronous ones in front of it. */
  lemma {:induction false} ElectsFirst(q: seq<Rpc>, k: nat)
    requires k < |q| && NoDup(q) && !q[k].async
    ensures FirstWaiter(q) == q[k] <==> forall i :: 0 <= i < k ==> q[i].async
  {
    if k > 0 && q[0].async {
      ElectsFirst(q[1..], k - 1);
      assert forall i :: 0 < i < k ==> q[i] == q[1..][i - 1];
    }
  }
}
