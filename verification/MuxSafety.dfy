/**
 What every step of the multiplexer keeps, in every interleaving, whatever the server
 sends and whichever packs and receives fail.
 */
module MuxSafety {
  import opened Options
  import opened TagTable
  import opened WaitQueue
  import opened MuxModel

  function Span(b: Bounds): int { b.maxtag - b.mintag }

  ghost predicate TableOk(s: State) {
    && (s.bounds == VERSION_BOUNDS || s.bounds == NORMAL_BOUNDS)
    && Valid(s.tab, Span(s.bounds))
  }

  /** The slots in use and the calls between gettag and puttag match one to one. */
  ghost predicate SlotsOk(s: State) {
    && (forall c :: c in s.calls && HasSlot(PcOf(s, c)) ==> NamesSlot(s, c, Slot(s, s.calls[c].tag)))
    && (forall i :: 0 <= i < |s.tab.wait| && s.tab.wait[i].Some? ==>
          var c := s.tab.wait[i].value;
          c in s.calls && HasSlot(PcOf(s, c)) && s.calls[c].tag == i + s.bounds.mintag)
  }

  /** A call that passed the test of gettag still finds the table with a free slot. */
  ghost predicate ScanOk(s: State) {
    forall c :: c in s.calls && PcOf(s, c).TagScan? ==> s.tab.nwait != s.tab.mwait
  }

  ghost predicate NamesSlot(s: State, c: CallId, i: int) {
    0 <= i < |s.tab.wait| && s.tab.wait[i] == Some(c)
  }

  /** A call is on the queue exactly while it is tagged and unanswered. */
  ghost predicate QueueOk(s: State) {
    && NoDup(s.queue)
    && (forall c :: c in s.queue ==> c in s.calls)
    && (forall c :: c in s.calls ==> (c in s.queue <==> Unanswered(s.calls[c])))
    && (forall c :: c in s.calls && s.calls[c].p.Some? ==> MayHoldReply(PcOf(s, c)))
  }

  predicate Unanswered(k: Call) { InLoop(k.pc) && k.p.None? }

  predicate MayHoldReply(pc: Pc) { InLoop(pc) || pc.Leaving? || pc.Done? }

  ghost predicate LocksOk(s: State) {
    && (s.lk.Some? ==> s.lk.value in s.calls)
    && (s.wlk.Some? ==> s.wlk.value in s.calls)
    && (s.rlk.Some? ==> s.rlk.value in s.calls)
    && (forall c :: c in s.calls ==> (HoldsLk(PcOf(s, c)) <==> s.lk == Some(c)))
    && (forall c :: c in s.calls ==> (HoldsWlk(PcOf(s, c)) <==> s.wlk == Some(c)))
    && (forall c :: c in s.calls ==> (PcOf(s, c).Reading? <==> s.rlk == Some(c)))
  }

  /** A call in the receive loop is the muxer; a live muxer is committed to that loop. */
  ghost predicate MuxerOk(s: State) {
    && (s.muxer.Some? ==> s.muxer.value in s.calls)
    && (forall c :: c in s.calls && Receiver(PcOf(s, c)) ==> s.muxer == Some(c))
    && (MuxerLive(s) ==> Committed(s.calls[s.muxer.value]))
  }

  /** Will enter the receive loop, is in it, was thrown out, or is a failed sender on its way out. */
  predicate Committed(k: Call) {
    || (k.p.None? && (InLoop(k.pc) || k.pc.Dropping? || k.pc.Dropped? || k.pc.GivingUp?) && !k.pc.Asleep?)
    || k.pc.MuxLoop?
  }

  ghost predicate Inv(s: State) {
    TableOk(s) && SlotsOk(s) && ScanOk(s) && QueueOk(s) && LocksOk(s) && MuxerOk(s)
  }

  lemma InitInv()
    ensures Inv(INIT)
  {
  }

  // ----- one call changes: what each part of the invariant needs to survive it

  lemma SlotsFrame(s: State, s': State, c: CallId, k: Call)
    requires SlotsOk(s) && c in s.calls && s'.calls == s.calls[c := k]
    requires s'.tab.wait == s.tab.wait && s'.bounds == s.bounds
    requires HasSlot(k.pc) == HasSlot(s.calls[c].pc) && k.tag == s.calls[c].tag
    ensures SlotsOk(s')
  {
  }

  lemma QueueFrame(s: State, s': State, c: CallId, k: Call)
    requires QueueOk(s) && c in s.calls && s'.calls == s.calls[c := k]
    requires s'.queue == s.queue
    requires Unanswered(k) == Unanswered(s.calls[c])
    requires k.p.Some? ==> MayHoldReply(k.pc)
    ensures QueueOk(s')
  {
  }

  /** `c` keeps a lock, takes it free, or gives it up. */
  predicate LockMoves(lk: Option<CallId>, lk': Option<CallId>, c: CallId) {
    || lk' == lk
    || (lk == None && lk' == Some(c))
    || (lk == Some(c) && lk' == None)
  }

  lemma LocksFrame(s: State, s': State, c: CallId, k: Call)
    requires LocksOk(s) && c in s.calls && s'.calls == s.calls[c := k]
    requires LockMoves(s.lk, s'.lk, c) && LockMoves(s.wlk, s'.wlk, c) && LockMoves(s.rlk, s'.rlk, c)
    requires HoldsLk(k.pc) == (s'.lk == Some(c))
    requires HoldsWlk(k.pc) == (s'.wlk == Some(c))
    requires k.pc.Reading? == (s'.rlk == Some(c))
    ensures LocksOk(s')
  {
    hide HoldsLk, HoldsWlk;
  }

  lemma MuxerFrame(s: State, s': State, c: CallId, k: Call)
    requires MuxerOk(s) && c in s.calls && s'.calls == s.calls[c := k]
    requires s'.muxer == s.muxer
    requires Receiver(k.pc) ==> s.muxer == Some(c)
    requires s.muxer == Some(c) && !Ended(k.pc) ==> Committed(k)
    ensures MuxerOk(s')
  {
  }

  lemma TableFrame(s: State, s': State)
    requires TableOk(s) && s'.tab == s.tab && s'.bounds == s.bounds
    ensures TableOk(s')
  {
  }

  lemma ScanFrame(s: State, s': State, c: CallId, k: Call)
    requires ScanOk(s) && c in s.calls && s'.calls == s.calls[c := k]
    requires s'.tab.nwait == s.tab.nwait && s'.tab.mwait == s.tab.mwait
    requires k.pc.TagScan? ==> s.tab.nwait != s.tab.mwait
    ensures ScanOk(s')
  {
  }

  /** What the invariant says about one call. */
  lemma OneCall(s: State, c: CallId)
    requires ScanOk(s) && QueueOk(s) && LocksOk(s) && MuxerOk(s) && c in s.calls
    ensures HoldsLk(PcOf(s, c)) <==> s.lk == Some(c)
    ensures HoldsWlk(PcOf(s, c)) <==> s.wlk == Some(c)
    ensures PcOf(s, c).Reading? <==> s.rlk == Some(c)
    ensures Receiver(PcOf(s, c)) ==> s.muxer == Some(c)
    ensures s.muxer == Some(c) && !Ended(PcOf(s, c)) ==> Committed(s.calls[c])
    ensures s.calls[c].p.Some? ==> MayHoldReply(PcOf(s, c))
    ensures c in s.queue <==> Unanswered(s.calls[c])
    ensures PcOf(s, c).TagScan? ==> s.tab.nwait != s.tab.mwait
  {
    hide HoldsLk, HoldsWlk, Receiver, Ended, Committed, MayHoldReply, Unanswered;
  }

  predicate BeforeSlot(pc: Pc) { pc.Start? || pc.TagTest? || pc.TagAsleep? || pc.TagWoken? || pc.TagScan? }

  /** A step that moves one call without touching the table, the queue or the muxer. */
  lemma MoveFrame(s: State, s': State, c: CallId, pc: Pc)
    requires Inv(s) && c in s.calls && s'.calls == s.calls[c := s.calls[c].(pc := pc)]
    requires s'.tab == s.tab && s'.bounds == s.bounds && s'.queue == s.queue && s'.muxer == s.muxer
    requires LockMoves(s.lk, s'.lk, c) && LockMoves(s.wlk, s'.wlk, c) && LockMoves(s.rlk, s'.rlk, c)
    requires HoldsLk(pc) == (s'.lk == Some(c))
    requires HoldsWlk(pc) == (s'.wlk == Some(c))
    requires pc.Reading? == (s'.rlk == Some(c))
    requires (InLoop(PcOf(s, c)) && InLoop(pc)) || (BeforeSlot(PcOf(s, c)) && BeforeSlot(pc))
    requires Receiver(pc) ==> s.muxer == Some(c)
    requires s.muxer == Some(c) ==> !pc.Asleep?
    requires PcOf(s, c).MuxLoop? ==> s.calls[c].p.None?
    requires pc.TagScan? ==> s.tab.nwait != s.tab.mwait
    ensures Inv(s')
  {
    hide TableOk, SlotsOk, ScanOk, QueueOk, LocksOk, MuxerOk;
    OneCall(s, c);
    var k := s.calls[c].(pc := pc);
    SlotsFrame(s, s', c, k);
    QueueFrame(s, s', c, k);
    LocksFrame(s, s', c, k);
    MuxerFrame(s, s', c, k);
    ScanFrame(s, s', c, k);
    TableFrame(s, s');
  }

  // ----- the steps

  /** notify_one on a rendezvous, or a spurious wake-up. */
  lemma NotifyKeeps(s: State, c: CallId)
    requires Inv(s)
    ensures Inv(Notify(s, c))
  {
    if c in s.calls && PcOf(s, c).Asleep? {
      MoveFrame(s, Notify(s, c), c, Woken);
    }
  }

  lemma NotifyTagKeeps(s: State, w: Option<CallId>)
    requires Inv(s) && MayWake(s, w)
    ensures Inv(NotifyTag(s, w))
  {
    if w.Some? {
      MoveFrame(s, NotifyTag(s, w), w.value, TagWoken);
    }
  }

  lemma BeginKeeps(s: State, c: CallId)
    requires Inv(s) && c !in s.calls
    ensures Inv(s.(calls := s.calls[c := Call(Start, 0, None)]))
  {
    BeginSlotsQueue(s, c);
    BeginLocksMuxer(s, c);
  }

  lemma BeginSlotsQueue(s: State, c: CallId)
    requires SlotsOk(s) && QueueOk(s) && c !in s.calls
    ensures SlotsOk(s.(calls := s.calls[c := Call(Start, 0, None)]))
    ensures QueueOk(s.(calls := s.calls[c := Call(Start, 0, None)]))
  {
  }

  lemma BeginLocksMuxer(s: State, c: CallId)
    requires LocksOk(s) && MuxerOk(s) && c !in s.calls
    ensures LocksOk(s.(calls := s.calls[c := Call(Start, 0, None)]))
    ensures MuxerOk(s.(calls := s.calls[c := Call(Start, 0, None)]))
  {
  }

  lemma TestTagsKeeps(s: State, c: CallId)
    requires Inv(s) && c in s.calls && PcOf(s, c).TagTest?
    ensures Inv(TestTagsNext(s, c))
  {
    hide SlotsOk, QueueOk, MuxerOk, Valid;
    var s' := TestTagsNext(s, c);
    if s.tab.nwait != s.tab.mwait {
      MoveFrame(s, s', c, PcOf(s', c));
    } else if s.tab.mwait < Span(s.bounds) {
      var s1 := s.(tab := Grow(s.tab));
      GrowTableKeeps(s);
      MoveFrame(s1, s', c, PcOf(s', c));
    } else {
      MoveFrame(s, s', c, TagAsleep);
    }
  }

  lemma GrowTableKeeps(s: State)
    requires Inv(s) && s.tab.nwait == s.tab.mwait && s.tab.mwait < Span(s.bounds)
    ensures Inv(s.(tab := Grow(s.tab)))
  {
    hide PowerOfTwo, Occupied, SlotsOk, LocksOk, QueueOk, MuxerOk;
    GrowKeepsValid(s.tab, Span(s.bounds));
    GrowSlots(s, s.(tab := Grow(s.tab)));
    TableOnly(s, Grow(s.tab));
    hide Grow, Valid;
  }

  lemma TableOnly(s: State, t: Table<CallId>)
    requires LocksOk(s) && QueueOk(s) && MuxerOk(s)
    ensures var s' := s.(tab := t); LocksOk(s') && QueueOk(s') && MuxerOk(s')
  {
  }

  lemma GrowSlots(s: State, s': State)
    requires SlotsOk(s) && |s.tab.wait| == s.tab.mwait && s' == s.(tab := Grow(s.tab))
    ensures SlotsOk(s')
  {
    assert forall i :: 0 <= i < |s'.tab.wait| ==> s'.tab.wait[i] == if i < |s.tab.wait| then s.tab.wait[i] else None;
  }

  lemma TakeTagKeeps(s: State, c: CallId)
    requires Inv(s) && c in s.calls && PcOf(s, c).TagScan?
    ensures !TakeTagNext(s, c).crashed == !s.crashed
    ensures Inv(TakeTagNext(s, c))
  {
    ScanFindsSlot(s.tab, Span(s.bounds));
    FoundKeeps(s, c, Scan(s.tab).value);
  }

  lemma FoundKeeps(s: State, c: CallId, i: nat)
    requires Inv(s) && c in s.calls && PcOf(s, c).TagScan? && i < s.tab.mwait && s.tab.wait[i].None?
    ensures Inv(Found(s, c, i))
  {
    var s' := Found(s, c, i);
    var k := s'.calls[c];
    TakeKeepsValid(s.tab, i, c, Span(s.bounds));
    QueueFrame(s, s', c, k);
    LocksFrame(s, s', c, k);
    MuxerFrame(s, s', c, k);
    FoundSlots(s, c, i);
  }

  lemma FoundSlots(s: State, c: CallId, i: nat)
    requires SlotsOk(s) && c in s.calls && PcOf(s, c).TagScan? && i < |s.tab.wait| && s.tab.wait[i].None?
    ensures SlotsOk(Found(s, c, i))
  {
    assert HasSlot(Tagged) && !HasSlot(PcOf(s, c));
    hide HasSlot;
  }

  lemma EnqueueKeeps(s: State, c: CallId)
    requires Inv(s) && c in s.calls && PcOf(s, c).Tagged?
    ensures Inv(EnqueueNext(s, c))
  {
    var s' := EnqueueNext(s, c);
    var k := s'.calls[c];
    SlotsFrame(s, s', c, k);
    EnqueueQueue(s, c);
    LocksFrame(s, s', c, k);
    MuxerFrame(s, s', c, k);
  }

  lemma EnqueueQueue(s: State, c: CallId)
    requires QueueOk(s) && c in s.calls && PcOf(s, c).Tagged?
    ensures QueueOk(EnqueueNext(s, c))
  {
    PrependNoDup(s.queue, c);
  }

  lemma DequeueKeeps(s: State, c: CallId, pc: Pc)
    requires Inv(s) && c in s.queue && s.lk.None?
    requires (PcOf(s, c).PackFailed? && pc == Dropping) || (PcOf(s, c).RecvFailed? && pc == GivingUp)
    ensures Inv(DequeueNext(s, c, pc))
  {
    var s' := DequeueNext(s, c, pc);
    var k := s'.calls[c];
    SlotsFrame(s, s', c, k);
    DequeueQueue(s, c, pc);
    LocksFrame(s, s', c, k);
    MuxerFrame(s, s', c, k);
  }

  lemma DequeueQueue(s: State, c: CallId, pc: Pc)
    requires QueueOk(s) && c in s.queue && !InLoop(pc)
    ensures QueueOk(DequeueNext(s, c, pc))
  {
    WithoutMembers(s.queue, c);
  }

  /** The two ways to give up a tag: after a failed pack, with the write lock, and with a reply or without. */
  predicate GivesUp(s: State, c: CallId, wlk: Option<CallId>, pc: Pc)
    requires c in s.calls
  {
    || (PcOf(s, c).Dropping? && wlk == None && pc == Dropped)
    || (PcOf(s, c).Leaving? && wlk == s.wlk && pc == Done(s.calls[c].p))
  }

  lemma PutTagKeeps(s: State, c: CallId, w: Option<CallId>, wlk: Option<CallId>, pc: Pc)
    requires Inv(s) && c in s.calls && MayWake(s, w) && GivesUp(s, c, wlk, pc)
    ensures !PutTagNext(s, c, w, wlk, pc).crashed == !s.crashed && Inv(PutTagNext(s, c, w, wlk, pc))
  {
    hide TableOk, SlotsOk, ScanOk, QueueOk, LocksOk, MuxerOk;
    hide OwnsSlot, Release, NotifyTag, MayWake, PutTagNext, Go;
    SlotOwned(s, c);
    NotifyTagKeeps(s, w);
    TagWakeElsewhere(s, c, w);
    PutTagShape(s, c, w, wlk, pc);
    ReleaseSlot(NotifyTag(s, w), c, wlk, pc, PutTagNext(s, c, w, wlk, pc));
  }

  /** Where the call is after it gave up its tag, and who holds the write lock. */
  function LeftPc(s: State, l: Label): Pc
    requires (l.DropTag? || l.Leave?) && l.c in s.calls
  {
    if l.DropTag? then Dropped else Done(s.calls[l.c].p)
  }

  function LeftWlk(s: State, l: Label): Option<CallId>
    requires l.DropTag? || l.Leave?
  {
    if l.DropTag? then None else s.wlk
  }

  lemma PutTagLabel(s: State, l: Label)
    requires Enabled(s, l) && (l.DropTag? || l.Leave?)
    ensures l.c in s.calls && !PcOf(s, l.c).TagAsleep? && MayWake(s, l.woken)
    ensures GivesUp(s, l.c, LeftWlk(s, l), LeftPc(s, l))
    ensures Next(s, l) == PutTagNext(s, l.c, l.woken, LeftWlk(s, l), LeftPc(s, l))
  {
    hide PutTagNext, MayWake;
  }

  lemma PutTagShape(s: State, c: CallId, w: Option<CallId>, wlk: Option<CallId>, pc: Pc)
    requires c in s.calls && OwnsSlot(s, c) && c in NotifyTag(s, w).calls
    ensures var s1, s' := NotifyTag(s, w), PutTagNext(s, c, w, wlk, pc);
            && s' == Go(s1.(tab := Release(s.tab, Slot(s, s.calls[c].tag)), lk := None, wlk := wlk), c, pc)
            && s'.crashed == s1.crashed
  {
    hide Release, OwnsSlot, NotifyTag;
  }

  lemma TagWakeElsewhere(s: State, c: CallId, w: Option<CallId>)
    requires c in s.calls && !PcOf(s, c).TagAsleep? && MayWake(s, w)
    ensures var s1 := NotifyTag(s, w);
            && c in s1.calls && s1.calls[c] == s.calls[c] && s1.tab == s.tab && s1.bounds == s.bounds
            && s1.lk == s.lk && s1.wlk == s.wlk && s1.crashed == s.crashed && OwnsSlot(s1, c) == OwnsSlot(s, c)
  {
  }

  /** puttag never throws: whoever calls it owns the slot its tag names. */
  lemma SlotOwned(s: State, c: CallId)
    requires TableOk(s) && SlotsOk(s) && c in s.calls && HasSlot(PcOf(s, c))
    ensures OwnsSlot(s, c)
  {
    var i := Slot(s, s.calls[c].tag);
    assert NamesSlot(s, c, i);
    ReleaseKeepsValid(s.tab, i, Span(s.bounds));
  }

  lemma ReleaseSlot(s: State, c: CallId, wlk: Option<CallId>, pc: Pc, s': State)
    requires Inv(s) && c in s.calls && OwnsSlot(s, c) && GivesUp(s, c, wlk, pc)
    requires s' == Go(s.(tab := Release(s.tab, Slot(s, s.calls[c].tag)), lk := None, wlk := wlk), c, pc)
    ensures Inv(s')
  {
    hide TableOk, SlotsOk, ScanOk, QueueOk, LocksOk, MuxerOk, OwnsSlot, Release;
    var k := s.calls[c].(pc := pc);
    OneCall(s, c);
    ReleaseTable(s, s', c, k);
    QueueFrame(s, s', c, k);
    LocksFrame(s, s', c, k);
    MuxerFrame(s, s', c, k);
    ReleaseSlots(s, s', c, k);
  }

  lemma ReleaseTable(s: State, s': State, c: CallId, k: Call)
    requires TableOk(s) && c in s.calls && OwnsSlot(s, c) && !k.pc.TagScan?
    requires s'.tab == Release(s.tab, Slot(s, s.calls[c].tag)) && s'.bounds == s.bounds
    requires s'.calls == s.calls[c := k]
    ensures TableOk(s') && ScanOk(s')
  {
    ReleaseKeepsValid(s.tab, Slot(s, s.calls[c].tag), Span(s.bounds));
    CountedWithin(s.tab, Span(s.bounds));
    hide Valid;
  }

  lemma CountedWithin(t: Table<CallId>, span: nat)
    requires Valid(t, span)
    ensures t.nwait <= t.mwait
  {
    FullIffCounted(t.wait);
  }

  lemma ReleaseSlots(s: State, s': State, c: CallId, k: Call)
    requires SlotsOk(s) && c in s.calls && OwnsSlot(s, c) && HasSlot(PcOf(s, c)) && !HasSlot(k.pc)
    requires s'.tab == Release(s.tab, Slot(s, s.calls[c].tag)) && s'.bounds == s.bounds
    requires s'.calls == s.calls[c := k]
    ensures SlotsOk(s')
  {
  }

  /** Another call is the muxer: the call goes to sleep. */
  lemma SleepKeeps(s: State, c: CallId)
    requires Inv(s) && c in s.calls && PcOf(s, c).MuxTest? && s.muxer != Some(c)
    ensures Inv(Go(s.(lk := None), c, Asleep))
  {
    hide TableOk, SlotsOk, ScanOk, QueueOk, LocksOk, MuxerOk;
    OneCall(s, c);
    MoveFrame(s, Go(s.(lk := None), c, Asleep), c, Asleep);
  }

  /** The call has its reply and leaves. */
  lemma AnsweredKeeps(s: State, c: CallId)
    requires Inv(s) && c in s.calls && PcOf(s, c).MuxTest? && s.calls[c].p.Some?
    ensures Inv(Go(s, c, Leaving))
  {
    hide TableOk, SlotsOk, ScanOk, QueueOk, LocksOk, MuxerOk;
    OneCall(s, c);
    var s' := Go(s, c, Leaving);
    var k := s'.calls[c];
    SlotsFrame(s, s', c, k);
    QueueFrame(s, s', c, k);
    LocksFrame(s, s', c, k);
    MuxerFrame(s, s', c, k);
    ScanFrame(s, s', c, k);
    TableFrame(s, s');
  }

  /** There is no live muxer but the call itself: it is the muxer now. */
  lemma TakeOverKeeps(s: State, c: CallId)
    requires Inv(s) && c in s.calls && PcOf(s, c).MuxTest? && s.calls[c].p.None?
    requires !MuxerLive(s) || s.muxer == Some(c)
    ensures Inv(Go(s.(muxer := Some(c), lk := None), c, Receiving))
  {
    hide TableOk, SlotsOk, ScanOk, QueueOk, LocksOk, MuxerOk;
    OneCall(s, c);
    TakeOver(s, c);
    var s' := Go(s.(muxer := Some(c), lk := None), c, Receiving);
    var k := s'.calls[c];
    SlotsFrame(s, s', c, k);
    QueueFrame(s, s', c, k);
    LocksFrame(s, s', c, k);
    ScanFrame(s, s', c, k);
    TableFrame(s, s');
  }

  lemma TakeOver(s: State, c: CallId)
    requires MuxerOk(s) && c in s.calls && PcOf(s, c).MuxTest? && s.calls[c].p.None?
    requires !MuxerLive(s) || s.muxer == Some(c)
    ensures MuxerOk(Go(s.(muxer := Some(c), lk := None), c, Receiving))
  {
    assert forall d :: d in s.calls ==> !Receiver(PcOf(s, d));
  }

  lemma TestMuxKeeps(s: State, c: CallId)
    requires Inv(s) && c in s.calls && PcOf(s, c).MuxTest?
    ensures !TestMuxNext(s, c).crashed == !s.crashed && Inv(TestMuxNext(s, c))
  {
    hide Inv, MuxerLive;
    if s.calls[c].p.Some? {
      AnsweredKeeps(s, c);
    } else if MuxerLive(s) && s.muxer != Some(c) {
      SleepKeeps(s, c);
    } else {
      TakeOverKeeps(s, c);
    }
  }

  lemma GiveReplyKeeps(s: State, r: CallId, f: Reply)
    requires Inv(s) && r in s.calls && r in s.queue
    requires s.lk.Some? && s.lk.value in s.calls && PcOf(s, s.lk.value).MuxLoop?
    ensures Inv(GiveReply(s, r, f))
  {
    var s' := GiveReply(s, r, f);
    var k := s.calls[r].(p := Some(f));
    SlotsFrame(s, s', r, k);
    GiveReplyQueue(s, r, f);
    LocksFrame(s, s', r, k);
    MuxerFrame(s, s', r, k);
  }

  lemma GiveReplyQueue(s: State, r: CallId, f: Reply)
    requires QueueOk(s) && r in s.queue
    ensures QueueOk(GiveReply(s, r, f))
  {
    WithoutMembers(s.queue, r);
  }

  lemma DispatchKeeps(s: State, c: CallId)
    requires Inv(s) && c in s.calls && PcOf(s, c).Got? && s.lk.None? && !DispatchNext(s, c).crashed
    ensures Inv(DispatchNext(s, c))
  {
    var f := PcOf(s, c).reply;
    var r := s.tab.wait[Slot(s, f.tag)].value;
    var s1 := Go(s.(lk := Some(c)), c, MuxLoop);
    MoveFrame(s, s1, c, MuxLoop);
    NotifyKeeps(s1, r);
    GiveReplyKeeps(Notify(s1, r), r, f);
  }

  lemma ElectKeeps(s: State, c: CallId)
    requires Inv(s) && c in s.calls && (PcOf(s, c).GivingUp? || (PcOf(s, c).MuxLoop? && s.calls[c].p.Some?))
    ensures Inv(ElectNext(s, c))
  {
    var s1 := if s.queue == [] then s else Notify(s, s.queue[0]);
    if s.queue != [] {
      assert s.queue[0] in s.queue && s.queue[0] != c;
      NotifyKeeps(s, s.queue[0]);
    }
    HandOver(s1, c);
  }

  /** The muxer leaves for the head of the queue, which is awake, or for nobody. */
  lemma HandOver(s: State, c: CallId)
    requires Inv(s) && c in s.calls && (PcOf(s, c).GivingUp? || (PcOf(s, c).MuxLoop? && s.calls[c].p.Some?))
    requires s.queue != [] ==> s.queue[0] in s.calls && !PcOf(s, s.queue[0]).Asleep?
    ensures Inv(Go(s.(muxer := if s.queue == [] then None else Some(s.queue[0])), c, Leaving))
  {
    hide TableOk, SlotsOk, ScanOk, QueueOk, LocksOk, MuxerOk;
    QueuedUnanswered(s);
    OneCall(s, c);
    var s' := Go(s.(muxer := if s.queue == [] then None else Some(s.queue[0])), c, Leaving);
    var k := s'.calls[c];
    SlotsFrame(s, s', c, k);
    QueueFrame(s, s', c, k);
    LocksFrame(s, s', c, k);
    ScanFrame(s, s', c, k);
    TableFrame(s, s');
    NewMuxer(s, s', c);
  }

  lemma QueuedUnanswered(s: State)
    requires QueueOk(s)
    ensures s.queue != [] ==> s.queue[0] in s.calls && Unanswered(s.calls[s.queue[0]])
  {
    assert s.queue != [] ==> s.queue[0] in s.queue;
  }

  lemma NewMuxer(s: State, s': State, c: CallId)
    requires MuxerOk(s) && c in s.calls && s.muxer == Some(c) && s'.calls == s.calls[c := s.calls[c].(pc := Leaving)]
    requires s'.muxer.Some? ==> var m := s'.muxer.value;
               m in s.calls && m != c && Unanswered(s.calls[m]) && !PcOf(s, m).Asleep?
    ensures MuxerOk(s')
  {
  }

  lemma LapseKeeps(s: State, c: CallId)
    requires Inv(s) && c in s.calls && PcOf(s, c).Dropped?
    ensures Inv(Go(s, c, SendFailed))
  {
    var s' := Go(s, c, SendFailed);
    var k := s'.calls[c];
    SlotsFrame(s, s', c, k);
    QueueFrame(s, s', c, k);
    LocksFrame(s, s', c, k);
    MuxerFrame(s, s', c, k);
  }

  lemma MountKeeps(s: State)
    requires Inv(s) && s.bounds == VERSION_BOUNDS && forall c :: c in s.calls ==> Ended(PcOf(s, c))
    ensures Inv(s.(bounds := NORMAL_BOUNDS))
  {
    MountLocks(s);
    MountSlots(s);
    hide LocksOk, QueueOk, MuxerOk, SlotsOk, ScanOk;
    assert Valid(s.tab, Span(NORMAL_BOUNDS));
  }

  lemma MountLocks(s: State)
    requires LocksOk(s) && QueueOk(s)
    ensures LocksOk(s.(bounds := NORMAL_BOUNDS)) && QueueOk(s.(bounds := NORMAL_BOUNDS))
  {
  }

  /** No call has a tag. */
  lemma MountSlots(s: State)
    requires SlotsOk(s) && ScanOk(s) && MuxerOk(s) && forall c :: c in s.calls ==> Ended(PcOf(s, c))
    ensures var s' := s.(bounds := NORMAL_BOUNDS); SlotsOk(s') && ScanOk(s') && MuxerOk(s')
  {
    assert forall c :: c in s.calls ==> !HasSlot(PcOf(s, c)) && !Receiver(PcOf(s, c)) && !PcOf(s, c).TagScan?;
    hide HasSlot, Receiver, Committed;
  }

  // ----- steps that move one call and a lock

  lemma LockForTagKeeps(s: State, c: CallId)
    requires Inv(s) && c in s.calls && s.lk.None? && (PcOf(s, c).Start? || PcOf(s, c).TagWoken?)
    ensures Inv(Go(s.(lk := Some(c)), c, TagTest(PcOf(s, c).TagWoken?)))
  {
    hide TableOk, SlotsOk, ScanOk, QueueOk, LocksOk, MuxerOk;
    OneCall(s, c);
    MoveFrame(s, Go(s.(lk := Some(c)), c, TagTest(PcOf(s, c).TagWoken?)), c, TagTest(PcOf(s, c).TagWoken?));
  }

  lemma LockWriteKeeps(s: State, c: CallId)
    requires Inv(s) && c in s.calls && s.wlk.None? && PcOf(s, c).Sending?
    ensures Inv(Go(s.(wlk := Some(c)), c, Packing))
  {
    hide TableOk, SlotsOk, ScanOk, QueueOk, LocksOk, MuxerOk;
    OneCall(s, c);
    MoveFrame(s, Go(s.(wlk := Some(c)), c, Packing), c, Packing);
  }

  lemma LockForMuxKeeps(s: State, c: CallId)
    requires Inv(s) && c in s.calls && s.lk.None? && (PcOf(s, c).WantMux? || PcOf(s, c).Woken?)
    ensures Inv(Go(s.(lk := Some(c)), c, MuxTest))
  {
    hide TableOk, SlotsOk, ScanOk, QueueOk, LocksOk, MuxerOk;
    OneCall(s, c);
    MoveFrame(s, Go(s.(lk := Some(c)), c, MuxTest), c, MuxTest);
  }

  lemma LockReadKeeps(s: State, c: CallId)
    requires Inv(s) && c in s.calls && s.rlk.None? && PcOf(s, c).Receiving?
    ensures Inv(Go(s.(rlk := Some(c)), c, Reading))
  {
    hide TableOk, SlotsOk, ScanOk, QueueOk, LocksOk, MuxerOk;
    OneCall(s, c);
    MoveFrame(s, Go(s.(rlk := Some(c)), c, Reading), c, Reading);
  }

  lemma PackFailKeeps(s: State, c: CallId)
    requires Inv(s) && c in s.calls && PcOf(s, c).Packing?
    ensures Inv(Go(s, c, PackFailed))
  {
    hide TableOk, SlotsOk, ScanOk, QueueOk, LocksOk, MuxerOk;
    OneCall(s, c);
    MoveFrame(s, Go(s, c, PackFailed), c, PackFailed);
  }

  lemma SendThrowKeeps(s: State, c: CallId)
    requires Inv(s) && c in s.calls && PcOf(s, c).Packing?
    ensures Inv(Go(s.(wlk := None), c, SendThrew))
  {
    hide TableOk, SlotsOk, ScanOk, QueueOk, LocksOk, MuxerOk;
    OneCall(s, c);
    MoveFrame(s, Go(s.(wlk := None), c, SendThrew), c, SendThrew);
  }

  lemma RecvThrowKeeps(s: State, c: CallId)
    requires Inv(s) && c in s.calls && PcOf(s, c).Reading?
    ensures Inv(Go(s.(rlk := None), c, RecvThrew))
  {
    hide TableOk, SlotsOk, ScanOk, QueueOk, LocksOk, MuxerOk;
    OneCall(s, c);
    MoveFrame(s, Go(s.(rlk := None), c, RecvThrew), c, RecvThrew);
  }

  lemma TestReplyKeeps(s: State, c: CallId)
    requires Inv(s) && c in s.calls && PcOf(s, c).MuxLoop? && s.calls[c].p.None?
    ensures Inv(Go(s.(lk := None), c, Receiving))
  {
    hide TableOk, SlotsOk, ScanOk, QueueOk, LocksOk, MuxerOk;
    OneCall(s, c);
    MoveFrame(s, Go(s.(lk := None), c, Receiving), c, Receiving);
  }

  lemma SpuriousKeeps(s: State, c: CallId)
    requires Inv(s) && c in s.calls && (PcOf(s, c).TagAsleep? || PcOf(s, c).Asleep?)
    ensures Inv(Go(s, c, if PcOf(s, c).TagAsleep? then TagWoken else Woken))
  {
    hide TableOk, SlotsOk, ScanOk, QueueOk, LocksOk, MuxerOk;
    OneCall(s, c);
    if PcOf(s, c).TagAsleep? {
      MoveFrame(s, Go(s, c, TagWoken), c, TagWoken);
    } else {
      MoveFrame(s, Go(s, c, Woken), c, Woken);
    }
  }

  lemma SendKeeps(s: State, c: CallId, s': State)
    requires Inv(s) && c in s.calls && PcOf(s, c).Packing?
    requires s' == Go(s.(wlk := None, unanswered := s'.unanswered), c, WantMux)
    ensures Inv(s')
  {
    hide TableOk, SlotsOk, ScanOk, QueueOk, LocksOk, MuxerOk;
    OneCall(s, c);
    MoveFrame(s, s', c, WantMux);
  }

  /** recvmsg returns with or without a message. */
  lemma ReceiveKeeps(s: State, c: CallId, s': State)
    requires Inv(s) && c in s.calls && PcOf(s, c).Reading? && c in s'.calls
    requires PcOf(s', c).Got? || PcOf(s', c).RecvFailed?
    requires s' == Go(s.(rlk := None, net := s'.net, received := s'.received, lost := s'.lost), c, PcOf(s', c))
    ensures Inv(s')
  {
    hide TableOk, SlotsOk, ScanOk, QueueOk, LocksOk, MuxerOk;
    OneCall(s, c);
    MoveFrame(s, s', c, PcOf(s', c));
  }

  predicate MovesOneCall(l: Label) {
    || l.LockForTag? || l.LockWrite? || l.LockForMux? || l.LockRead? || l.Spurious? || l.Send? || l.PackFail?
    || l.SendThrow? || l.Recv? || l.RecvFail? || l.RecvThrow? || l.TestReply?
  }

  lemma MovingKeeps(s: State, l: Label)
    requires Inv(s) && Enabled(s, l) && MovesOneCall(l)
    ensures Inv(Next(s, l))
  {
    hide Inv;
    match l
    case Send(c) => SendKeeps(s, c, Next(s, l));
    case PackFail(c) => PackFailKeeps(s, c);
    case SendThrow(c) => SendThrowKeeps(s, c);
    case RecvThrow(c) => RecvThrowKeeps(s, c);
    case Recv(c) => ReceiveKeeps(s, c, Next(s, l));
    case RecvFail(c) => ReceiveKeeps(s, c, Next(s, l));
    case TestReply(c) => TestReplyKeeps(s, c);
    case LockForTag(c) => LockForTagKeeps(s, c);
    case LockWrite(c) => LockWriteKeeps(s, c);
    case LockForMux(c) => LockForMuxKeeps(s, c);
    case LockRead(c) => LockReadKeeps(s, c);
    case Spurious(c) => SpuriousKeeps(s, c);
  }

  /** The steps of gettag and puttag. */
  predicate MovesTags(l: Label) { l.TestTags? || l.TakeTag? || l.Enqueue? || l.DropTag? || l.Leave? || l.Lapse? }

  lemma TaggingKeeps(s: State, l: Label)
    requires Inv(s) && Enabled(s, l) && MovesTags(l)
    ensures Next(s, l).crashed || Inv(Next(s, l))
  {
    hide Inv, TestTagsNext, TakeTagNext, EnqueueNext, PutTagNext, MayWake;
    match l
    case TestTags(c) => TestTagsKeeps(s, c);
    case TakeTag(c) => TakeTagKeeps(s, c);
    case Enqueue(c) => EnqueueKeeps(s, c);
    case DropTag(c, w) => PutTagKeeps(s, c, w, None, Dropped);
    case Lapse(c) => LapseKeeps(s, c);
    case Leave(c, w) => PutTagKeeps(s, c, w, s.wlk, Done(s.calls[c].p));
  }

  /** Any step of any thread or of the server, if it does not end in a throw. */
  lemma StepKeeps(s: State, l: Label)
    requires Inv(s) && Enabled(s, l)
    ensures Next(s, l).crashed || Inv(Next(s, l))
  {
    hide Inv, TestMuxNext, ElectNext;
    if MovesTags(l) {
      TaggingKeeps(s, l);
      return;
    }
    match l
    case Begin(c) => BeginKeeps(s, c);
    case Drop(c) => if c in s.queue { DequeueKeeps(s, c, Dropping); }
    case PassBuck(c) => if c in s.queue { DequeueKeeps(s, c, GivingUp); }
    case TestMux(c) => TestMuxKeeps(s, c);
    case Dispatch(c) => if !Next(s, l).crashed { DispatchKeeps(s, c); }
    case Elect(c) => ElectKeeps(s, c);
    case Answer(q) => ServerKeeps(s, Next(s, l));
    case Rogue(q) => ServerKeeps(s, Next(s, l));
    case Mount => MountKeeps(s);
    case _ => MovingKeeps(s, l);
  }

  lemma SharedOnly(s: State, s': State)
    requires s' == s.(unanswered := s'.unanswered, net := s'.net)
    ensures TableOk(s) ==> TableOk(s')
    ensures SlotsOk(s) ==> SlotsOk(s')
    ensures ScanOk(s) ==> ScanOk(s')
    ensures QueueOk(s) ==> QueueOk(s')
    ensures LocksOk(s) ==> LocksOk(s')
    ensures MuxerOk(s) ==> MuxerOk(s')
  {
  }

  lemma ServerKeeps(s: State, s': State)
    requires Inv(s) && s' == s.(unanswered := s'.unanswered, net := s'.net)
    ensures Inv(s')
  {
    hide TableOk, SlotsOk, ScanOk, QueueOk, LocksOk, MuxerOk;
    SharedOnly(s, s');
  }

  lemma NotAfterThrow(s: State, l: Label)
    requires Enabled(s, l)
    ensures !s.crashed
  {
  }

  /** Induction over a run: the invariant holds in each state that is not a crash. */
  lemma {:induction false} RunKeeps(states: seq<State>, labels: seq<Label>, i: nat)
    requires Run(states, labels) && i < |states|
    ensures states[i].crashed || Inv(states[i])
  {
    hide Enabled, Next, Inv;
    if i == 0 {
      InitInv();
    } else {
      RunKeeps(states, labels, i - 1);
      assert Follows(states, labels, i - 1);
      NotAfterThrow(states[i - 1], labels[i - 1]);
      StepKeeps(states[i - 1], labels[i - 1]);
    }
  }

  // ----- theorems over whole runs

  /** In every interleaving at most one call is in the receive loop, and it is the muxer. */
  lemma OneReceiver(states: seq<State>, labels: seq<Label>, i: nat, c: CallId, d: CallId)
    requires Run(states, labels) && i < |states| && !states[i].crashed
    requires c in states[i].calls && Receiver(PcOf(states[i], c))
    requires d in states[i].calls && Receiver(PcOf(states[i], d))
    ensures c == d && states[i].muxer == Some(c)
  {
    RunKeeps(states, labels, i);
  }

  /** Tags of live calls are distinct 16-bit numbers, NoTag in the version phase and below 256 after it. */
  lemma LiveTags(states: seq<State>, labels: seq<Label>, i: nat, c: CallId, d: CallId)
    requires Run(states, labels) && i < |states| && !states[i].crashed
    requires c in states[i].calls && HasSlot(PcOf(states[i], c))
    requires d in states[i].calls && HasSlot(PcOf(states[i], d))
    ensures states[i].calls[c].tag == states[i].calls[d].tag ==> c == d
    ensures if Mount in labels[..i] then states[i].calls[c].tag < 256 else states[i].calls[c].tag == 0xFFFF && c == d
    ensures U16(states[i].calls[c].tag) == states[i].calls[c].tag == states[i].calls[c].tag % 0x1_0000
  {
    hide HasSlot, ScanOk, QueueOk, LocksOk, MuxerOk;
    RunKeeps(states, labels, i);
    BoundsOf(states, labels, i);
    SlotTag(states[i], c);
    SlotTag(states[i], d);
  }

  /** The bounds are those of the version exchange until the mount, and the normal ones from it on. */
  lemma {:induction false} BoundsOf(states: seq<State>, labels: seq<Label>, i: nat)
    requires Run(states, labels) && i < |states|
    ensures states[i].bounds == if Mount in labels[..i] then Bounds(0, 255) else Bounds(0xFFFF, 0x1_0000)
  {
    if i > 0 {
      BoundsOf(states, labels, i - 1);
      assert Follows(states, labels, i - 1);
      assert labels[..i] == labels[..i - 1] + [labels[i - 1]];
      BoundsNext(states[i - 1], labels[i - 1]);
    }
  }

  lemma BoundsNext(s: State, l: Label)
    requires Enabled(s, l)
    ensures Next(s, l).bounds == if l == Mount then Bounds(0, 255) else s.bounds
  {
    hide Scan, Take, Grow, Release, Without;
  }

  /** gettag waits exactly when all of the slots there can be are taken: 256, and one before the mount. */
  lemma WaitsForTagExactly(states: seq<State>, labels: seq<Label>, i: nat, c: CallId)
    requires Run(states, labels) && i < |labels| && labels[i] == TestTags(c)
    ensures c in states[i + 1].calls
    ensures PcOf(states[i + 1], c).TagAsleep? <==>
              var t := states[i].tab;
              Occupied(t.wait) == |t.wait| == if Mount in labels[..i] then 256 else 1
  {
    hide SlotsOk, ScanOk, QueueOk, LocksOk, MuxerOk;
    RunKeeps(states, labels, i);
    BoundsOf(states, labels, i);
    assert Follows(states, labels, i);
    TableBounded(states[i].tab, Span(states[i].bounds));
  }

  lemma SlotTag(s: State, c: CallId)
    requires TableOk(s) && SlotsOk(s) && c in s.calls && HasSlot(PcOf(s, c))
    ensures NamesSlot(s, c, Slot(s, s.calls[c].tag))
    ensures if s.bounds == VERSION_BOUNDS then s.calls[c].tag == NO_TAG else s.calls[c].tag < 256
  {
    TableBounded(s.tab, Span(s.bounds));
  }

  /** The slot table: its count is exact, it is a power of two, and at most 256 slots long. */
  lemma TableExact(states: seq<State>, labels: seq<Label>, i: nat)
    requires Run(states, labels) && i < |states| && !states[i].crashed
    ensures var t := states[i].tab;
            t.nwait == Occupied(t.wait) && |t.wait| == t.mwait <= 256
            && (t.mwait > 0 ==> PowerOfTwo(t.mwait) && t.freetag < t.mwait)
  {
    RunKeeps(states, labels, i);
    TableBounded(states[i].tab, Span(states[i].bounds));
  }

  /** A call is linked exactly while it is tagged and has no reply. */
  lemma QueueExact(states: seq<State>, labels: seq<Label>, i: nat, c: CallId)
    requires Run(states, labels) && i < |states| && !states[i].crashed && c in states[i].calls
    ensures c in states[i].queue <==> InLoop(PcOf(states[i], c)) && states[i].calls[c].p.None?
    ensures NoDup(states[i].queue)
  {
    RunKeeps(states, labels, i);
  }

  /** Answers no queued call. */
  predicate Stray(s: State, f: Reply) {
    var i := Slot(s, f.tag);
    !(0 <= i < |s.tab.wait| && s.tab.wait[i].Some? && s.tab.wait[i].value in s.queue)
  }

  /** The two throws a bad server can cause: a stray reply, and an answer to a call whose pack failed. */
  predicate Provoked(s: State, l: Label) {
    match l
    case Dispatch(c) => c in s.calls && PcOf(s, c).Got? && Stray(s, PcOf(s, c).reply)
    case Drop(c) => c in s.calls && s.calls[c].p.Some?
    case _ => false
  }

  /**
   No other step throws while it holds _lk or follows a null link: the throws of gettag and
   puttag and the muxer check are unreachable whatever the server does.
   */
  lemma OnlyBadRepliesThrow(states: seq<State>, labels: seq<Label>, i: nat)
    requires Run(states, labels) && i < |labels|
    ensures states[i + 1].crashed <==> Provoked(states[i], labels[i])
  {
    RunKeeps(states, labels, i);
    assert Follows(states, labels, i);
    ThrowsExactly(states[i], labels[i]);
  }

  lemma ThrowsExactly(s: State, l: Label)
    requires Inv(s) && Enabled(s, l)
    ensures Next(s, l).crashed <==> Provoked(s, l)
  {
    hide SlotsOk, TableOk, LocksOk, ScanOk, QueueOk, MuxerOk, Scan, Take, Without, Release;
    match l
    case TakeTag(c) => TakeTagKeeps(s, c);
    case DropTag(c, w) => SlotOwned(s, c);
    case Leave(c, w) => SlotOwned(s, c);
    case TestMux(c) => TestMuxKeeps(s, c);
    case Dispatch(c) => QueuedAreCalls(s);
    case Drop(c) => DequeueThrows(s, c);
    case PassBuck(c) => DequeueThrows(s, c);
    case _ => NeverThrows(s, l);
  }

  lemma QueuedAreCalls(s: State)
    requires QueueOk(s)
    ensures forall c :: c in s.queue ==> c in s.calls
  {
  }

  /** A call is off the queue only when it has its answer. */
  lemma DequeueThrows(s: State, c: CallId)
    requires Inv(s) && c in s.calls && (PcOf(s, c).PackFailed? || PcOf(s, c).RecvFailed?)
    ensures c !in s.queue <==> s.calls[c].p.Some?
    ensures PcOf(s, c).RecvFailed? ==> c in s.queue
  {
    hide SlotsOk, TableOk, LocksOk, ScanOk;
  }

  lemma NeverThrows(s: State, l: Label)
    requires Enabled(s, l)
    requires !l.TakeTag? && !l.DropTag? && !l.Leave? && !l.TestMux? && !l.Dispatch? && !l.Drop? && !l.PassBuck?
    ensures !Next(s, l).crashed
  {
    hide Grow, Without;
  }
}
