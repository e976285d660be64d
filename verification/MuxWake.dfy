/**
 No wake-up is lost: neither by calls asleep in muxrpc waiting for their reply, nor by
 calls asleep in gettag waiting for a tag; and, from both, no deadlock.
 */
module MuxWake {
  import opened Options
  import opened TagTable
  import opened WaitQueue
  import opened MuxModel
  import opened MuxSafety
  import opened MuxReplies

  /** Some live call is the muxer and was not unwound by a throw. */
  predicate Manned(s: State) { MuxerLive(s) && !Threw(PcOf(s, s.muxer.value)) }

  /** Whoever sleeps for a reply has none, and there is a muxer that can go on. */
  ghost predicate Wakeful(s: State) {
    forall c :: c in s.calls && PcOf(s, c).Asleep? ==> s.calls[c].p.None? && Manned(s)
  }

  ghost predicate SomeoneSleeps(s: State) {
    exists d :: d in s.calls && PcOf(s, d).Asleep?
  }

  /** The call that failed to pack, or that a throw of sendmsg or recvmsg unwinds, is the muxer. */
  predicate MuxerGoes(s: State, l: Label) { (l.Lapse? || l.SendThrow? || l.RecvThrow?) && s.muxer == Some(l.c) }

  /** The call elected was unwound before. */
  predicate ElectsThrown(s: State, l: Label) {
    l.Elect? && s.queue != [] && s.queue[0] in s.calls && Threw(PcOf(s, s.queue[0]))
  }

  /** A call goes to sleep behind a muxer that was unwound. */
  predicate SleepsBehind(s: State, l: Label) {
    && l.TestMux? && l.c in s.calls && s.calls[l.c].p.None?
    && s.muxer != Some(l.c) && MuxerLive(s) && Threw(PcOf(s, s.muxer.value))
  }

  /** The steps after which somebody sleeps and no muxer can go on. */
  ghost predicate Strands(s: State, l: Label) {
    ((MuxerGoes(s, l) || ElectsThrown(s, l)) && SomeoneSleeps(s)) || SleepsBehind(s, l)
  }

  lemma WakeFrame(s: State, s': State, c: CallId, k: Call)
    requires Wakeful(s) && c in s.calls && s'.calls == s.calls[c := k] && s'.muxer == s.muxer
    requires k.pc.Asleep? ==> k.p.None? && Manned(s')
    requires s.muxer == Some(c) ==> !Ended(k.pc) && !Threw(k.pc)
    ensures Wakeful(s')
  {
  }

  /** The steps of one call that can neither end it, nor unwind it, nor put it to sleep in muxrpc. */
  predicate Carries(l: Label) { Alone(l) && !l.TestMux? && !l.Lapse? && !l.SendThrow? && !l.RecvThrow? }

  lemma MoveWakes(s: State, l: Label)
    requires Wakeful(s) && Enabled(s, l) && !Next(s, l).crashed && Carries(l)
    ensures Wakeful(Next(s, l))
  {
    hide Next, Enabled, Wakeful;
    AloneMoves(s, l);
    if MovesOneCall(l) {
      MovesAwake(s, l);
    } else {
      WorksAwake(s, l);
    }
    WakeFrame(s, Next(s, l), l.c, Next(s, l).calls[l.c]);
  }

  lemma MovesAwake(s: State, l: Label)
    requires Enabled(s, l) && MovesOneCall(l) && Carries(l) && l.c in Next(s, l).calls
    ensures var (s', pc) := (Next(s, l), PcOf(Next(s, l), l.c));
            s'.muxer == s.muxer && !pc.Asleep? && !Ended(pc) && !Threw(pc)
  {
  }

  lemma WorksAwake(s: State, l: Label)
    requires Enabled(s, l) && !Next(s, l).crashed && Carries(l) && !MovesOneCall(l) && l.c in Next(s, l).calls
    ensures var (s', pc) := (Next(s, l), PcOf(Next(s, l), l.c));
            s'.muxer == s.muxer && !pc.Asleep? && !Ended(pc) && !Threw(pc)
  {
    hide Scan, Grow, Take, Without;
  }

  lemma TestMuxWakes(s: State, c: CallId)
    requires Wakeful(s) && Enabled(s, TestMux(c))
    ensures Wakeful(Next(s, TestMux(c))) <==> !SleepsBehind(s, TestMux(c))
  {
    var s' := TestMuxNext(s, c);
    if SleepsBehind(s, TestMux(c)) {
      assert c in s'.calls && PcOf(s', c).Asleep? && !Manned(s');
    } else if !PcOf(s', c).Receiving? {
      WakeFrame(s, s', c, s'.calls[c]);
    }
  }

  lemma PutTagWakes(s: State, l: Label)
    requires Inv(s) && Wakeful(s) && Enabled(s, l) && (l.DropTag? || l.Leave?)
    ensures Wakeful(Next(s, l))
  {
    hide TableOk, SlotsOk, ScanOk, QueueOk, LocksOk, Wakeful, Next, NotifyTag, OwnsSlot;
    SlotOwned(s, l.c);
    NotifiedWakes(s, l.woken);
    PutTagLeaves(s, l);
    WakeFrame(NotifyTag(s, l.woken), Next(s, l), l.c, Next(s, l).calls[l.c]);
  }

  lemma NotifiedWakes(s: State, w: Option<CallId>)
    requires Wakeful(s) && MayWake(s, w)
    ensures Wakeful(NotifyTag(s, w))
  {
    if w.Some? {
      hide Wakeful;
      WakeFrame(s, NotifyTag(s, w), w.value, NotifyTag(s, w).calls[w.value]);
    }
  }

  /** Who leaves with a reply is not the muxer. */
  lemma PutTagLeaves(s: State, l: Label)
    requires MuxerOk(s) && Enabled(s, l) && (l.DropTag? || l.Leave?) && OwnsSlot(s, l.c)
    ensures var s1, s' := NotifyTag(s, l.woken), Next(s, l);
            && l.c in s1.calls && l.c in s'.calls && s'.calls == s1.calls[l.c := s'.calls[l.c]]
            && s'.muxer == s1.muxer && !PcOf(s', l.c).Asleep? && !Threw(PcOf(s', l.c))
            && (s1.muxer == Some(l.c) ==> !Ended(PcOf(s', l.c)))
  {
    PutTagLabel(s, l);
    hide Enabled, Next, Release, OwnsSlot, PutTag, PutTagNext, MayWake;
    TagWakeElsewhere(s, l.c, l.woken);
    PutTagShape(s, l.c, l.woken, LeftWlk(s, l), LeftPc(s, l));
  }

  /** One call ends or is unwound. */
  lemma GoingWakes(s: State, s': State, c: CallId, pc: Pc)
    requires Wakeful(s) && c in s.calls && !PcOf(s, c).Asleep? && (Ended(pc) || Threw(pc))
    requires s'.calls == s.calls[c := s.calls[c].(pc := pc)] && s'.muxer == s.muxer
    ensures Wakeful(s') <==> !(s.muxer == Some(c) && SomeoneSleeps(s))
  {
    if s.muxer == Some(c) {
      assert forall d :: d in s.calls ==> PcOf(s', d).Asleep? == PcOf(s, d).Asleep?;
      assert !Manned(s');
    } else {
      WakeFrame(s, s', c, s'.calls[c]);
    }
  }

  lemma DispatchWakes(s: State, c: CallId)
    requires Wakeful(s) && Enabled(s, Dispatch(c)) && !Next(s, Dispatch(c)).crashed
    ensures Wakeful(Next(s, Dispatch(c)))
  {
    hide Wakeful, Without;
    var s1 := Go(s.(lk := Some(c)), c, MuxLoop);
    WakeFrame(s, s1, c, s1.calls[c]);
    var r := s.tab.wait[Slot(s, PcOf(s, c).reply.tag)].value;
    HandedWakes(s1, Next(s, Dispatch(c)), r, PcOf(s, c).reply);
  }

  /** Whoever is given a reply does not sleep afterwards. */
  lemma HandedWakes(s: State, s': State, r: CallId, f: Reply)
    requires Wakeful(s) && r in s.calls && s'.muxer == s.muxer
    requires s'.calls == s.calls[r := Call(if PcOf(s, r).Asleep? then Woken else PcOf(s, r), s.calls[r].tag, Some(f))]
    ensures Wakeful(s')
  {
  }

  lemma ElectWakes(s: State, c: CallId)
    requires Inv(s) && Wakeful(s) && Enabled(s, Elect(c))
    ensures Wakeful(Next(s, Elect(c))) <==> !(ElectsThrown(s, Elect(c)) && SomeoneSleeps(s))
  {
    hide TableOk, SlotsOk, ScanOk, QueueOk, LocksOk, MuxerOk;
    if s.queue == [] {
      NobodySleeps(s);
    } else {
      QueuedUnanswered(s);
      hide Inv, Wakeful, SomeoneSleeps, Next, Enabled;
      HeadWakes(s, c);
    }
  }

  lemma HeadWakes(s: State, c: CallId)
    requires Wakeful(s) && Enabled(s, Elect(c)) && s.queue != [] && s.queue[0] in s.calls
    requires Unanswered(s.calls[s.queue[0]])
    ensures Wakeful(Next(s, Elect(c))) <==> !(ElectsThrown(s, Elect(c)) && SomeoneSleeps(s))
  {
    var s' := Next(s, Elect(c));
    if ElectsThrown(s, Elect(c)) {
      assert forall d :: d in s.calls ==> PcOf(s', d).Asleep? == PcOf(s, d).Asleep?;
      assert !Manned(s');
    }
  }

  /** Whoever sleeps is queued. */
  lemma NobodySleeps(s: State)
    requires QueueOk(s) && Wakeful(s) && s.queue == []
    ensures !SomeoneSleeps(s)
  {
  }

  lemma StepWakes(s: State, l: Label)
    requires Inv(s) && Wakeful(s) && Enabled(s, l) && !Next(s, l).crashed
    ensures Wakeful(Next(s, l)) <==> !Strands(s, l)
  {
    if Carries(l) {
      hide Inv, Wakeful, Enabled, Next, SomeoneSleeps;
      MoveWakes(s, l);
    } else if l.Lapse? || l.SendThrow? || l.RecvThrow? {
      hide Inv, Wakeful, SomeoneSleeps;
      GoingWakes(s, Next(s, l), l.c, PcOf(Next(s, l), l.c));
    } else {
      IsAlone(l);
      hide Alone, Inv, Wakeful, SomeoneSleeps, Enabled, Next;
      OthersWake(s, l);
    }
  }

  lemma OthersWake(s: State, l: Label)
    requires Inv(s) && Wakeful(s) && Enabled(s, l) && !Next(s, l).crashed
    requires || l.TestMux? || l.DropTag? || l.Leave? || l.Elect? || l.Dispatch? || l.Begin? || l.Answer? || l.Rogue?
             || l.Mount?
    ensures Wakeful(Next(s, l)) <==> !Strands(s, l)
  {
    hide Inv, Wakeful, SomeoneSleeps, Manned, MuxerLive, Enabled, Next;
    match l
    case TestMux(c) => TestMuxWakes(s, c);
    case DropTag(c, w) => PutTagWakes(s, l);
    case Leave(c, w) => PutTagWakes(s, l);
    case Elect(c) => ElectWakes(s, c);
    case Dispatch(c) => DispatchWakes(s, c);
    case _ => OutsideWakes(s, l);
  }

  lemma OutsideWakes(s: State, l: Label)
    requires Wakeful(s) && Enabled(s, l) && (l.Begin? || l.Answer? || l.Rogue? || l.Mount?)
    ensures Wakeful(Next(s, l))
  {
  }

  // ----- waiting for a tag

  /** Notified on _tagrend and not yet done trying to take a tag. */
  predicate Trying(pc: Pc) { pc.TagWoken? || (pc.TagTest? && pc.woken) || (pc.TagScan? && pc.woken) }

  ghost function Triers(s: State): set<CallId> { set c | c in s.calls && Trying(PcOf(s, c)) }

  /** While anyone sleeps for a tag, the free slots are no more than the notified who still have to run. */
  ghost predicate TagWakeful(s: State) {
    (exists c :: c in s.calls && PcOf(s, c).TagAsleep?) ==>
      s.tab.mwait >= Span(s.bounds) && s.tab.mwait - s.tab.nwait <= |Triers(s)|
  }

  /** A step that leaves the table alone and takes nobody out of the triers or into the sleepers. */
  lemma TagFrame(s: State, s': State)
    requires TagWakeful(s) && s'.tab == s.tab && s'.bounds == s.bounds
    requires forall c :: c in s.calls && Trying(PcOf(s, c)) ==> c in s'.calls && Trying(PcOf(s', c))
    requires forall c :: c in s'.calls && PcOf(s', c).TagAsleep? ==> c in s.calls && PcOf(s, c).TagAsleep?
    ensures TagWakeful(s')
  {
    Subset(Triers(s), Triers(s'));
  }

  lemma {:induction false} Subset<T>(a: set<T>, b: set<T>)
    requires a <= b
    ensures |a| <= |b|
  {
    assert b == a + (b - a);
  }

  lemma TestTagsWakes(s: State, c: CallId)
    requires Inv(s) && TagWakeful(s) && c in s.calls && PcOf(s, c).TagTest?
    ensures TagWakeful(TestTagsNext(s, c))
  {
    hide SlotsOk, QueueOk, LocksOk, MuxerOk, ScanOk;
    var s' := TestTagsNext(s, c);
    if s.tab.nwait != s.tab.mwait {
      TagFrame(s, s');
    } else if s.tab.mwait < Span(s.bounds) {
      assert forall d :: d in s'.calls && PcOf(s', d).TagAsleep? ==> d in s.calls && PcOf(s, d).TagAsleep?;
    }
  }

  lemma TakeTagWakes(s: State, c: CallId)
    requires Inv(s) && TagWakeful(s) && c in s.calls && PcOf(s, c).TagScan?
    ensures TagWakeful(TakeTagNext(s, c))
  {
    hide SlotsOk, QueueOk, LocksOk, MuxerOk, ScanOk;
    TakeTagKeeps(s, c);
    var s' := TakeTagNext(s, c);
    assert forall d :: d in s'.calls && PcOf(s', d).TagAsleep? ==> d in s.calls && PcOf(s, d).TagAsleep?;
    Subset(Triers(s) - {c}, Triers(s'));
  }

  /** puttag's notify_one makes room for the slot it is about to free. */
  lemma NotifyTagWakes(s: State, w: Option<CallId>)
    requires TagWakeful(s) && MayWake(s, w)
    ensures var s' := NotifyTag(s, w);
            (exists c :: c in s'.calls && PcOf(s', c).TagAsleep?) ==>
              s.tab.mwait >= Span(s.bounds) && s.tab.mwait - s.tab.nwait + 1 <= |Triers(s')|
  {
    var s' := NotifyTag(s, w);
    if w.Some? {
      assert forall d :: d in s'.calls && PcOf(s', d).TagAsleep? ==> d in s.calls && PcOf(s, d).TagAsleep?;
      assert w.value !in Triers(s);
      Subset(Triers(s) + {w.value}, Triers(s'));
    }
  }

  lemma PutTagTagWakes(s: State, l: Label)
    requires Inv(s) && TagWakeful(s) && Enabled(s, l) && (l.DropTag? || l.Leave?)
    ensures TagWakeful(Next(s, l))
  {
    hide SlotsOk, QueueOk, LocksOk, MuxerOk, ScanOk, TableOk;
    var s1 := NotifyTag(s, l.woken);
    var s' := Next(s, l);
    SlotOwned(s, l.c);
    NotifyTagWakes(s, l.woken);
    hide TagWakeful;
    ReleaseTagWakes(s1, s', l.c, s'.calls[l.c]);
  }

  lemma ReleaseTagWakes(s: State, s': State, c: CallId, k: Call)
    requires c in s.calls && OwnsSlot(s, c) && s'.calls == s.calls[c := k]
    requires s'.tab == Release(s.tab, Slot(s, s.calls[c].tag)) && s'.bounds == s.bounds
    requires !k.pc.TagAsleep? && !Trying(PcOf(s, c))
    requires (exists d :: d in s.calls && PcOf(s, d).TagAsleep?) ==>
               s.tab.mwait >= Span(s.bounds) && s.tab.mwait - s.tab.nwait + 1 <= |Triers(s)|
    ensures TagWakeful(s')
  {
    assert forall d :: d in s'.calls && PcOf(s', d).TagAsleep? ==> d in s.calls && PcOf(s, d).TagAsleep?;
    Subset(Triers(s), Triers(s'));
  }

  lemma MountTagWakes(s: State)
    requires Enabled(s, Mount)
    ensures TagWakeful(Next(s, Mount))
  {
  }

  lemma MoveTagWakes(s: State, l: Label)
    requires TagWakeful(s) && Enabled(s, l) && !Next(s, l).crashed && Alone(l) && !l.TestTags? && !l.TakeTag?
    ensures TagWakeful(Next(s, l))
  {
    hide Next, Enabled, TagWakeful, Alone, MovesOneCall;
    AloneMoves(s, l);
    if MovesOneCall(l) {
      MovesTrying(s, l);
    } else {
      WorksTrying(s, l);
    }
    TagFrame(s, Next(s, l));
  }

  lemma MovesTrying(s: State, l: Label)
    requires Enabled(s, l) && MovesOneCall(l) && l.c in s.calls && l.c in Next(s, l).calls
    ensures var s' := Next(s, l);
            && s'.tab == s.tab && s'.bounds == s.bounds && !PcOf(s', l.c).TagAsleep?
            && (Trying(PcOf(s, l.c)) ==> Trying(PcOf(s', l.c)))
  {
  }

  lemma WorksTrying(s: State, l: Label)
    requires Enabled(s, l) && !Next(s, l).crashed && Alone(l) && !MovesOneCall(l) && !l.TestTags? && !l.TakeTag?
    requires l.c in s.calls && l.c in Next(s, l).calls
    ensures var s' := Next(s, l);
            && s'.tab == s.tab && s'.bounds == s.bounds && !PcOf(s', l.c).TagAsleep?
            && (Trying(PcOf(s, l.c)) ==> Trying(PcOf(s', l.c)))
  {
    hide Scan, Grow, Take, Without, MuxerLive;
  }

  lemma ServerTagWakes(s: State, l: Label)
    requires TagWakeful(s) && Enabled(s, l) && (l.Begin? || l.Answer? || l.Rogue?)
    ensures TagWakeful(Next(s, l))
  {
    hide TagWakeful;
    TagFrame(s, Next(s, l));
  }

  /** The steps that wake sleepers in muxrpc. */
  lemma WakingTagWakes(s: State, l: Label)
    requires TagWakeful(s) && Enabled(s, l) && !Next(s, l).crashed && (l.Dispatch? || l.Elect?)
    ensures TagWakeful(Next(s, l))
  {
    if l.Dispatch? {
      DispatchTagWakes(s, l.c);
    } else {
      hide TagWakeful, DispatchNext;
      TagFrame(s, Next(s, l));
    }
  }

  lemma DispatchTagWakes(s: State, c: CallId)
    requires TagWakeful(s) && Enabled(s, Dispatch(c)) && !Next(s, Dispatch(c)).crashed
    ensures TagWakeful(Next(s, Dispatch(c)))
  {
    hide TagWakeful, Without;
    TagFrame(s, Next(s, Dispatch(c)));
  }

  lemma StepTagWakes(s: State, l: Label)
    requires Inv(s) && TagWakeful(s) && Enabled(s, l) && !Next(s, l).crashed
    ensures TagWakeful(Next(s, l))
  {
    hide Inv, TagWakeful;
    if Alone(l) && !l.TestTags? && !l.TakeTag? {
      hide Enabled, Next, Alone;
      MoveTagWakes(s, l);
    } else {
      IsAlone(l);
      hide Alone;
      match l
      case TestTags(c) => TestTagsWakes(s, c);
      case TakeTag(c) => TakeTagWakes(s, c);
      case DropTag(c, w) => PutTagTagWakes(s, l);
      case Leave(c, w) => PutTagTagWakes(s, l);
      case Mount => MountTagWakes(s);
      case Dispatch(c) => WakingTagWakes(s, l);
      case Elect(c) => WakingTagWakes(s, l);
      case _ => ServerTagWakes(s, l);
    }
  }

  // ----- no deadlock

  /** A step some unfinished call can always count on: of a thread, or an answer of the server. */
  predicate Useful(l: Label) {
    && !l.Begin? && !l.Spurious? && !l.Rogue? && !l.Mount?
    && !l.PackFail? && !l.SendThrow? && !l.RecvFail? && !l.RecvThrow?
  }

  /** Every slot belongs to a call that was unwound, which never gives it up. */
  ghost predicate SlotsLost(s: State) {
    s.tab.wait != [] && forall i :: 0 <= i < |s.tab.wait| ==>
      var w := s.tab.wait[i]; w.Some? && w.value in s.calls && Threw(PcOf(s, w.value))
  }

  /** Has ended, or was unwound, or waits for a tag that no call will ever give up. */
  ghost predicate OutOfReach(s: State, c: CallId)
    requires c in s.calls
  {
    Ended(PcOf(s, c)) || Threw(PcOf(s, c)) || (PcOf(s, c).TagAsleep? && SlotsLost(s))
  }

  ghost predicate Healthy(s: State) {
    !s.crashed && Inv(s) && ReplyInv(s) && Unbroken(s) && Wakeful(s) && TagWakeful(s)
  }

  /** Some sleeper for notify_one to wake, if there is one. */
  ghost function TagSleeper(s: State): (w: Option<CallId>)
    ensures MayWake(s, w)
  {
    if NobodyAwaitsTag(s) then None
    else
      var c :| c in s.calls && PcOf(s, c).TagAsleep?;
      Some(c)
  }

  lemma HolderSteps(s: State, h: CallId) returns (l: Label)
    requires Healthy(s) && h in s.calls && HoldsLk(PcOf(s, h))
    ensures Enabled(s, l) && Useful(l)
  {
    match PcOf(s, h)
    case TagTest(_) => l := TestTags(h);
    case TagScan(_) => l := TakeTag(h);
    case Tagged => l := Enqueue(h);
    case Dropping => l := DropTag(h, TagSleeper(s));
    case MuxTest => l := TestMux(h);
    case MuxLoop => l := if s.calls[h].p.None? then TestReply(h) else Elect(h);
    case GivingUp => l := Elect(h);
    case Leaving => l := Leave(h, TagSleeper(s));
  }

  /** With _lk free, a call that sleeps on nothing can step, or its rival for _wlock, or the server. */
  lemma AwakeSteps(s: State, c: CallId) returns (l: Label)
    requires Healthy(s) && s.lk.None? && c in s.calls && !Ended(PcOf(s, c)) && !Threw(PcOf(s, c))
    requires !PcOf(s, c).Asleep? && !PcOf(s, c).TagAsleep?
    ensures Enabled(s, l) && Useful(l)
  {
    assert OwnReply(c, s.calls[c]);
    match PcOf(s, c)
    case Start => l := LockForTag(c);
    case TagWoken => l := LockForTag(c);
    case Sending => l := SenderSteps(s, c);
    case Packing => l := Send(c);
    case PackFailed => l := Drop(c);
    case WantMux => l := LockForMux(c);
    case Woken => l := LockForMux(c);
    case Receiving => l := LockRead(c);
    case Reading => l := ReaderSteps(s, c);
    case Got(_) => l := Dispatch(c);
    case Dropped => l := Lapse(c);
  }

  /** _wlock is free, or its holder can step. */
  lemma SenderSteps(s: State, c: CallId) returns (l: Label)
    requires !s.crashed && LocksOk(s) && s.lk.None? && c in s.calls && PcOf(s, c).Sending?
    ensures Enabled(s, l) && Useful(l)
  {
    if s.wlk.None? {
      l := LockWrite(c);
    } else {
      var h := s.wlk.value;
      l := if PcOf(s, h).Packing? then Send(h) else Drop(h);
    }
  }

  /** The muxer's own answer is on the wire or still with the server. */
  lemma ReaderSteps(s: State, c: CallId) returns (l: Label)
    requires Healthy(s) && c in s.calls && PcOf(s, c).Reading?
    ensures Enabled(s, l) && Useful(l)
  {
    assert OwnReply(c, s.calls[c]);
    assert s.muxer == Some(c) && Awaiting(s.calls[c]);
    l := if s.net != [] then Recv(c) else Answer(Wanted(c, s.calls[c]));
    assert InFlight(s) == s.net;
  }

  /** While any call is within reach, some step that helps is enabled. */
  lemma SomeoneSteps(s: State, c: CallId) returns (l: Label)
    requires Healthy(s) && c in s.calls && !OutOfReach(s, c)
    ensures Enabled(s, l) && Useful(l)
  {
    if s.lk.Some? {
      l := HolderSteps(s, s.lk.value);
    } else if PcOf(s, c).Asleep? {
      l := AwakeSteps(s, s.muxer.value);
    } else if PcOf(s, c).TagAsleep? {
      l := TagSleeperSteps(s, c);
    } else {
      l := AwakeSteps(s, c);
    }
  }

  lemma TagSleeperSteps(s: State, c: CallId) returns (l: Label)
    requires Healthy(s) && s.lk.None? && c in s.calls && PcOf(s, c).TagAsleep? && !SlotsLost(s)
    ensures Enabled(s, l) && Useful(l)
  {
    if Triers(s) != {} {
      var d :| d in Triers(s);
      hide Healthy;
      l := AwakeSteps(s, d);
    } else {
      l := FullTableSteps(s);
    }
  }

  lemma FullTableSteps(s: State) returns (l: Label)
    requires Healthy(s) && s.lk.None? && Triers(s) == {} && !SlotsLost(s) && !NobodyAwaitsTag(s)
    ensures Enabled(s, l) && Useful(l)
  {
    hide QueueOk, LocksOk, ReplyInv, Unbroken, SlotsLost;
    var d := HolderInReach(s);
    if PcOf(s, d).Asleep? {
      l := AwakeSteps(s, s.muxer.value);
    } else {
      l := AwakeSteps(s, d);
    }
  }

  /** With nobody notified the table is full, and some slot's call was not unwound. */
  lemma HolderInReach(s: State) returns (d: CallId)
    requires TableOk(s) && SlotsOk(s) && TagWakeful(s) && Triers(s) == {} && !SlotsLost(s) && !NobodyAwaitsTag(s)
    ensures d in s.calls && HasSlot(PcOf(s, d)) && !Threw(PcOf(s, d))
  {
    FullIffCounted(s.tab.wait);
    assert s.tab.wait != [] && forall i :: 0 <= i < |s.tab.wait| ==> s.tab.wait[i].Some?;
    var i :| 0 <= i < |s.tab.wait| && !(s.tab.wait[i].value in s.calls && Threw(PcOf(s, s.tab.wait[i].value)));
    d := s.tab.wait[i].value;
  }

  // ----- theorems over whole runs

  ghost predicate CleanRun(states: seq<State>, labels: seq<Label>) {
    Run(states, labels) && forall i :: 0 <= i < |labels| ==> !Strands(states[i], labels[i])
  }

  lemma {:induction false} CleanRunKeeps(states: seq<State>, labels: seq<Label>, i: nat)
    requires CleanRun(states, labels) && i < |states|
    ensures states[i].crashed || (Inv(states[i]) && Wakeful(states[i]))
  {
    hide Enabled, Next, Inv, Strands;
    if i == 0 {
      InitInv();
    } else {
      CleanRunKeeps(states, labels, i - 1);
      assert Follows(states, labels, i - 1);
      NotAfterThrow(states[i - 1], labels[i - 1]);
      StepKeeps(states[i - 1], labels[i - 1]);
      if !states[i].crashed {
        StepWakes(states[i - 1], labels[i - 1]);
      }
    }
  }

  /**
   A call asleep in muxrpc is queued without a reply, and another live call is the
   muxer, awake and not unwound.  That call is bound for the receive loop or in it, and
   itself queued without a reply whenever _lk is free, unless its pack has failed.
   */
  lemma NoLostWakeup(states: seq<State>, labels: seq<Label>, i: nat, c: CallId)
    requires CleanRun(states, labels) && i < |states| && !states[i].crashed
    requires c in states[i].calls && PcOf(states[i], c).Asleep?
    ensures var s := states[i];
            && c in s.queue && s.calls[c].p.None?
            && Manned(s) && s.muxer != Some(c)
            && Committed(s.calls[s.muxer.value])
            && (s.lk.None? && !PcOf(s, s.muxer.value).Dropped? ==>
                  s.muxer.value in s.queue && s.calls[s.muxer.value].p.None?)
  {
    CleanRunKeeps(states, labels, i);
  }

  /**
   A step leaves sleepers without a muxer that can go on exactly when somebody sleeps by
   then and the muxer's Rpc dies after a failed pack, or the muxer is unwound by a throw
   of sendmsg or recvmsg, or a call is elected that was; or when a call goes to sleep
   behind such a muxer.
   */
  lemma StrandingExactly(states: seq<State>, labels: seq<Label>, i: nat)
    requires Run(states, labels) && i < |labels| && Wakeful(states[i]) && !states[i + 1].crashed
    ensures Wakeful(states[i + 1]) <==> !Strands(states[i], labels[i])
  {
    RunKeeps(states, labels, i);
    assert Follows(states, labels, i);
    hide Inv, Next, Enabled, Wakeful, Strands;
    StepWakes(states[i], labels[i]);
  }

  // ----- after a throw of sendmsg or recvmsg

  /** The muxer was unwound. */
  predicate Lost(s: State) {
    s.muxer.Some? && s.muxer.value in s.calls && Threw(PcOf(s, s.muxer.value))
  }

  /** The muxer stays, nothing is received or handed over, and no call gets a reply. */
  ghost predicate Unheard(s: State, s': State) {
    && s'.muxer == s.muxer && s'.received == s.received && s'.delivered == s.delivered
    && (forall c :: c in s.calls ==> c in s'.calls && s'.calls[c].p == s.calls[c].p)
    && (forall c :: c in s'.calls && c !in s.calls ==> s'.calls[c].p.None?)
  }

  lemma LostStep(s: State, l: Label)
    requires Inv(s) && Lost(s) && Enabled(s, l) && !Next(s, l).crashed
    ensures Lost(Next(s, l)) && Unheard(s, Next(s, l))
  {
    if Alone(l) {
      hide Inv, Next, Enabled;
      LostAlone(s, l);
    } else if l.DropTag? || l.Leave? {
      SlotOwned(s, l.c);
      LostPutTag(s, l);
    } else {
      IsAlone(l);
      if l.Elect? || l.Dispatch? {
        OnlyMuxerReceives(s, l.c);
        assert false;
      }
    }
  }

  lemma OnlyMuxerReceives(s: State, c: CallId)
    requires MuxerOk(s) && c in s.calls && Receiver(PcOf(s, c))
    ensures s.muxer == Some(c)
  {
  }

  lemma LostAlone(s: State, l: Label)
    requires MuxerOk(s) && Lost(s) && Enabled(s, l) && Alone(l) && !Next(s, l).crashed
    ensures Lost(Next(s, l)) && Unheard(s, Next(s, l))
  {
    AloneMoves(s, l);
    if Receiver(PcOf(s, l.c)) {
      OnlyMuxerReceives(s, l.c);
    }
    hide MuxerOk;
    if MovesOneCall(l) {
      LostMoves(s, l);
    } else {
      LostWorks(s, l);
    }
    hide Next, Enabled, Alone, MovesOneCall;
  }

  lemma LostMoves(s: State, l: Label)
    requires Lost(s) && Enabled(s, l) && MovesOneCall(l) && (Receiver(PcOf(s, l.c)) ==> s.muxer == Some(l.c))
    ensures l.c in Next(s, l).calls && s.muxer != Some(l.c)
    ensures var s' := Next(s, l);
            && s'.muxer == s.muxer && s'.received == s.received && s'.delivered == s.delivered
            && s'.calls[l.c].p == s.calls[l.c].p
  {
  }

  lemma LostWorks(s: State, l: Label)
    requires Lost(s) && Enabled(s, l) && Alone(l) && !MovesOneCall(l) && !Next(s, l).crashed
    ensures l.c in Next(s, l).calls && s.muxer != Some(l.c)
    ensures var s' := Next(s, l);
            && s'.muxer == s.muxer && s'.received == s.received && s'.delivered == s.delivered
            && s'.calls[l.c].p == s.calls[l.c].p
  {
    hide Scan, Grow, Take, Without;
  }

  lemma LostPutTag(s: State, l: Label)
    requires Lost(s) && Enabled(s, l) && (l.DropTag? || l.Leave?) && OwnsSlot(s, l.c)
    ensures Lost(Next(s, l)) && Unheard(s, Next(s, l))
  {
    PutTagLabel(s, l);
    hide Enabled, Next, Release, OwnsSlot, PutTag, PutTagNext, MayWake;
    PutTagShape(s, l.c, l.woken, LeftWlk(s, l), LeftPc(s, l));
  }

  /**
   From a state whose muxer was unwound, nobody ever receives again, whatever the server,
   new calls and spurious wake-ups do: no call gets a reply it did not have.
   */
  lemma {:induction false} NobodyReceivesAgain(states: seq<State>, labels: seq<Label>, i: nat, j: nat)
    requires Run(states, labels) && i <= j < |states| && Lost(states[i]) && !states[j].crashed
    ensures Lost(states[j]) && Unheard(states[i], states[j])
    decreases j
  {
    hide Enabled, Next, Inv, Lost;
    if i < j {
      assert Follows(states, labels, j - 1);
      NotAfterThrow(states[j - 1], labels[j - 1]);
      NobodyReceivesAgain(states, labels, i, j - 1);
      RunKeeps(states, labels, j - 1);
      LostStep(states[j - 1], labels[j - 1]);
    }
  }

  // ----- sleepers nobody wakes

  /** No thread can go on by itself: every call has ended, was unwound, or sleeps. */
  ghost predicate Dormant(s: State) {
    forall c :: c in s.calls ==>
      var pc := PcOf(s, c); Ended(pc) || Threw(pc) || pc.Asleep? || pc.TagAsleep?
  }

  lemma DormantStep(s: State, l: Label)
    requires Dormant(s) && Enabled(s, l) && !l.Begin? && !l.Spurious?
    ensures Next(s, l).calls == s.calls && !Next(s, l).crashed
  {
    OnlyOutside(s, l);
  }

  lemma OnlyOutside(s: State, l: Label)
    requires Dormant(s) && Enabled(s, l)
    ensures l.Begin? || l.Spurious? || l.Answer? || l.Rogue? || l.Mount?
  {
  }

  /** From such a state no call goes on, whatever the server does, until a new call begins or one wakes spuriously. */
  lemma {:induction false} NobodyWakes(states: seq<State>, labels: seq<Label>, i: nat, j: nat)
    requires Run(states, labels) && i <= j < |states| && Dormant(states[i])
    requires forall k :: i <= k < j ==> !labels[k].Begin? && !labels[k].Spurious?
    ensures states[j].calls == states[i].calls
    decreases j
  {
    hide Enabled, Next;
    if i < j {
      NobodyWakes(states, labels, i, j - 1);
      assert Follows(states, labels, j - 1);
      DormantStep(states[j - 1], labels[j - 1]);
    }
  }

  lemma {:induction false} TagRunKeeps(states: seq<State>, labels: seq<Label>, i: nat)
    requires Run(states, labels) && i < |states|
    ensures states[i].crashed || TagWakeful(states[i])
  {
    if i > 0 {
      TagRunKeeps(states, labels, i - 1);
      RunKeeps(states, labels, i - 1);
      assert Follows(states, labels, i - 1);
      if !states[i].crashed {
        StepTagWakes(states[i - 1], labels[i - 1]);
      }
    }
  }

  /** In every run, while a call sleeps for a tag there are no more free slots than notified calls yet to run. */
  lemma NoLostTagWakeup(states: seq<State>, labels: seq<Label>, i: nat, c: CallId)
    requires Run(states, labels) && i < |states| && !states[i].crashed
    requires c in states[i].calls && PcOf(states[i], c).TagAsleep?
    ensures states[i].tab.mwait - Occupied(states[i].tab.wait) <= |Triers(states[i])|
  {
    TagRunKeeps(states, labels, i);
    RunKeeps(states, labels, i);
  }

  /**
   No deadlock against an honest server, while nobody is stranded: as long as any call is
   unfinished, and does not wait for a tag of calls that were all unwound, some thread can
   step, or the server owes the muxer an answer.
   */
  lemma NoDeadlock(states: seq<State>, labels: seq<Label>, i: nat, c: CallId) returns (l: Label)
    requires HonestRun(states, labels) && CleanRun(states, labels) && i < |states|
    requires c in states[i].calls && !OutOfReach(states[i], c)
    ensures Enabled(states[i], l) && Useful(l)
  {
    hide Inv, ReplyInv, Unbroken, AllOwed, Wakeful, TagWakeful, OutOfReach, Enabled, Useful, Strands, Honest;
    HonestRunKeeps(states, labels, i);
    CleanRunKeeps(states, labels, i);
    TagRunKeeps(states, labels, i);
    l := SomeoneSteps(states[i], c);
  }
}
