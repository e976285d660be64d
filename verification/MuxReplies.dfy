/**
 Replies reach the calls they answer: runs against a server that answers each sent
 request at most once, in any order.  Where every received message unpacks that is all;
 where one does not, the muxer gives up, and the replies stay right exactly as long as
 none arrives for a call that gave up.
 */
module MuxReplies {
  import opened Options
  import opened TagTable
  import opened WaitQueue
  import opened MuxModel
  import opened MuxSafety

  /** The server only answers requests it has. */
  predicate Genuine(l: Label) { !l.Rogue? }

  /** And every message unpacks. */
  predicate Honest(l: Label) { Genuine(l) && !l.RecvFail? }

  predicate AfterSend(pc: Pc) {
    || pc.WantMux? || pc.MuxTest? || pc.Asleep? || pc.Woken? || pc.Receiving? || pc.Reading?
    || pc.Got? || pc.RecvFailed? || pc.MuxLoop? || pc.RecvThrew?
  }

  predicate Sent(pc: Pc) { AfterSend(pc) || pc.GivingUp? || pc.Leaving? || pc.Done? }

  /** Sent and not answered. */
  predicate Awaiting(k: Call) { AfterSend(k.pc) && k.p.None? }

  /** Left the receive loop after a failed receive, its answer not seen. */
  predicate GaveUp(k: Call) { k.p.None? && (k.pc.GivingUp? || k.pc.Leaving? || k.pc.Done?) }

  predicate Gone(s: State, c: CallId) { c in s.calls && GaveUp(s.calls[c]) }

  /** The one message that answers call `c`. */
  function Wanted(c: CallId, k: Call): Reply { Reply(U16(k.tag), c) }

  predicate Owed(s: State, q: Reply) {
    q.call in s.calls && Awaiting(s.calls[q.call]) && q == Wanted(q.call, s.calls[q.call])
  }

  /** The answer to a request of a call that awaits it or has given up on it. */
  predicate Known(s: State, q: Reply) {
    && q.call in s.calls && q == Wanted(q.call, s.calls[q.call])
    && (Awaiting(s.calls[q.call]) || GaveUp(s.calls[q.call]))
  }

  /** The message the muxer has unpacked and not yet dispatched. */
  function InHand(s: State): seq<Reply> {
    if s.muxer.Some? && s.muxer.value in s.calls && PcOf(s, s.muxer.value).Got?
    then [PcOf(s, s.muxer.value).reply] else []
  }

  /** Replies on their way, the next to be dispatched first. */
  function InFlight(s: State): seq<Reply> { InHand(s) + s.net }

  ghost predicate AllKnown(s: State) {
    && (forall q :: q in s.unanswered ==> Known(s, q))
    && (forall q :: q in InFlight(s) ==> Known(s, q))
    && (forall q :: q in s.lost ==> q.call in s.calls && Sent(PcOf(s, q.call)))
  }

  /** Nothing that is still to arrive is for a call that gave up. */
  ghost predicate AllOwed(s: State) {
    && (forall q :: q in s.unanswered ==> Owed(s, q))
    && (forall q :: q in InFlight(s) ==> Owed(s, q))
  }

  /** A request is with the server, or its reply is in flight, or was lost; never two of these or twice. */
  ghost predicate Once(s: State) {
    && NoDup(InFlight(s))
    && (forall q :: q in s.unanswered ==> q !in InFlight(s))
    && (forall q :: q in s.lost ==> q !in InFlight(s) && q !in s.unanswered)
  }

  ghost predicate NoneMissing(s: State) {
    forall c :: c in s.calls && Awaiting(s.calls[c]) ==>
      var q := Wanted(c, s.calls[c]); q in s.unanswered || q in InFlight(s) || q in s.lost
  }

  /** What a call holds, and what it returns, is the reply it wanted. */
  predicate OwnReply(c: CallId, k: Call) {
    && (k.p.Some? ==> k.p.value == Wanted(c, k) && (AfterSend(k.pc) || k.pc.Leaving? || k.pc.Done?))
    && (k.pc.Done? ==> k.pc.result == k.p)
  }

  ghost predicate Replies(s: State) {
    forall c :: c in s.calls ==> OwnReply(c, s.calls[c])
  }

  ghost predicate History(s: State) {
    && s.received == s.delivered + InHand(s)
    && NoDup(s.delivered)
    && (forall q :: q in s.delivered ==> q.call in s.calls && s.calls[q.call].p == Some(q))
    && (forall c :: c in s.calls && s.calls[c].p.Some? ==> s.calls[c].p.value in s.delivered)
  }

  ghost predicate ReplyInv(s: State) {
    AllKnown(s) && Once(s) && NoneMissing(s) && Replies(s) && History(s)
  }

  lemma InitReplies()
    ensures ReplyInv(INIT)
  {
  }

  /** Neither sends nor gets a reply; it may give up, and takes a tag only before it sends. */
  predicate StillWaits(k: Call, k': Call) {
    && k'.p == k.p
    && (Awaiting(k) || GaveUp(k) <==> Awaiting(k') || GaveUp(k'))
    && (Awaiting(k') ==> Awaiting(k))
    && (Sent(k.pc) ==> Sent(k'.pc))
    && (k'.tag == k.tag || (k'.p.None? && !Sent(k'.pc)))
  }

  /** A step of one call that neither sends nor dispatches. */
  lemma ReplyFrame(s: State, s': State, c: CallId, k: Call)
    requires ReplyInv(s) && c in s.calls && s'.calls == s.calls[c := k]
    requires StillWaits(s.calls[c], k) && k.p == s.calls[c].p
    requires OwnReply(c, k)
    requires s'.unanswered == s.unanswered && InFlight(s') == InFlight(s) && s'.lost == s.lost
    requires s'.delivered == s.delivered && s'.received == s'.delivered + InHand(s')
    ensures ReplyInv(s')
  {
    hide AllKnown, Once, NoneMissing, Replies, History, StillWaits, OwnReply, InFlight, InHand;
    KnownFrame(s, s', c, k);
    OnceFrame(s, s');
    MissingFrame(s, s', c, k);
    OwnFrame(s, s', c, k);
    HistoryFrame(s, s', c, k);
  }

  lemma KnownFrame(s: State, s': State, c: CallId, k: Call)
    requires AllKnown(s) && c in s.calls && s'.calls == s.calls[c := k] && StillWaits(s.calls[c], k)
    requires s'.unanswered == s.unanswered && InFlight(s') == InFlight(s) && s'.lost == s.lost
    ensures AllKnown(s')
  {
    hide InFlight;
    forall q | Known(s, q) ensures Known(s', q) {
    }
  }

  lemma OnceFrame(s: State, s': State)
    requires Once(s) && s'.unanswered == s.unanswered && InFlight(s') == InFlight(s) && s'.lost == s.lost
    ensures Once(s')
  {
    hide InFlight;
  }

  lemma MissingFrame(s: State, s': State, c: CallId, k: Call)
    requires NoneMissing(s) && c in s.calls && s'.calls == s.calls[c := k] && StillWaits(s.calls[c], k)
    requires s'.unanswered == s.unanswered && InFlight(s') == InFlight(s) && s'.lost == s.lost
    ensures NoneMissing(s')
  {
    hide InFlight;
  }

  lemma OwnFrame(s: State, s': State, c: CallId, k: Call)
    requires Replies(s) && c in s.calls && s'.calls == s.calls[c := k] && OwnReply(c, k)
    ensures Replies(s')
  {
    hide OwnReply;
  }

  lemma HistoryFrame(s: State, s': State, c: CallId, k: Call)
    requires History(s) && c in s.calls && s'.calls == s.calls[c := k] && k.p == s.calls[c].p
    requires s'.delivered == s.delivered && s'.received == s'.delivered + InHand(s')
    ensures History(s')
  {
    hide InHand;
  }

  lemma BeginReplies(s: State, c: CallId)
    requires ReplyInv(s) && c !in s.calls && MuxerOk(s)
    ensures ReplyInv(s.(calls := s.calls[c := Call(Start, 0, None)]))
  {
    hide AllKnown, Once, NoneMissing, History, MuxerOk;
    var s' := s.(calls := s.calls[c := Call(Start, 0, None)]);
    NewHand(s, c);
    OnceFrame(s, s');
    NewKnown(s, c);
    NewHistory(s, c);
  }

  lemma NewHand(s: State, c: CallId)
    requires MuxerOk(s) && c !in s.calls
    ensures var s' := s.(calls := s.calls[c := Call(Start, 0, None)]);
            InHand(s') == InHand(s) && InFlight(s') == InFlight(s)
  {
  }

  lemma NewKnown(s: State, c: CallId)
    requires AllKnown(s) && NoneMissing(s) && c !in s.calls
    requires InFlight(s.(calls := s.calls[c := Call(Start, 0, None)])) == InFlight(s)
    ensures AllKnown(s.(calls := s.calls[c := Call(Start, 0, None)]))
    ensures NoneMissing(s.(calls := s.calls[c := Call(Start, 0, None)]))
  {
    hide InFlight;
    var s' := s.(calls := s.calls[c := Call(Start, 0, None)]);
    forall q | Known(s, q) ensures Known(s', q) {
    }
  }

  lemma NewHistory(s: State, c: CallId)
    requires History(s) && c !in s.calls && InHand(s.(calls := s.calls[c := Call(Start, 0, None)])) == InHand(s)
    ensures History(s.(calls := s.calls[c := Call(Start, 0, None)]))
  {
    hide InHand;
  }

  /** Only call `c` moves; what is in the muxer's hand stays there. */
  ghost predicate Quietly(s: State, s': State, c: CallId) {
    && c in s.calls && c in s'.calls && s'.calls == s.calls[c := s'.calls[c]] && InHand(s') == InHand(s)
    && StillWaits(s.calls[c], s'.calls[c]) && OwnReply(c, s'.calls[c])
    && s'.unanswered == s.unanswered && s'.net == s.net && s'.lost == s.lost
    && s'.delivered == s.delivered && s'.received == s.received
  }

  lemma QuietStep(s: State, s': State, c: CallId)
    requires ReplyInv(s) && Quietly(s, s', c)
    ensures ReplyInv(s')
  {
    Recorded(s);
    hide AllKnown, Once, NoneMissing, Replies, History, InHand, StillWaits, OwnReply;
    assert StillWaits(s.calls[c], s'.calls[c]) ==> s'.calls[c].p == s.calls[c].p by {
      WaitsHolds(s.calls[c], s'.calls[c]);
    }
    ReplyFrame(s, s', c, s'.calls[c]);
  }

  lemma Recorded(s: State)
    requires History(s)
    ensures s.received == s.delivered + InHand(s)
  {
  }

  lemma WaitsHolds(k: Call, k': Call)
    ensures StillWaits(k, k') ==> k'.p == k.p
  {
  }

  /** Outside the moments between unpacking a message and dispatching it. */
  lemma HandSame(s: State, s': State, c: CallId)
    requires c in s.calls && c in s'.calls && s'.calls == s.calls[c := s'.calls[c]] && s'.muxer == s.muxer
    requires !PcOf(s, c).Got? && !PcOf(s', c).Got?
    ensures InHand(s') == InHand(s)
  {
  }

  lemma NotifyReplies(s: State, c: CallId)
    requires ReplyInv(s)
    ensures ReplyInv(Notify(s, c))
  {
    if c in s.calls && PcOf(s, c).Asleep? {
      hide AllKnown, Once, NoneMissing, Replies, History, InHand;
      OwnOf(s, c);
      HandSame(s, Notify(s, c), c);
      QuietStep(s, Notify(s, c), c);
    }
  }

  lemma NotifyTagReplies(s: State, w: Option<CallId>)
    requires ReplyInv(s) && MayWake(s, w)
    ensures ReplyInv(NotifyTag(s, w))
  {
    if w.Some? {
      hide AllKnown, Once, NoneMissing, Replies, History, InHand;
      OwnOf(s, w.value);
      HandSame(s, NotifyTag(s, w), w.value);
      QuietStep(s, NotifyTag(s, w), w.value);
    }
  }

  // ----- what a step does to the calls

  /** The steps after which only the label's call differs. */
  predicate Alone(l: Label) {
    MovesOneCall(l) || l.TestTags? || l.TakeTag? || l.Enqueue? || l.Drop? || l.PassBuck? || l.TestMux? || l.Lapse?
  }

  lemma AloneMoves(s: State, l: Label)
    requires Enabled(s, l) && Alone(l) && !Next(s, l).crashed
    ensures l.c in s.calls && l.c in Next(s, l).calls
    ensures Next(s, l).calls == s.calls[l.c := Next(s, l).calls[l.c]]
  {
    if MovesOneCall(l) {
      OneMoves(s, l);
    } else {
      hide MovesOneCall, Scan, Grow, Take, Without, MuxerLive;
    }
  }

  lemma OneMoves(s: State, l: Label)
    requires Enabled(s, l) && MovesOneCall(l)
    ensures l.c in s.calls && l.c in Next(s, l).calls
    ensures Next(s, l).calls == s.calls[l.c := Next(s, l).calls[l.c]]
  {
  }

  /** Only a receive puts a message into the call's hand, or fails to, and only the two throws unwind it. */
  lemma AlonePc(s: State, l: Label)
    requires Enabled(s, l) && Alone(l) && !Next(s, l).crashed
    ensures l.c in Next(s, l).calls
    ensures PcOf(Next(s, l), l.c).Got? <==> l.Recv?
    ensures l.Recv? ==> s.net != [] && PcOf(Next(s, l), l.c) == Got(s.net[0])
    ensures PcOf(Next(s, l), l.c).RecvFailed? <==> l.RecvFail?
    ensures Threw(PcOf(Next(s, l), l.c)) <==> l.SendThrow? || l.RecvThrow?
  {
    if !MovesOneCall(l) {
      WorkingPc(s, l);
    }
    hide Scan, Grow, Take, Without, MuxerLive, TestTagsNext, TakeTagNext, EnqueueNext, DequeueNext, TestMuxNext;
  }

  lemma WorkingPc(s: State, l: Label)
    requires Enabled(s, l) && Alone(l) && !MovesOneCall(l) && !Next(s, l).crashed
    ensures l.c in Next(s, l).calls
    ensures var pc := PcOf(Next(s, l), l.c); !pc.Got? && !pc.RecvFailed? && !Threw(pc)
  {
    hide Scan, Grow, Take, Without, MuxerLive;
  }

  /** Holds a message, or has failed to receive one, or was unwound. */
  predicate InTransit(pc: Pc) { pc.Got? || pc.RecvFailed? || Threw(pc) }

  /** The other steps leave the messages in the calls' hands, and the failures. */
  lemma OthersHands(s: State, l: Label, d: CallId)
    requires Enabled(s, l) && !Alone(l) && !Next(s, l).crashed && d in Next(s, l).calls
    requires InTransit(PcOf(Next(s, l), d))
    ensures d in s.calls && PcOf(s, d) == PcOf(Next(s, l), d)
  {
    if l.DropTag? || l.Leave? {
      PutTagHands(s, l, d);
    } else {
      hide Without, TestTagsNext, TakeTagNext, EnqueueNext, DequeueNext, TestMuxNext, PutTagNext;
    }
  }

  lemma PutTagHands(s: State, l: Label, d: CallId)
    requires Enabled(s, l) && (l.DropTag? || l.Leave?) && !Next(s, l).crashed && d in Next(s, l).calls
    requires InTransit(PcOf(Next(s, l), d))
    ensures d in s.calls && PcOf(s, d) == PcOf(Next(s, l), d)
  {
    hide Release, OwnsSlot;
  }

  lemma MoveReplies(s: State, l: Label)
    requires Inv(s) && ReplyInv(s) && Enabled(s, l) && !Next(s, l).crashed
    requires l.LockForTag? || l.TestTags? || l.TakeTag? || l.Enqueue? || l.LockWrite? || l.PackFail? || l.Drop?
          || l.LockForMux? || l.LockRead? || l.TestReply? || l.Spurious? || l.Lapse? || l.SendThrow? || l.RecvThrow?
    ensures ReplyInv(Next(s, l))
  {
    assert OwnReply(l.c, s.calls[l.c]);
    if MovesOneCall(l) {
      MovesQuietly(s, l);
    } else {
      WorksQuietly(s, l);
    }
    hide Inv, ReplyInv, Next, Enabled;
    QuietStep(s, Next(s, l), l.c);
  }

  lemma MovesQuietly(s: State, l: Label)
    requires Enabled(s, l) && MovesOneCall(l) && !l.Send? && !l.Recv? && !l.RecvFail? && OwnReply(l.c, s.calls[l.c])
    ensures Quietly(s, Next(s, l), l.c)
  {
    OneMoves(s, l);
    MoveWaits(s, l);
    HandSame(s, Next(s, l), l.c);
    hide StillWaits, OwnReply, InHand;
  }

  lemma MoveWaits(s: State, l: Label)
    requires Enabled(s, l) && MovesOneCall(l) && !l.Send? && !l.Recv? && !l.RecvFail? && OwnReply(l.c, s.calls[l.c])
    ensures l.c in s.calls && l.c in Next(s, l).calls
    ensures StillWaits(s.calls[l.c], Next(s, l).calls[l.c]) && OwnReply(l.c, Next(s, l).calls[l.c])
  {
    if l.LockForTag? || l.LockWrite? || l.LockForMux? || l.LockRead? {
      hide Next, Enabled, StillWaits, OwnReply;
      LockWaits(s, l);
    } else {
      FreeMoveWaits(s, l);
      hide Next, Enabled, StillWaits, OwnReply;
    }
  }

  lemma FreeMoveWaits(s: State, l: Label)
    requires Enabled(s, l) && MovesOneCall(l) && !l.Send? && !l.Recv? && !l.RecvFail? && OwnReply(l.c, s.calls[l.c])
    requires !l.LockForTag? && !l.LockWrite? && !l.LockForMux? && !l.LockRead?
    ensures l.c in s.calls && l.c in Next(s, l).calls
    ensures StillWaits(s.calls[l.c], Next(s, l).calls[l.c]) && OwnReply(l.c, Next(s, l).calls[l.c])
  {
  }

  lemma LockWaits(s: State, l: Label)
    requires l.LockForTag? || l.LockWrite? || l.LockForMux? || l.LockRead?
    requires Enabled(s, l) && OwnReply(l.c, s.calls[l.c])
    ensures l.c in s.calls && l.c in Next(s, l).calls
    ensures StillWaits(s.calls[l.c], Next(s, l).calls[l.c]) && OwnReply(l.c, Next(s, l).calls[l.c])
  {
  }

  lemma WorksQuietly(s: State, l: Label)
    requires Enabled(s, l) && !Next(s, l).crashed && (l.TestTags? || l.TakeTag? || l.Enqueue? || l.Drop? || l.Lapse?)
    requires OwnReply(l.c, s.calls[l.c])
    ensures Quietly(s, Next(s, l), l.c)
  {
    if l.TestTags? || l.TakeTag? {
      TagsQuietly(s, l);
    } else {
      hide Without, Grow, Take, Scan, TestTagsNext, TakeTagNext, InHand;
      HandSame(s, Next(s, l), l.c);
    }
  }

  lemma TagsQuietly(s: State, l: Label)
    requires Enabled(s, l) && !Next(s, l).crashed && (l.TestTags? || l.TakeTag?)
    requires OwnReply(l.c, s.calls[l.c])
    ensures Quietly(s, Next(s, l), l.c)
  {
    hide Grow, Take, Scan, InHand;
    HandSame(s, Next(s, l), l.c);
  }

  lemma PassBuckReplies(s: State, c: CallId)
    requires Inv(s) && ReplyInv(s) && Enabled(s, PassBuck(c))
    ensures ReplyInv(Next(s, PassBuck(c)))
  {
    DequeueThrows(s, c);
    assert OwnReply(c, s.calls[c]);
    hide Inv, AllKnown, Once, NoneMissing, Replies, History, Without, InHand;
    var s' := Next(s, PassBuck(c));
    HandSame(s, s', c);
    QuietStep(s, s', c);
  }

  lemma TestMuxReplies(s: State, c: CallId)
    requires Inv(s) && ReplyInv(s) && c in s.calls && PcOf(s, c).MuxTest?
    ensures ReplyInv(TestMuxNext(s, c))
  {
    assert OwnReply(c, s.calls[c]);
    TestMuxHand(s, c);
    TestMuxQuietly(s, c);
    hide Inv, ReplyInv, Quietly, TestMuxNext;
    QuietStep(s, TestMuxNext(s, c), c);
  }

  lemma TestMuxHand(s: State, c: CallId)
    requires MuxerOk(s) && c in s.calls && PcOf(s, c).MuxTest?
    ensures InHand(TestMuxNext(s, c)) == InHand(s)
  {
  }

  lemma TestMuxQuietly(s: State, c: CallId)
    requires c in s.calls && PcOf(s, c).MuxTest? && OwnReply(c, s.calls[c])
    requires InHand(TestMuxNext(s, c)) == InHand(s)
    ensures Quietly(s, TestMuxNext(s, c), c)
  {
    hide InHand, MuxerLive;
  }

  lemma PutTagReplies(s: State, l: Label)
    requires Inv(s) && ReplyInv(s) && Enabled(s, l) && (l.DropTag? || l.Leave?)
    ensures ReplyInv(Next(s, l))
  {
    PutTagLabel(s, l);
    hide TableOk, SlotsOk, ScanOk, QueueOk, LocksOk, MuxerOk, AllKnown, Once, NoneMissing, Replies, History;
    hide Enabled, Next, MayWake, Quietly, NotifyTag, OwnsSlot, PutTagNext;
    OwnOf(s, l.c);
    SlotOwned(s, l.c);
    NotifyTagReplies(s, l.woken);
    PutTagQuietly(s, l);
    QuietStep(NotifyTag(s, l.woken), Next(s, l), l.c);
  }

  lemma OwnOf(s: State, c: CallId)
    requires Replies(s) && c in s.calls
    ensures OwnReply(c, s.calls[c])
  {
  }

  lemma PutTagQuietly(s: State, l: Label)
    requires Enabled(s, l) && (l.DropTag? || l.Leave?) && OwnReply(l.c, s.calls[l.c]) && OwnsSlot(s, l.c)
    ensures Quietly(NotifyTag(s, l.woken), Next(s, l), l.c)
  {
    PutTagLabel(s, l);
    hide Enabled, Next, Release, InHand, OwnsSlot, NotifyTag, PutTag, PutTagNext, MayWake;
    TagWakeElsewhere(s, l.c, l.woken);
    PutTagShape(s, l.c, l.woken, LeftWlk(s, l), LeftPc(s, l));
    HandSame(NotifyTag(s, l.woken), Next(s, l), l.c);
  }

  lemma ElectReplies(s: State, c: CallId)
    requires Inv(s) && ReplyInv(s) && c in s.calls
    requires PcOf(s, c).GivingUp? || (PcOf(s, c).MuxLoop? && s.calls[c].p.Some?)
    ensures ReplyInv(Go(ElectMuxer(s), c, Leaving))
  {
    hide TableOk, SlotsOk, LocksOk, ScanOk, AllKnown, Once, NoneMissing;
    var s1 := if s.queue == [] then s else Notify(s, s.queue[0]);
    var s' := Go(ElectMuxer(s), c, Leaving);
    if s.queue != [] {
      assert s.queue[0] in s.queue;
      NotifyReplies(s, s.queue[0]);
    }
    assert InHand(s') == InHand(s1);
    assert OwnReply(c, s1.calls[c]);
    ReplyFrame(s1, s', c, s'.calls[c]);
  }

  lemma SendReplies(s: State, c: CallId)
    requires ReplyInv(s) && Enabled(s, Send(c))
    ensures ReplyInv(Next(s, Send(c)))
  {
    hide AllKnown, Once, NoneMissing, Replies, History, InHand;
    var s' := Next(s, Send(c));
    OwnOf(s, c);
    HandSame(s, s', c);
    SendTraffic(s, s', c);
    OwnFrame(s, s', c, s'.calls[c]);
    Recorded(s);
    HistoryFrame(s, s', c, s'.calls[c]);
  }

  lemma SendTraffic(s: State, s': State, c: CallId)
    requires AllKnown(s) && Once(s) && NoneMissing(s) && c in s.calls && PcOf(s, c).Packing? && s.calls[c].p.None?
    requires InFlight(s') == InFlight(s) && s'.lost == s.lost
    requires s'.calls == s.calls[c := s.calls[c].(pc := WantMux)]
    requires s'.unanswered == s.unanswered + {Wanted(c, s.calls[c])}
    ensures AllKnown(s') && Once(s') && NoneMissing(s')
  {
    hide InFlight;
    assert forall q :: q in InFlight(s) || q in s.unanswered || q in s.lost ==> q.call != c;
    forall q | Known(s, q) ensures Known(s', q) {
    }
  }

  lemma RecvReplies(s: State, c: CallId)
    requires Inv(s) && ReplyInv(s) && Enabled(s, Recv(c))
    ensures ReplyInv(Next(s, Recv(c)))
  {
    hide TableOk, SlotsOk, QueueOk, LocksOk, ScanOk, AllKnown, Once, NoneMissing;
    var s' := Next(s, Recv(c));
    assert OwnReply(c, s.calls[c]);
    assert s.muxer == Some(c);
    assert InHand(s) == [] && InHand(s') == [s.net[0]];
    assert InFlight(s') == InFlight(s);
    ReplyFrame(s, s', c, s'.calls[c]);
  }

  lemma RecvFailReplies(s: State, c: CallId)
    requires Inv(s) && ReplyInv(s) && Enabled(s, RecvFail(c))
    ensures ReplyInv(Next(s, RecvFail(c)))
  {
    hide TableOk, SlotsOk, QueueOk, LocksOk, ScanOk, AllKnown, Once, NoneMissing;
    var s' := Next(s, RecvFail(c));
    assert OwnReply(c, s.calls[c]);
    assert s.muxer == Some(c);
    assert InHand(s) == [] && InHand(s') == [];
    assert InFlight(s) == [s.net[0]] + InFlight(s');
    LosesFirst(s, s', c, s.net[0]);
  }

  /** The first message in flight is lost, and the muxer goes on to give up. */
  lemma LosesFirst(s: State, s': State, c: CallId, q: Reply)
    requires AllKnown(s) && Once(s) && NoneMissing(s) && c in s.calls && PcOf(s, c).Reading?
    requires s'.calls == s.calls[c := s.calls[c].(pc := RecvFailed)] && s'.unanswered == s.unanswered
    requires InFlight(s) == [q] + InFlight(s') && s'.lost == s.lost + [q]
    ensures AllKnown(s') && Once(s') && NoneMissing(s')
  {
    FirstOf(InFlight(s), q, InFlight(s'));
    hide InFlight;
    LosesKnown(s, s', c, q);
    LosesOnce(s, s', q);
    forall d | d in s'.calls && Awaiting(s'.calls[d])
      ensures var w := Wanted(d, s'.calls[d]); w in s'.unanswered || w in InFlight(s') || w in s'.lost
    {
      assert Awaiting(s.calls[d]) && Wanted(d, s'.calls[d]) == Wanted(d, s.calls[d]);
    }
  }

  lemma FirstOf<T>(a: seq<T>, x: T, b: seq<T>)
    requires a == [x] + b
    ensures forall y :: y in a <==> y == x || y in b
    ensures NoDup(a) ==> NoDup(b) && x !in b
  {
    assert forall i :: 0 <= i < |b| ==> b[i] == a[i + 1];
    assert a[0] == x;
  }

  lemma LosesKnown(s: State, s': State, c: CallId, q: Reply)
    requires AllKnown(s) && c in s.calls && PcOf(s, c).Reading?
    requires s'.calls == s.calls[c := s.calls[c].(pc := RecvFailed)] && s'.unanswered == s.unanswered
    requires s'.lost == s.lost + [q] && q in InFlight(s) && forall y :: y in InFlight(s') ==> y in InFlight(s)
    ensures AllKnown(s')
  {
    hide InFlight;
    forall x | Known(s, x) ensures Known(s', x) && Sent(PcOf(s', x.call)) {
    }
  }

  lemma LosesOnce(s: State, s': State, q: Reply)
    requires Once(s) && s'.unanswered == s.unanswered && s'.lost == s.lost + [q]
    requires q in InFlight(s) && q !in InFlight(s') && NoDup(InFlight(s'))
    requires forall y :: y in InFlight(s') ==> y in InFlight(s)
    ensures Once(s')
  {
    hide InFlight, NoDup;
  }

  lemma AnswerReplies(s: State, q: Reply)
    requires ReplyInv(s) && q in s.unanswered
    ensures ReplyInv(s.(unanswered := s.unanswered - {q}, net := s.net + [q]))
  {
    var s' := s.(unanswered := s.unanswered - {q}, net := s.net + [q]);
    assert InFlight(s') == InFlight(s) + [q];
  }

  /** The message in the muxer's hand names the slot of the queued call it answers. */
  lemma DispatchFinds(s: State, c: CallId)
    requires Inv(s) && ReplyInv(s) && c in s.calls && PcOf(s, c).Got? && !Gone(s, PcOf(s, c).reply.call)
    ensures var f := PcOf(s, c).reply;
            f.call in s.calls && f.call in s.queue && NamesSlot(s, f.call, Slot(s, f.tag))
  {
    hide TableOk, ScanOk, LocksOk, Once, NoneMissing, History;
    var f := PcOf(s, c).reply;
    assert s.muxer == Some(c) && InFlight(s)[0] == f;
    assert Known(s, f);
    SlotTag(s, f.call);
  }

  /** The dispatch step, as waking the sleeper and then handing the message over. */
  lemma DispatchUnfolds(s: State, c: CallId, f: Reply)
    requires Enabled(s, Dispatch(c)) && f == PcOf(s, c).reply
    requires f.call in s.calls && f.call in s.queue && NamesSlot(s, f.call, Slot(s, f.tag))
    ensures Next(s, Dispatch(c)) == GiveReply(Go(Notify(s, f.call).(lk := Some(c)), c, MuxLoop), f.call, f)
  {
    var s1 := Go(s.(lk := Some(c)), c, MuxLoop);
    if PcOf(s, f.call).Asleep? {
      assert Notify(s1, f.call).calls == Go(Notify(s, f.call).(lk := Some(c)), c, MuxLoop).calls;
    }
  }

  lemma DispatchReplies(s: State, c: CallId)
    requires Inv(s) && ReplyInv(s) && Enabled(s, Dispatch(c)) && !Gone(s, PcOf(s, c).reply.call)
    ensures !Next(s, Dispatch(c)).crashed && ReplyInv(Next(s, Dispatch(c)))
  {
    hide TableOk, SlotsOk, QueueOk, LocksOk, ScanOk, AllKnown, Once, NoneMissing, Replies, History;
    var f := PcOf(s, c).reply;
    DispatchFinds(s, c);
    DispatchUnfolds(s, c, f);
    NotifyReplies(s, f.call);
    DeliverReplies(Notify(s, f.call), c, f, Next(s, Dispatch(c)));
  }

  lemma DeliverReplies(s: State, c: CallId, f: Reply, s': State)
    requires ReplyInv(s) && c in s.calls && PcOf(s, c) == Got(f) && s.muxer == Some(c) && f.call in s.calls
    requires !Gone(s, f.call)
    requires s' == GiveReply(Go(s.(lk := Some(c)), c, MuxLoop), f.call, f)
    ensures ReplyInv(s')
  {
    DeliverFirst(s, c, f, s');
    hide Once, NoneMissing, InFlight, Gone;
    DeliverCalls(s, c, f, s');
    DeliverHistory(s, c, f, s');
    DeliverTraffic(s, c, f, s');
  }

  lemma DeliverFirst(s: State, c: CallId, f: Reply, s': State)
    requires AllKnown(s) && c in s.calls && PcOf(s, c) == Got(f) && s.muxer == Some(c) && f.call in s.calls
    requires !Gone(s, f.call)
    requires s' == GiveReply(Go(s.(lk := Some(c)), c, MuxLoop), f.call, f)
    ensures InFlight(s) == [f] + InFlight(s') && Owed(s, f)
  {
    assert InFlight(s)[0] == f && Known(s, f);
    assert InHand(s') == [];
  }

  lemma DeliverTraffic(s: State, c: CallId, f: Reply, s': State)
    requires Once(s) && NoneMissing(s) && AllKnown(s) && InFlight(s) == [f] + InFlight(s')
    requires c in s.calls && PcOf(s, c) == Got(f) && f.call in s.calls
    requires s' == GiveReply(Go(s.(lk := Some(c)), c, MuxLoop), f.call, f)
    requires forall q :: Known(s, q) && q != f ==> Known(s', q)
    requires forall d :: d in s.calls && Sent(PcOf(s, d)) ==> d in s'.calls && Sent(PcOf(s', d))
    ensures AllKnown(s') && Once(s') && NoneMissing(s')
  {
    FirstOf(InFlight(s), f, InFlight(s'));
    hide InFlight, Known, Sent, NoDup;
    forall d | d in s'.calls && Awaiting(s'.calls[d])
      ensures var q := Wanted(d, s'.calls[d]); q in s'.unanswered || q in InFlight(s') || q in s'.lost
    {
      assert d != f.call && Awaiting(s.calls[d]) && Wanted(d, s'.calls[d]) == Wanted(d, s.calls[d]);
    }
  }

  lemma DeliverCalls(s: State, c: CallId, f: Reply, s': State)
    requires Replies(s) && c in s.calls && PcOf(s, c) == Got(f) && Owed(s, f)
    requires s' == GiveReply(Go(s.(lk := Some(c)), c, MuxLoop), f.call, f)
    ensures Replies(s')
    ensures forall q :: Known(s, q) && q != f ==> Known(s', q)
    ensures forall d :: d in s.calls && Sent(PcOf(s, d)) ==> d in s'.calls && Sent(PcOf(s', d))
  {
    assert OwnReply(c, s.calls[c]) && OwnReply(f.call, s.calls[f.call]);
  }

  lemma DeliverHistory(s: State, c: CallId, f: Reply, s': State)
    requires History(s) && c in s.calls && PcOf(s, c) == Got(f) && s.muxer == Some(c) && Owed(s, f)
    requires s' == GiveReply(Go(s.(lk := Some(c)), c, MuxLoop), f.call, f)
    ensures History(s')
  {
    assert InHand(s) == [f] && InHand(s') == [];
    assert f !in s.delivered;
  }

  lemma MountReplies(s: State)
    requires ReplyInv(s)
    ensures ReplyInv(s.(bounds := NORMAL_BOUNDS))
  {
    var s' := s.(bounds := NORMAL_BOUNDS);
    assert InHand(s') == InHand(s);
  }

  /** No message is handed over that answers a call which gave up. */
  predicate Timely(s: State, l: Label) {
    l.Dispatch? && l.c in s.calls && PcOf(s, l.c).Got? ==> !Gone(s, PcOf(s, l.c).reply.call)
  }

  /** As long as no reply comes for a call that gave up, the replies stay right and nothing throws. */
  lemma StepReplies(s: State, l: Label)
    requires Inv(s) && ReplyInv(s) && Enabled(s, l) && Genuine(l) && Timely(s, l)
    ensures !Next(s, l).crashed && Inv(Next(s, l)) && ReplyInv(Next(s, l))
  {
    hide TableOk, SlotsOk, QueueOk, LocksOk, MuxerOk, ScanOk;
    hide AllKnown, Once, NoneMissing, History;
    ThrowsExactly(s, l);
    StepKeeps(s, l);
    match l
    case Begin(c) => BeginReplies(s, c);
    case TestMux(c) => TestMuxReplies(s, c);
    case DropTag(c, w) => PutTagReplies(s, l);
    case Leave(c, w) => PutTagReplies(s, l);
    case Elect(c) => ElectReplies(s, c);
    case Send(c) => SendReplies(s, c);
    case Recv(c) => RecvReplies(s, c);
    case Answer(q) => AnswerReplies(s, q);
    case Dispatch(c) => DispatchReplies(s, c);
    case RecvFail(c) => RecvFailReplies(s, c);
    case PassBuck(c) => PassBuckReplies(s, c);
    case Mount => MountReplies(s);
    case Drop(c) => assert OwnReply(c, s.calls[c]); MoveReplies(s, l);
    case _ => MoveReplies(s, l);
  }

  // ----- one step at a time: what a failed receive leads to

  /** The message in hand goes to the call whose request it answers. */
  predicate Right(s: State, l: Label) {
    l.Dispatch? && Enabled(s, l) ==>
      var s', f := Next(s, l), PcOf(s, l.c).reply;
      !s'.crashed && f.call in s'.calls && s'.calls[f.call].p == Some(f)
  }

  /** A message goes to the call it answers exactly when that call has not given up. */
  lemma RightExactly(s: State, l: Label)
    requires Inv(s) && ReplyInv(s) && Enabled(s, l)
    ensures Right(s, l) <==> Timely(s, l)
  {
    hide TableOk, SlotsOk, ScanOk, QueueOk, LocksOk, MuxerOk, ReplyInv, Next, Enabled, Gone;
    if l.Dispatch? {
      hide Right;
      HoldsMessage(s, l.c);
      if Gone(s, PcOf(s, l.c).reply.call) {
        GoneMisses(s, l.c);
      } else {
        HereArrives(s, l.c);
      }
    }
  }

  lemma HoldsMessage(s: State, c: CallId)
    requires Enabled(s, Dispatch(c))
    ensures c in s.calls && PcOf(s, c).Got?
  {
  }

  lemma GoneMisses(s: State, c: CallId)
    requires QueueOk(s) && Enabled(s, Dispatch(c)) && Gone(s, PcOf(s, c).reply.call)
    ensures !Right(s, Dispatch(c))
  {
    var d := PcOf(s, c).reply.call;
    assert d !in s.queue;
    hide QueueOk, Next;
    DispatchElsewhere(s, c, d);
  }

  lemma HereArrives(s: State, c: CallId)
    requires Inv(s) && ReplyInv(s) && Enabled(s, Dispatch(c)) && !Gone(s, PcOf(s, c).reply.call)
    ensures Right(s, Dispatch(c))
  {
    hide TableOk, SlotsOk, ScanOk, QueueOk, LocksOk, ReplyInv, Without;
    DispatchFinds(s, c);
    DispatchUnfolds(s, c, PcOf(s, c).reply);
    NotThrown(s, c);
  }

  lemma NotThrown(s: State, c: CallId)
    requires Inv(s) && Enabled(s, Dispatch(c)) && !Stray(s, PcOf(s, c).reply)
    ensures !Next(s, Dispatch(c)).crashed
  {
    ThrowsExactly(s, Dispatch(c));
  }

  lemma DispatchElsewhere(s: State, c: CallId, d: CallId)
    requires Enabled(s, Dispatch(c)) && d in s.calls && d !in s.queue
    ensures var s' := Next(s, Dispatch(c)); s'.crashed || (d in s'.calls && s'.calls[d].p == s.calls[d].p)
  {
    hide Without;
  }

  /** A call has given up from the moment it passes the buck, and for good. */
  lemma StepGone(s: State, l: Label, c: CallId)
    requires Inv(s) && Enabled(s, l) && !Next(s, l).crashed
    ensures Gone(Next(s, l), c) <==> Gone(s, c) || l == PassBuck(c)
  {
    hide TableOk, SlotsOk, LocksOk, ScanOk, MuxerOk, QueueOk, Alone, Next, Enabled, Gone;
    match l
    case DropTag(d, w) => WakingGone(s, l, c);
    case Leave(d, w) => WakingGone(s, l, c);
    case Elect(d) => WakingGone(s, l, c);
    case Dispatch(d) => DispatchGone(s, d, c);
    case Begin(d) => OutsideGone(s, l, c);
    case Answer(q) => OutsideGone(s, l, c);
    case Rogue(q) => OutsideGone(s, l, c);
    case Mount => OutsideGone(s, l, c);
    case _ => IsAlone(l); AloneGone(s, l, c);
  }

  lemma OutsideGone(s: State, l: Label, c: CallId)
    requires Enabled(s, l) && (l.Begin? || l.Answer? || l.Rogue? || l.Mount?)
    ensures Gone(Next(s, l), c) <==> Gone(s, c)
  {
  }

  lemma IsAlone(l: Label)
    ensures || Alone(l) || l.Begin? || l.DropTag? || l.Leave? || l.Elect? || l.Dispatch? || l.Answer? || l.Rogue?
            || l.Mount?
  {
  }

  lemma AloneGone(s: State, l: Label, c: CallId)
    requires QueueOk(s) && Enabled(s, l) && Alone(l) && !Next(s, l).crashed
    ensures Gone(Next(s, l), c) <==> Gone(s, c) || l == PassBuck(c)
  {
    hide Next, Enabled;
    AloneMoves(s, l);
    if c == l.c {
      OwnGone(s, l);
    }
  }

  lemma OwnGone(s: State, l: Label)
    requires QueueOk(s) && Enabled(s, l) && Alone(l) && !Next(s, l).crashed
    ensures Gone(Next(s, l), l.c) <==> Gone(s, l.c) || l.PassBuck?
  {
    assert s.calls[l.c].p.Some? ==> MayHoldReply(PcOf(s, l.c));
    assert l.c in s.queue ==> s.calls[l.c].p.None?;
    hide QueueOk, Next, Gone;
    if MovesOneCall(l) {
      MovingGone(s, l);
    } else {
      WorkingGone(s, l);
    }
  }

  lemma MovingGone(s: State, l: Label)
    requires Enabled(s, l) && MovesOneCall(l)
    ensures Gone(Next(s, l), l.c) <==> Gone(s, l.c)
  {
  }

  lemma WorkingGone(s: State, l: Label)
    requires Enabled(s, l) && Alone(l) && !MovesOneCall(l) && !Next(s, l).crashed
    requires l.c in s.calls && (s.calls[l.c].p.Some? ==> MayHoldReply(PcOf(s, l.c)))
    requires l.c in s.queue ==> s.calls[l.c].p.None?
    ensures Gone(Next(s, l), l.c) <==> Gone(s, l.c) || l.PassBuck?
  {
    hide Scan, Grow, Take, Without, MuxerLive;
  }

  lemma WakingGone(s: State, l: Label, c: CallId)
    requires Enabled(s, l) && !Next(s, l).crashed && (l.DropTag? || l.Leave? || l.Elect?)
    ensures Gone(Next(s, l), c) <==> Gone(s, c)
  {
    hide Release;
  }

  lemma DispatchGone(s: State, d: CallId, c: CallId)
    requires QueueOk(s) && Enabled(s, Dispatch(d)) && !Next(s, Dispatch(d)).crashed
    ensures Gone(Next(s, Dispatch(d)), c) <==> Gone(s, c)
  {
    hide Without;
    var r := s.tab.wait[Slot(s, PcOf(s, d).reply.tag)].value;
    assert r in s.queue;
  }

  /** The muxer gives up while its own answer is still to come. */
  predicate Abandons(s: State, l: Label) {
    l.PassBuck? && l.c in s.calls && Wanted(l.c, s.calls[l.c]) !in s.lost
  }

  /** Still with the server, or in flight. */
  predicate Coming(s: State, q: Reply) { q in s.unanswered || q in InFlight(s) }

  /** Only a send adds to what is still to come. */
  lemma NothingNew(s: State, l: Label, q: Reply)
    requires Inv(s) && Enabled(s, l) && Genuine(l) && !Next(s, l).crashed && Coming(Next(s, l), q)
    ensures Coming(s, q) || l == Send(q.call)
  {
    hide TableOk, SlotsOk, LocksOk, ScanOk, QueueOk;
    var s' := Next(s, l);
    if q in InHand(s') {
      HandKept(s, l, s'.muxer.value, q);
    } else {
      TrafficKept(s, l, q);
    }
  }

  /** A message in the muxer's hand was there before or first on the wire. */
  lemma HandKept(s: State, l: Label, m: CallId, q: Reply)
    requires MuxerOk(s) && Enabled(s, l) && !Next(s, l).crashed
    requires m in Next(s, l).calls && PcOf(Next(s, l), m) == Got(q)
    ensures q in InHand(s) || q in s.net
  {
    if m in s.calls && PcOf(s, m) == Got(q) {
      assert Receiver(PcOf(s, m));
    } else {
      OnlyRecvGets(s, l, m, q);
    }
  }

  lemma OnlyRecvGets(s: State, l: Label, m: CallId, q: Reply)
    requires Enabled(s, l) && !Next(s, l).crashed
    requires m in Next(s, l).calls && PcOf(Next(s, l), m) == Got(q) && !(m in s.calls && PcOf(s, m) == Got(q))
    ensures q in s.net
  {
    hide Next, Enabled;
    if Alone(l) {
      AloneMoves(s, l);
      AlonePc(s, l);
    } else {
      OthersHands(s, l, m);
    }
  }


  lemma TrafficKept(s: State, l: Label, q: Reply)
    requires Enabled(s, l) && Genuine(l) && !Next(s, l).crashed
    requires q in Next(s, l).unanswered || q in Next(s, l).net
    ensures q in s.unanswered || q in s.net || l == Send(q.call)
  {
    if MovesOneCall(l) {
      MovingTraffic(s, l, q);
    } else {
      hide Scan, Grow, Take, Release, Without;
    }
  }

  lemma MovingTraffic(s: State, l: Label, q: Reply)
    requires Enabled(s, l) && MovesOneCall(l) && (q in Next(s, l).unanswered || q in Next(s, l).net)
    ensures q in s.unanswered || q in s.net || l == Send(q.call)
  {
  }

  /** What is to come is owed exactly when none of it is for a call that gave up. */
  lemma OwedMeans(s: State)
    requires ReplyInv(s)
    ensures AllOwed(s) <==> forall q :: Coming(s, q) ==> !Gone(s, q.call)
  {
    hide Once, NoneMissing, Replies, History;
  }

  /** From a state where all that is to come is owed, only such a step leaves something that is not. */
  lemma OwedStep(s: State, l: Label)
    requires Inv(s) && ReplyInv(s) && AllOwed(s) && Enabled(s, l) && Genuine(l)
    ensures Right(s, l) && Timely(s, l)
    ensures AllOwed(Next(s, l)) <==> !Abandons(s, l)
  {
    OwedTimely(s, l);
    RightExactly(s, l);
    StepReplies(s, l);
    OwedMeans(s);
    OwedMeans(Next(s, l));
    if l.PassBuck? {
      PassBuckOwed(s, l.c);
    } else {
      OwedKept(s, l);
    }
  }

  lemma OwedTimely(s: State, l: Label)
    requires Inv(s) && AllOwed(s) && Enabled(s, l)
    ensures Timely(s, l)
  {
    hide TableOk, SlotsOk, LocksOk, ScanOk, QueueOk;
    if l.Dispatch? {
      var f := PcOf(s, l.c).reply;
      assert Receiver(PcOf(s, l.c));
      assert InFlight(s)[0] == f && Owed(s, f);
    }
  }

  lemma OwedKept(s: State, l: Label)
    requires Inv(s) && Enabled(s, l) && Genuine(l) && !l.PassBuck? && !Next(s, l).crashed
    requires forall q :: Coming(s, q) ==> !Gone(s, q.call)
    ensures forall q :: Coming(Next(s, l), q) ==> !Gone(Next(s, l), q.call)
  {
    hide Inv, Next, Enabled, Coming, Gone;
    forall q | Coming(Next(s, l), q)
      ensures !Gone(Next(s, l), q.call)
    {
      NothingNew(s, l, q);
      StepGone(s, l, q.call);
      if l == Send(q.call) {
        SenderStays(s, q.call);
      }
    }
  }

  lemma SenderStays(s: State, c: CallId)
    requires Enabled(s, Send(c))
    ensures !Gone(s, c)
  {
  }

  lemma PassBuckOwed(s: State, c: CallId)
    requires Inv(s) && ReplyInv(s) && Enabled(s, PassBuck(c)) && !Next(s, PassBuck(c)).crashed
    requires forall q :: Coming(s, q) ==> !Gone(s, q.call)
    ensures (forall q :: Coming(Next(s, PassBuck(c)), q) ==> !Gone(Next(s, PassBuck(c)), q.call))
            <==> !Abandons(s, PassBuck(c))
  {
    var s', l := Next(s, PassBuck(c)), PassBuck(c);
    var own := Wanted(c, s.calls[c]);
    OwnToCome(s, c);
    assert Gone(s', c) && Coming(s', own) == Coming(s, own);
    hide Inv, Next, Enabled, ReplyInv;
    if !Abandons(s, l) {
      forall q | Coming(s', q)
        ensures !Gone(s', q.call)
      {
        NothingNew(s, l, q);
        StepGone(s, l, q.call);
        KnownOf(s, q);
      }
    }
  }

  /** The answer to the muxer that failed to receive is still to come, or was lost. */
  lemma OwnToCome(s: State, c: CallId)
    requires Inv(s) && ReplyInv(s) && c in s.calls && PcOf(s, c).RecvFailed?
    ensures Coming(s, Wanted(c, s.calls[c])) <==> Wanted(c, s.calls[c]) !in s.lost
    ensures s.calls[c].p.None? && s.muxer == Some(c)
  {
    hide TableOk, SlotsOk, LocksOk, ScanOk, History;
    assert Receiver(PcOf(s, c));
  }

  lemma KnownOf(s: State, q: Reply)
    requires ReplyInv(s) && Coming(s, q)
    ensures Known(s, q)
  {
    hide Once, NoneMissing, Replies, History;
  }

  // ----- theorems over whole runs

  /** Any run against a server that only answers what it was asked; messages may fail to unpack. */
  ghost predicate GenuineRun(states: seq<State>, labels: seq<Label>) {
    Run(states, labels) && forall i :: 0 <= i < |labels| ==> Genuine(labels[i])
  }

  predicate GaveUpBefore(labels: seq<Label>, i: nat, c: CallId)
    requires i <= |labels|
  {
    PassBuck(c) in labels[..i]
  }

  /** Whoever has given up did so by passing the buck. */
  lemma {:induction false} GoneExactly(states: seq<State>, labels: seq<Label>, i: nat, c: CallId)
    requires Run(states, labels) && i < |states| && !states[i].crashed
    ensures Gone(states[i], c) <==> GaveUpBefore(labels, i, c)
  {
    hide Enabled, Next, Inv, Gone;
    if i == 0 {
      NoneGone(c);
    } else {
      assert Follows(states, labels, i - 1);
      NotAfterThrow(states[i - 1], labels[i - 1]);
      GoneExactly(states, labels, i - 1, c);
      RunKeeps(states, labels, i - 1);
      StepGone(states[i - 1], labels[i - 1], c);
      assert labels[..i] == labels[..i - 1] + [labels[i - 1]];
    }
  }

  lemma NoneGone(c: CallId)
    ensures !Gone(INIT, c)
  {
  }

  /** A message is lost exactly by a failed receive that consumed it. */
  lemma {:induction false} LostExactly(states: seq<State>, labels: seq<Label>, i: nat, q: Reply)
    requires Run(states, labels) && i < |states|
    ensures q in states[i].lost <==>
              exists j :: 0 <= j < i && labels[j].RecvFail? && states[j].net != [] && states[j].net[0] == q
  {
    if i > 0 {
      LostExactly(states, labels, i - 1, q);
      assert Follows(states, labels, i - 1);
      hide Enabled;
      LostStep(states[i - 1], labels[i - 1]);
    }
  }

  lemma LostStep(s: State, l: Label)
    requires Enabled(s, l)
    ensures l.RecvFail? ==> s.net != []
    ensures Next(s, l).lost == if l.RecvFail? then s.lost + [s.net[0]] else s.lost
  {
    hide Scan, Grow, Take, Release, Without;
  }

  /** As long as every message went to the call it answers, the replies are right. */
  lemma {:induction false} GenuineRunKeeps(states: seq<State>, labels: seq<Label>, i: nat)
    requires GenuineRun(states, labels) && i < |states|
    requires forall j :: 0 <= j < i ==> Right(states[j], labels[j])
    ensures !states[i].crashed && Inv(states[i]) && ReplyInv(states[i])
  {
    hide Enabled, Next, Inv, ReplyInv, Genuine, Right;
    if i == 0 {
      InitInv();
      InitReplies();
    } else {
      GenuineRunKeeps(states, labels, i - 1);
      assert Follows(states, labels, i - 1);
      RightExactly(states[i - 1], labels[i - 1]);
      StepReplies(states[i - 1], labels[i - 1]);
    }
  }

  /** Step `i` hands over an answer to a call that gave up before. */
  predicate TooLate(states: seq<State>, labels: seq<Label>, i: nat)
    requires i < |labels| && |states| == |labels| + 1
  {
    && labels[i].Dispatch? && labels[i].c in states[i].calls && PcOf(states[i], labels[i].c).Got?
    && GaveUpBefore(labels, i, PcOf(states[i], labels[i].c).reply.call)
  }

  /**
   Against a genuine server, every message goes to the call whose request it answers,
   without a throw, exactly when none comes for a call that gave up after a failed receive.
   */
  lemma MisdeliversExactly(states: seq<State>, labels: seq<Label>)
    requires GenuineRun(states, labels)
    ensures (forall i :: 0 <= i < |labels| ==> Right(states[i], labels[i]))
            <==> forall i :: 0 <= i < |labels| ==> !TooLate(states, labels, i)
  {
    hide Enabled, Next, Inv, ReplyInv, Right, Gone;
    if forall i :: 0 <= i < |labels| ==> Right(states[i], labels[i]) {
      forall i | 0 <= i < |labels|
        ensures !TooLate(states, labels, i)
      {
        assert Follows(states, labels, i);
        GenuineRunKeeps(states, labels, i);
        RightExactly(states[i], labels[i]);
        TimelyMeans(states, labels, i);
      }
    } else if forall i :: 0 <= i < |labels| ==> !TooLate(states, labels, i) {
      TimelyRun(states, labels, |labels|);
      assert false;
    }
  }

  lemma TimelyMeans(states: seq<State>, labels: seq<Label>, i: nat)
    requires Run(states, labels) && i < |labels| && !states[i].crashed
    ensures Timely(states[i], labels[i]) <==> !TooLate(states, labels, i)
  {
    hide Inv, Next;
    if labels[i].Dispatch? && labels[i].c in states[i].calls && PcOf(states[i], labels[i].c).Got? {
      GoneExactly(states, labels, i, PcOf(states[i], labels[i].c).reply.call);
    }
  }

  lemma {:induction false} TimelyRun(states: seq<State>, labels: seq<Label>, n: nat)
    requires GenuineRun(states, labels) && n <= |labels|
    requires forall i :: 0 <= i < n ==> !TooLate(states, labels, i)
    ensures forall i :: 0 <= i < n ==> Right(states[i], labels[i])
  {
    hide Enabled, Next, Inv, ReplyInv, Right, TooLate;
    if n > 0 {
      TimelyRun(states, labels, n - 1);
      GenuineRunKeeps(states, labels, n - 1);
      assert Follows(states, labels, n - 1);
      TimelyMeans(states, labels, n - 1);
      RightExactly(states[n - 1], labels[n - 1]);
    }
  }

  /**
   Nothing that is still to come is for a call that gave up, in any state, exactly when
   whoever gave up had lost its own answer.  And then every message goes where it belongs.
   */
  lemma AbandonsExactly(states: seq<State>, labels: seq<Label>)
    requires GenuineRun(states, labels)
    ensures (forall i :: 0 <= i < |states| ==> !states[i].crashed && AllOwed(states[i]))
            <==> forall i :: 0 <= i < |labels| ==> !Abandons(states[i], labels[i])
    ensures (forall i :: 0 <= i < |labels| ==> !Abandons(states[i], labels[i])) ==>
              (forall i :: 0 <= i < |labels| ==> Right(states[i], labels[i]))
  {
    hide Enabled, Next, Inv, ReplyInv, Right, AllOwed, Abandons;
    if forall i :: 0 <= i < |labels| ==> !Abandons(states[i], labels[i]) {
      forall i | 0 <= i < |states|
        ensures !states[i].crashed && AllOwed(states[i])
      {
        OwedRun(states, labels, i);
      }
      OwedRun(states, labels, |labels|);
    } else if forall i :: 0 <= i < |states| ==> !states[i].crashed && AllOwed(states[i]) {
      forall i | 0 <= i < |labels|
        ensures !Abandons(states[i], labels[i])
      {
        RightWhileOwed(states, labels, i);
        GenuineRunKeeps(states, labels, i);
        assert Follows(states, labels, i);
        OwedStep(states[i], labels[i]);
      }
    }
  }

  lemma {:induction false} RightWhileOwed(states: seq<State>, labels: seq<Label>, i: nat)
    requires GenuineRun(states, labels) && i < |states|
    requires forall j :: 0 <= j < |states| ==> !states[j].crashed && AllOwed(states[j])
    ensures forall j :: 0 <= j < i ==> Right(states[j], labels[j])
  {
    hide Enabled, Next, Inv, ReplyInv, Right, AllOwed;
    if i > 0 {
      RightWhileOwed(states, labels, i - 1);
      GenuineRunKeeps(states, labels, i - 1);
      assert Follows(states, labels, i - 1);
      OwedStep(states[i - 1], labels[i - 1]);
    }
  }

  /** From a state where all that is to come is owed, it stays so, and every message goes right, unless one gives up. */
  lemma {:induction false} OwedOnward(states: seq<State>, labels: seq<Label>, i: nat, j: nat)
    requires GenuineRun(states, labels) && i <= j < |states|
    requires !states[i].crashed && ReplyInv(states[i]) && AllOwed(states[i])
    requires forall k :: i <= k < j ==> !Abandons(states[k], labels[k])
    ensures !states[j].crashed && Inv(states[j]) && ReplyInv(states[j]) && AllOwed(states[j])
    ensures forall k :: i <= k < j ==> Right(states[k], labels[k])
    decreases j
  {
    hide Enabled, Next, Inv, ReplyInv, Right, AllOwed, Abandons, Genuine;
    RunKeeps(states, labels, j);
    if i < j {
      OwedOnward(states, labels, i, j - 1);
      assert Follows(states, labels, j - 1);
      OwedStep(states[j - 1], labels[j - 1]);
      StepReplies(states[j - 1], labels[j - 1]);
    }
  }

  lemma OwedRun(states: seq<State>, labels: seq<Label>, i: nat)
    requires GenuineRun(states, labels) && i < |states|
    requires forall j :: 0 <= j < i ==> !Abandons(states[j], labels[j])
    ensures !states[i].crashed && AllOwed(states[i])
    ensures forall j :: 0 <= j < i ==> Right(states[j], labels[j])
  {
    hide Inv, ReplyInv, AllOwed, Right;
    InitReplies();
    InitOwed();
    OwedOnward(states, labels, 0, i);
  }

  lemma InitOwed()
    ensures AllOwed(INIT)
  {
  }

  /** In such a run muxrpc returns the server's answer to its own request, or, if it gave up, nothing. */
  lemma ReturnsOwnOrNothing(states: seq<State>, labels: seq<Label>, i: nat, c: CallId)
    requires GenuineRun(states, labels) && i < |states|
    requires forall j :: 0 <= j < i ==> !TooLate(states, labels, j)
    requires c in states[i].calls && PcOf(states[i], c).Done?
    ensures PcOf(states[i], c).result == if GaveUpBefore(labels, i, c) then None
                                         else Some(Reply(U16(states[i].calls[c].tag), c))
  {
    TimelyRun(states, labels, i);
    GenuineRunKeeps(states, labels, i);
    GoneExactly(states, labels, i, c);
    assert OwnReply(c, states[i].calls[c]);
  }

  // ----- every message unpacks

  ghost predicate HonestRun(states: seq<State>, labels: seq<Label>) {
    Run(states, labels) && forall i :: 0 <= i < |labels| ==> Honest(labels[i])
  }

  /** Nobody fails to receive or has given up, and nothing was lost. */
  ghost predicate Unbroken(s: State) {
    s.lost == [] && forall c :: c in s.calls ==> !PcOf(s, c).RecvFailed? && !GaveUp(s.calls[c])
  }

  lemma {:induction false} HonestRunKeeps(states: seq<State>, labels: seq<Label>, i: nat)
    requires HonestRun(states, labels) && i < |states|
    ensures !states[i].crashed && Inv(states[i]) && ReplyInv(states[i]) && Unbroken(states[i]) && AllOwed(states[i])
  {
    hide Enabled, Next, Inv, ReplyInv, Honest, Unbroken, AllOwed;
    if i == 0 {
      InitInv();
      InitReplies();
      InitOwed();
      InitUnbroken();
    } else {
      HonestRunKeeps(states, labels, i - 1);
      assert Follows(states, labels, i - 1);
      HonestStep(states[i - 1], labels[i - 1]);
    }
  }

  lemma InitUnbroken()
    ensures Unbroken(INIT)
  {
  }

  lemma HonestStep(s: State, l: Label)
    requires Inv(s) && ReplyInv(s) && AllOwed(s) && Unbroken(s) && Enabled(s, l) && Honest(l)
    ensures var s' := Next(s, l); !s'.crashed && Inv(s') && ReplyInv(s') && AllOwed(s') && Unbroken(s')
  {
    hide Inv, Next, ReplyInv, AllOwed;
    OwedStep(s, l);
    StepReplies(s, l);
    NoneFails(s, l);
    forall c | c in Next(s, l).calls
      ensures !GaveUp(Next(s, l).calls[c])
    {
      StepGone(s, l, c);
      assert !Gone(s, c);
    }
    LostStep(s, l);
  }

  lemma NoneFails(s: State, l: Label)
    requires Unbroken(s) && Enabled(s, l) && Honest(l) && !Next(s, l).crashed
    ensures !l.PassBuck? && forall c :: c in Next(s, l).calls ==> !PcOf(Next(s, l), c).RecvFailed?
  {
    hide Next, GaveUp;
    forall c | c in Next(s, l).calls
      ensures !PcOf(Next(s, l), c).RecvFailed?
    {
      if PcOf(Next(s, l), c).RecvFailed? {
        OnlyRecvFails(s, l, c);
      }
    }
  }

  lemma OnlyRecvFails(s: State, l: Label, c: CallId)
    requires Enabled(s, l) && !Next(s, l).crashed && c in Next(s, l).calls && PcOf(Next(s, l), c).RecvFailed?
    ensures l == RecvFail(c) || (c in s.calls && PcOf(s, c).RecvFailed?)
  {
    hide Next, Enabled;
    if Alone(l) {
      AloneMoves(s, l);
      AlonePc(s, l);
    } else {
      OthersHands(s, l, c);
    }
  }

  /** muxrpc returns the server's answer to its own request, under the tag it sent. */
  lemma ReturnsOwnReply(states: seq<State>, labels: seq<Label>, i: nat, c: CallId)
    requires HonestRun(states, labels) && i < |states|
    requires c in states[i].calls && PcOf(states[i], c).Done?
    ensures PcOf(states[i], c).result == Some(Reply(U16(states[i].calls[c].tag), c))
  {
    HonestRunKeeps(states, labels, i);
    assert OwnReply(c, states[i].calls[c]);
  }

  /**
   Every message received so far has been handed to exactly one call, in order of
   arrival, except possibly the one in the muxer's hand; and nothing has thrown.
   */
  lemma HandedToExactlyOne(states: seq<State>, labels: seq<Label>, i: nat, q: Reply, c: CallId)
    requires HonestRun(states, labels) && i < |states| && c in states[i].calls
    ensures !states[i].crashed
    ensures states[i].received == states[i].delivered + InHand(states[i])
    ensures NoDup(states[i].delivered)
    ensures q in states[i].delivered ==> (states[i].calls[c].p == Some(q) <==> q.call == c)
  {
    HonestRunKeeps(states, labels, i);
    if q in states[i].delivered && states[i].calls[c].p == Some(q) {
      assert OwnReply(c, states[i].calls[c]);
    }
  }

  /** A sent and unanswered call's answer is still to come from the server, or in flight, and only once. */
  lemma NoReplyLost(states: seq<State>, labels: seq<Label>, i: nat, c: CallId)
    requires HonestRun(states, labels) && i < |states|
    requires c in states[i].calls && Awaiting(states[i].calls[c])
    ensures var q := Wanted(c, states[i].calls[c]);
            (q in states[i].unanswered <==> q !in InFlight(states[i])) && NoDup(InFlight(states[i]))
  {
    HonestRunKeeps(states, labels, i);
  }
}
