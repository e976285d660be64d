/**
 The client's RPC multiplexer (rpc.cc) as a step relation.

 A call is one invocation of muxrpc, run by its own thread.  Every access to shared
 state is inside a critical section of _lk, so a step is a piece of a critical
 section, a lock operation, a sleep, a wake-up, a send or a receive; steps of
 different calls interleave freely.  Sleeping on a condition variable releases _lk
 in the same step, and a woken call must take _lk again before it goes on.  A call
 may also wake spuriously.

 A call's Rpc dies when muxrpc has left, after every lock is released; a weak pointer to
 it lapses then.  For a call whose pack failed that is a step of its own, Lapse.  A call
 that returns a reply is never the muxer any more (MuxerOk), so nobody can see its Rpc
 die, and Leave ends it at once.  Two unlocks with nothing between them are one step:
 nobody can use the interval.
 */
module MuxModel {
  import opened Options
  import opened TagTable
  import opened WaitQueue

  type CallId = nat

  /** A message the server sends back: the 16-bit tag on it, and the call whose request it answers. */
  datatype Reply = Reply(tag: nat, call: CallId)

  datatype Bounds = Bounds(mintag: nat, maxtag: nat)

  const NO_TAG: nat := 65535

  /** The bounds mountfd sets before TVersion, and those it sets afterwards. */
  const VERSION_BOUNDS := Bounds(NO_TAG, NO_TAG + 1)
  const NORMAL_BOUNDS := Bounds(0, 255)

  /** Where a call is; a comment names the lock it holds, or the one it wants next. */
  datatype Pc =
    | Start                     // wants _lk, to enter gettag
    | TagTest(woken: bool)      // holds _lk, at the loop test of gettag
    | TagAsleep                 // waits on _tagrend
    | TagWoken                  // notified, wants _lk
    | TagScan(woken: bool)      // holds _lk, the table has a free slot
    | Tagged                    // holds _lk, slot taken, not queued yet
    | Sending                   // queued, wants _wlock
    | Packing                   // holds _wlock
    | PackFailed                // holds _wlock, wants _lk
    | Dropping                  // holds _wlock and _lk, dequeued
    | Dropped                   // holds nothing, on its way out; its Rpc is still alive
    | WantMux                   // sent, wants _lk
    | MuxTest                   // holds _lk, at the waiting loop's test in muxrpc
    | Asleep                    // waits on its own rendezvous
    | Woken                     // notified, wants _lk
    | Receiving                 // is the muxer, wants _rlock
    | Reading                   // holds _rlock, in recvmsg
    | Got(reply: Reply)         // unpacked a message, wants _lk
    | RecvFailed                // the message did not unpack, wants _lk
    | MuxLoop                   // holds _lk, at the receive loop's test
    | GivingUp                  // holds _lk, dequeued without a reply
    | Leaving                   // holds _lk, about to call puttag and return
    | Done(result: Option<Reply>)
    | SendFailed
    | SendThrew                 // sendmsg threw; still queued and in its slot, which keep its Rpc alive
    | RecvThrew                 // recvmsg threw; likewise, and still the muxer

  datatype Call = Call(pc: Pc, tag: nat, p: Option<Reply>)

  datatype State = State(
    bounds: Bounds,
    tab: Table<CallId>,
    queue: seq<CallId>,           // sleep->next, sleep->next->next, ...
    muxer: Option<CallId>,        // the weak pointer; it lapses when its call's Rpc dies
    lk: Option<CallId>,
    rlk: Option<CallId>,
    wlk: Option<CallId>,
    calls: map<CallId, Call>,
    unanswered: set<Reply>,       // requests the server has and has not answered
    net: seq<Reply>,              // replies on the wire, oldest first
    received: seq<Reply>,         // history: every message unpacked by a muxer
    delivered: seq<Reply>,        // history: every message handed to a call
    lost: seq<Reply>,             // history: every message that did not unpack
    crashed: bool                 // some thread threw while it held _lk, or followed a null link
  )

  datatype Label =
    | Begin(c: CallId)
    | LockForTag(c: CallId)
    | TestTags(c: CallId)
    | TakeTag(c: CallId)
    | Enqueue(c: CallId)
    | LockWrite(c: CallId)
    | Send(c: CallId)
    | PackFail(c: CallId)
    | SendThrow(c: CallId)
    | Drop(c: CallId)
    | DropTag(c: CallId, woken: Option<CallId>)
    | Lapse(c: CallId)
    | LockForMux(c: CallId)
    | TestMux(c: CallId)
    | LockRead(c: CallId)
    | Recv(c: CallId)
    | RecvFail(c: CallId)
    | RecvThrow(c: CallId)
    | Dispatch(c: CallId)
    | TestReply(c: CallId)
    | PassBuck(c: CallId)
    | Elect(c: CallId)
    | Leave(c: CallId, woken: Option<CallId>)
    | Spurious(c: CallId)
    | Answer(q: Reply)
    | Rogue(q: Reply)
    | Mount

  // ----- classes of program points

  predicate Ended(pc: Pc) { pc.Done? || pc.SendFailed? }

  /** Unwound out of muxrpc by a throw of sendmsg or recvmsg, its Rpc left behind. */
  predicate Threw(pc: Pc) { pc.SendThrew? || pc.RecvThrew? }

  predicate HasSlot(pc: Pc) {
    InLoop(pc) || pc.Tagged? || pc.Dropping? || pc.GivingUp? || pc.Leaving?
  }

  /** Between enqueue and whatever takes the call off the queue. */
  predicate InLoop(pc: Pc) {
    || pc.Sending? || pc.Packing? || pc.PackFailed? || pc.WantMux? || pc.MuxTest? || pc.Asleep?
    || pc.Woken? || pc.Receiving? || pc.Reading? || pc.Got? || pc.RecvFailed? || pc.MuxLoop? || Threw(pc)
  }

  predicate HoldsLk(pc: Pc) {
    || pc.TagTest? || pc.TagScan? || pc.Tagged? || pc.Dropping? || pc.MuxTest?
    || pc.MuxLoop? || pc.GivingUp? || pc.Leaving?
  }

  predicate HoldsWlk(pc: Pc) { pc.Packing? || pc.PackFailed? || pc.Dropping? }

  /** In the receive loop of muxrpc, or thrown out of it. */
  predicate Receiver(pc: Pc) {
    || pc.Receiving? || pc.Reading? || pc.Got? || pc.RecvFailed? || pc.MuxLoop? || pc.GivingUp?
    || pc.RecvThrew?
  }

  // ----- reading the state

  function U16(n: nat): nat { n % 0x1_0000 }

  function PcOf(s: State, c: CallId): Pc
    requires c in s.calls
  {
    s.calls[c].pc
  }

  /** muxer.lock() != nullptr */
  predicate MuxerLive(s: State) {
    s.muxer.Some? && s.muxer.value in s.calls && !Ended(PcOf(s, s.muxer.value))
  }

  predicate At(s: State, c: CallId) { c in s.calls }

  predicate NobodyAwaitsTag(s: State) {
    forall c :: c in s.calls ==> !PcOf(s, c).TagAsleep?
  }

  // ----- building the next state

  function Go(s: State, c: CallId, pc: Pc): State
    requires c in s.calls
  {
    s.(calls := s.calls[c := s.calls[c].(pc := pc)])
  }

  function Crash(s: State): State { s.(crashed := true) }

  /** notify_one on the rendezvous of `c`: wakes it if it sleeps there. */
  function Notify(s: State, c: CallId): State {
    if c in s.calls && PcOf(s, c).Asleep? then Go(s, c, Woken) else s
  }

  /** notify_one on _tagrend, waking `w` if anyone sleeps there. */
  function NotifyTag(s: State, w: Option<CallId>): State {
    if w.Some? && w.value in s.calls then Go(s, w.value, TagWoken) else s
  }

  /** The first queued call becomes muxer and is woken; with none queued there is no muxer. */
  function ElectMuxer(s: State): State {
    if s.queue == [] then s.(muxer := None)
    else Notify(s, s.queue[0]).(muxer := Some(s.queue[0]))
  }

  /** The slot a tag names. */
  function Slot(s: State, tag: nat): int { tag - s.bounds.mintag }

  predicate OwnsSlot(s: State, c: CallId)
    requires c in s.calls
  {
    var i := Slot(s, s.calls[c].tag);
    0 <= i < |s.tab.wait| && s.tab.wait[i] == Some(c) && s.tab.nwait > 0
  }

  /** puttag, which throws when the slot is not the caller's. */
  function PutTag(s: State, c: CallId, w: Option<CallId>): (t: State)
    requires c in s.calls
    ensures c in t.calls
  {
    if !OwnsSlot(s, c) then Crash(s)
    else NotifyTag(s, w).(tab := Release(s.tab, Slot(s, s.calls[c].tag)))
  }

  /** puttag, and the locks are given up. */
  function PutTagNext(s: State, c: CallId, w: Option<CallId>, wlk: Option<CallId>, pc: Pc): State
    requires c in s.calls
  {
    Go(PutTag(s, c, w).(lk := None, wlk := wlk), c, pc)
  }

  function ElectNext(s: State, c: CallId): State
    requires c in s.calls
  {
    Go(ElectMuxer(s), c, Leaving)
  }

  function TestTagsNext(s: State, c: CallId): State
    requires c in s.calls && PcOf(s, c).TagTest?
  {
    var woken := PcOf(s, c).woken;
    if s.tab.nwait != s.tab.mwait then Go(s, c, TagScan(woken))
    else if s.tab.mwait < s.bounds.maxtag - s.bounds.mintag then
      Go(s.(tab := Grow(s.tab)), c, TagScan(woken))
    else Go(s.(lk := None), c, TagAsleep)
  }

  function TakeTagNext(s: State, c: CallId): State
    requires c in s.calls
  {
    if |s.tab.wait| != s.tab.mwait || s.tab.freetag >= s.tab.mwait then Crash(s)
    else match Scan(s.tab)
      case None => Crash(s)
      case Some(i) => Found(s, c, i)
  }

  function Found(s: State, c: CallId, i: nat): State
    requires c in s.calls && i < |s.tab.wait|
  {
    s.(tab := Take(s.tab, i, c), calls := s.calls[c := s.calls[c].(pc := Tagged, tag := i + s.bounds.mintag)])
  }

  function TestMuxNext(s: State, c: CallId): State
    requires c in s.calls
  {
    var hasReply := s.calls[c].p.Some?;
    if MuxerLive(s) && s.muxer != Some(c) && !hasReply then Go(s.(lk := None), c, Asleep)
    else if hasReply then Go(s, c, Leaving)
    else if !(!MuxerLive(s) || s.muxer == Some(c)) then Crash(s)
    else Go(s.(muxer := Some(c), lk := None), c, Receiving)
  }

  function DispatchNext(s: State, c: CallId): State
    requires c in s.calls && PcOf(s, c).Got?
  {
    var f := PcOf(s, c).reply;
    var i := Slot(s, f.tag);
    if !(0 <= i < |s.tab.wait|) || s.tab.wait[i].None? then Crash(s)
    else
      var r := s.tab.wait[i].value;
      if r !in s.calls || r !in s.queue then Crash(s)
      else
        GiveReply(Notify(Go(s.(lk := Some(c)), c, MuxLoop), r), r, f)
  }

  /** setP and dequeue. */
  function GiveReply(s: State, r: CallId, f: Reply): State
    requires r in s.calls
  {
    s.(calls := s.calls[r := s.calls[r].(p := Some(f))], queue := Without(s.queue, r),
       delivered := s.delivered + [f])
  }

  function EnqueueNext(s: State, c: CallId): State
    requires c in s.calls
  {
    Go(s.(queue := [c] + s.queue, lk := None), c, Sending)
  }

  /** Takes _lk, then dequeues; the links of a call that is not queued are null. */
  function DequeueNext(s: State, c: CallId, pc: Pc): State
    requires c in s.calls
  {
    if c !in s.queue then Crash(s)
    else Go(s.(lk := Some(c), queue := Without(s.queue, c)), c, pc)
  }

  // ----- the steps

  predicate Enabled(s: State, l: Label) {
    && !s.crashed
    && match l
       case Begin(c) => c !in s.calls
       case LockForTag(c) => At(s, c) && s.lk.None? && (PcOf(s, c).Start? || PcOf(s, c).TagWoken?)
       case TestTags(c) => At(s, c) && PcOf(s, c).TagTest?
       case TakeTag(c) => At(s, c) && PcOf(s, c).TagScan?
       case Enqueue(c) => At(s, c) && PcOf(s, c).Tagged?
       case LockWrite(c) => At(s, c) && s.wlk.None? && PcOf(s, c).Sending?
       case Send(c) => At(s, c) && PcOf(s, c).Packing?
       case PackFail(c) => At(s, c) && PcOf(s, c).Packing?
       case SendThrow(c) => At(s, c) && PcOf(s, c).Packing?
       case Drop(c) => At(s, c) && s.lk.None? && PcOf(s, c).PackFailed?
       case DropTag(c, w) => At(s, c) && PcOf(s, c).Dropping? && MayWake(s, w)
       case Lapse(c) => At(s, c) && PcOf(s, c).Dropped?
       case LockForMux(c) => At(s, c) && s.lk.None? && (PcOf(s, c).WantMux? || PcOf(s, c).Woken?)
       case TestMux(c) => At(s, c) && PcOf(s, c).MuxTest?
       case LockRead(c) => At(s, c) && s.rlk.None? && PcOf(s, c).Receiving?
       case Recv(c) => At(s, c) && PcOf(s, c).Reading? && s.net != []
       case RecvFail(c) => At(s, c) && PcOf(s, c).Reading? && s.net != []
       case RecvThrow(c) => At(s, c) && PcOf(s, c).Reading?
       case Dispatch(c) => At(s, c) && s.lk.None? && PcOf(s, c).Got?
       case TestReply(c) => At(s, c) && PcOf(s, c).MuxLoop? && s.calls[c].p.None?
       case PassBuck(c) => At(s, c) && s.lk.None? && PcOf(s, c).RecvFailed?
       case Elect(c) => At(s, c) && (PcOf(s, c).GivingUp? || (PcOf(s, c).MuxLoop? && s.calls[c].p.Some?))
       case Leave(c, w) => At(s, c) && PcOf(s, c).Leaving? && MayWake(s, w)
       case Spurious(c) => At(s, c) && (PcOf(s, c).TagAsleep? || PcOf(s, c).Asleep?)
       case Answer(q) => q in s.unanswered
       case Rogue(q) => true
       case Mount => s.bounds == VERSION_BOUNDS && forall c :: c in s.calls ==> Ended(PcOf(s, c))
  }

  /** notify_one wakes some sleeper when there is one. */
  predicate MayWake(s: State, w: Option<CallId>) {
    if w.Some? then At(s, w.value) && PcOf(s, w.value).TagAsleep? else NobodyAwaitsTag(s)
  }

  function Next(s: State, l: Label): State
    requires Enabled(s, l)
  {
    match l
    case Begin(c) => s.(calls := s.calls[c := Call(Start, 0, None)])
    case LockForTag(c) => Go(s.(lk := Some(c)), c, TagTest(PcOf(s, c).TagWoken?))
    case TestTags(c) => TestTagsNext(s, c)
    case TakeTag(c) => TakeTagNext(s, c)
    case Enqueue(c) => EnqueueNext(s, c)
    case LockWrite(c) => Go(s.(wlk := Some(c)), c, Packing)
    case Send(c) =>
      Go(s.(wlk := None, unanswered := s.unanswered + {Reply(U16(s.calls[c].tag), c)}), c, WantMux)
    case PackFail(c) => Go(s, c, PackFailed)
    case SendThrow(c) => Go(s.(wlk := None), c, SendThrew)
    case Drop(c) => DequeueNext(s, c, Dropping)
    case DropTag(c, w) => PutTagNext(s, c, w, None, Dropped)
    case Lapse(c) => Go(s, c, SendFailed)
    case LockForMux(c) => Go(s.(lk := Some(c)), c, MuxTest)
    case TestMux(c) => TestMuxNext(s, c)
    case LockRead(c) => Go(s.(rlk := Some(c)), c, Reading)
    case Recv(c) =>
      Go(s.(rlk := None, net := s.net[1..], received := s.received + [s.net[0]]), c, Got(s.net[0]))
    case RecvFail(c) => Go(s.(rlk := None, net := s.net[1..], lost := s.lost + [s.net[0]]), c, RecvFailed)
    case RecvThrow(c) => Go(s.(rlk := None), c, RecvThrew)
    case Dispatch(c) => DispatchNext(s, c)
    case TestReply(c) => Go(s.(lk := None), c, Receiving)
    case PassBuck(c) => DequeueNext(s, c, GivingUp)
    case Elect(c) => ElectNext(s, c)
    case Leave(c, w) => PutTagNext(s, c, w, s.wlk, Done(s.calls[c].p))
    case Spurious(c) => Go(s, c, if PcOf(s, c).TagAsleep? then TagWoken else Woken)
    case Answer(q) => s.(unanswered := s.unanswered - {q}, net := s.net + [q])
    case Rogue(q) => s.(net := s.net + [q.(tag := U16(q.tag))])
    case Mount => s.(bounds := NORMAL_BOUNDS)
  }

  /** A client as the constructor and the first lines of mountfd leave it, counters zero. */
  const INIT := State(VERSION_BOUNDS, Table(0, 0, 0, []), [], None, None, None, None, map[], {}, [], [], [], [], false)

  /** A run: states[i+1] follows from states[i] by labels[i]. */
  ghost predicate Run(states: seq<State>, labels: seq<Label>) {
    && |states| == |labels| + 1
    && states[0] == INIT
    && forall i :: 0 <= i < |labels| ==> Follows(states, labels, i)
  }

  ghost predicate Follows(states: seq<State>, labels: seq<Label>, i: nat)
    requires i < |labels| && |states| == |labels| + 1
  {
    Enabled(states[i], labels[i]) && states[i + 1] == Next(states[i], labels[i])
  }
}
