/** Runs that show why the theorems about replies and wake-ups exclude what they exclude; and a rescue. */
module MuxExamples {
  import opened Options
  import opened TagTable
  import opened WaitQueue
  import opened MuxModel
  import opened MuxReplies
  import opened MuxWake

  /** The labels are enabled one after the other from `s` and end in `t`. */
  ghost predicate Leads(s: State, labels: seq<Label>, t: State)
    decreases |labels|
  {
    if labels == [] then s == t
    else Enabled(s, labels[0]) && Leads(Next(s, labels[0]), labels[1..], t)
  }

  lemma {:induction false} LeadsOn(s: State, a: seq<Label>, t: State, b: seq<Label>, u: State)
    requires Leads(s, a, t) && Leads(t, b, u)
    ensures Leads(s, a + b, u)
    decreases |a|
  {
    if a == [] {
      assert a + b == b;
    } else {
      LeadsOn(Next(s, a[0]), a[1..], t, b, u);
      assert (a + b)[1..] == a[1..] + b;
    }
  }

  lemma {:induction false} LeadsToRun(labels: seq<Label>, states: seq<State>, more: seq<Label>, t: State)
    returns (all: seq<State>)
    requires Run(states, labels) && Leads(states[|labels|], more, t)
    ensures Run(all, labels + more) && all[|labels + more|] == t
    decreases |more|
  {
    if more == [] {
      assert labels + more == labels;
      all := states;
    } else {
      var s' := Next(states[|labels|], more[0]);
      var states' := states + [s'];
      var labels' := labels + [more[0]];
      forall i | 0 <= i < |labels'| ensures Follows(states', labels', i) {
        if i < |labels| {
          assert Follows(states, labels, i);
        }
      }
      all := LeadsToRun(labels', states', more[1..], t);
      assert labels' + more[1..] == labels + more;
    }
  }

  lemma Leads3(s: State, a: Label, b: Label, c: Label)
    requires Enabled(s, a) && Enabled(Next(s, a), b) && Enabled(Next(Next(s, a), b), c)
    ensures Leads(s, [a, b, c], Next(Next(Next(s, a), b), c))
  {
    hide Enabled, Next;
    var s1 := Next(s, a);
    assert Leads(Next(s1, b), [c], Next(Next(s1, b), c));
    assert Leads(s1, [b, c], Next(Next(s1, b), c));
  }

  // ----- single steps, spelled out

  lemma LeaveStep(s: State, c: CallId)
    requires !s.crashed && c in s.calls && PcOf(s, c).Leaving? && OwnsSlot(s, c) && NobodyAwaitsTag(s)
    ensures Enabled(s, Leave(c, None))
    ensures Next(s, Leave(c, None))
            == s.(tab := Release(s.tab, Slot(s, s.calls[c].tag)), lk := None,
                  calls := s.calls[c := s.calls[c].(pc := Done(s.calls[c].p))])
  {
    hide Release;
  }

  lemma DropTagStep(s: State, c: CallId)
    requires !s.crashed && c in s.calls && PcOf(s, c).Dropping? && OwnsSlot(s, c) && NobodyAwaitsTag(s)
    ensures Enabled(s, DropTag(c, None))
    ensures Next(s, DropTag(c, None))
            == s.(tab := Release(s.tab, Slot(s, s.calls[c].tag)), lk := None, wlk := None,
                  calls := s.calls[c := s.calls[c].(pc := Dropped)])
  {
    hide Release;
  }

  lemma ElectStep(s: State, c: CallId, d: CallId)
    requires !s.crashed && c in s.calls && s.queue != [] && s.queue[0] == d && d != c && d in s.calls
    requires PcOf(s, c).GivingUp? || (PcOf(s, c).MuxLoop? && s.calls[c].p.Some?)
    ensures Enabled(s, Elect(c))
    ensures Next(s, Elect(c))
            == s.(muxer := Some(d),
                  calls := s.calls[d := if PcOf(s, d).Asleep? then s.calls[d].(pc := Woken) else s.calls[d]]
                                  [c := s.calls[c].(pc := Leaving)])
  {
    assert Next(s, Elect(c)).calls
           == s.calls[d := if PcOf(s, d).Asleep? then s.calls[d].(pc := Woken) else s.calls[d]]
                     [c := s.calls[c].(pc := Leaving)];
  }

  lemma DispatchStep(s: State, c: CallId, d: CallId)
    requires !s.crashed && s.lk.None? && c in s.calls && PcOf(s, c).Got? && d in s.calls && d in s.queue
    requires var i := Slot(s, PcOf(s, c).reply.tag); 0 <= i < |s.tab.wait| && s.tab.wait[i] == Some(d)
    requires d == c || PcOf(s, d).Asleep?
    ensures Enabled(s, Dispatch(c))
    ensures var f := PcOf(s, c).reply;
            Next(s, Dispatch(c))
            == s.(lk := Some(c), queue := Without(s.queue, d), delivered := s.delivered + [f],
                  calls := if d == c then s.calls[c := s.calls[c].(pc := MuxLoop, p := Some(f))]
                           else s.calls[c := s.calls[c].(pc := MuxLoop)][d := s.calls[d].(pc := Woken, p := Some(f))])
  {
    hide Without;
    var f := PcOf(s, c).reply;
    assert Next(s, Dispatch(c)).calls
           == if d == c then s.calls[c := s.calls[c].(pc := MuxLoop, p := Some(f))]
              else s.calls[c := s.calls[c].(pc := MuxLoop)][d := s.calls[d].(pc := Woken, p := Some(f))];
  }

  /** The next message on the wire is unpacked, or does not unpack. */
  lemma ReceiveSteps(s: State, c: CallId, q: Reply)
    requires !s.crashed && s.rlk.None? && c in s.calls && PcOf(s, c).Receiving? && q in s.unanswered && s.net == []
    ensures Leads(s, [LockRead(c), Answer(q), Recv(c)],
                  s.(unanswered := s.unanswered - {q}, received := s.received + [q],
                     calls := s.calls[c := s.calls[c].(pc := Got(q))]))
    ensures Leads(s, [LockRead(c), Answer(q), RecvFail(c)],
                  s.(unanswered := s.unanswered - {q}, lost := s.lost + [q],
                     calls := s.calls[c := s.calls[c].(pc := RecvFailed)]))
  {
    var s1 := Next(s, LockRead(c));
    var s2 := s1.(unanswered := s.unanswered - {q}, net := [q]);
    assert Next(s1, Answer(q)) == s2;
    ReadSteps(s, s2, c, q);
    hide Next, Leads;
    Leads3(s, LockRead(c), Answer(q), Recv(c));
    Leads3(s, LockRead(c), Answer(q), RecvFail(c));
  }

  lemma ReadSteps(s: State, s2: State, c: CallId, q: Reply)
    requires !s.crashed && s.rlk.None? && c in s.calls && s.net == []
    requires s2 == s.(rlk := Some(c), calls := s.calls[c := s.calls[c].(pc := Reading)],
                      unanswered := s.unanswered - {q}, net := [q])
    ensures Enabled(s2, Recv(c)) && Enabled(s2, RecvFail(c))
    ensures Next(s2, Recv(c)) == s.(unanswered := s.unanswered - {q}, received := s.received + [q],
                                    calls := s.calls[c := s.calls[c].(pc := Got(q))])
    ensures Next(s2, RecvFail(c)) == s.(unanswered := s.unanswered - {q}, lost := s.lost + [q],
                                        calls := s.calls[c := s.calls[c].(pc := RecvFailed)])
  {
    assert s2.net[1..] == [];
    assert Next(s2, Recv(c)).calls == s.calls[c := s.calls[c].(pc := Got(q))];
    assert Next(s2, RecvFail(c)).calls == s.calls[c := s.calls[c].(pc := RecvFailed)];
  }

  lemma PackFailSteps(s: State, c: CallId)
    requires !s.crashed && s.lk.None? && s.wlk.None? && c in s.calls && PcOf(s, c).Sending? && c in s.queue
    ensures Leads(s, [LockWrite(c), PackFail(c), Drop(c)],
                  s.(lk := Some(c), wlk := Some(c), queue := Without(s.queue, c),
                     calls := s.calls[c := s.calls[c].(pc := Dropping)]))
  {
    hide Without;
    var s1 := Next(s, LockWrite(c));
    var s2 := Next(s1, PackFail(c));
    assert Next(s2, Drop(c)).calls == s.calls[c := s.calls[c].(pc := Dropping)];
    Leads3(s, LockWrite(c), PackFail(c), Drop(c));
  }

  lemma PassBuckStep(s: State, c: CallId)
    requires !s.crashed && s.lk.None? && c in s.calls && PcOf(s, c).RecvFailed? && c in s.queue
    ensures Enabled(s, PassBuck(c))
    ensures Next(s, PassBuck(c)) == s.(lk := Some(c), queue := Without(s.queue, c),
                                       calls := s.calls[c := s.calls[c].(pc := GivingUp)])
  {
    hide Without;
  }

  /** A notified call looks again: it has its reply, or is the muxer now. */
  lemma WakeSteps(s: State, c: CallId)
    requires !s.crashed && s.lk.None? && c in s.calls && PcOf(s, c).Woken?
    ensures s.calls[c].p.Some? ==>
              Leads(s, [LockForMux(c), TestMux(c)],
                    s.(lk := Some(c), calls := s.calls[c := s.calls[c].(pc := Leaving)]))
    ensures s.calls[c].p.None? && s.muxer == Some(c) ==>
              Leads(s, [LockForMux(c), TestMux(c)], s.(calls := s.calls[c := s.calls[c].(pc := Receiving)]))
  {
    var s1 := Next(s, LockForMux(c));
    var s2 := Next(s1, TestMux(c));
    assert s2.calls == s.calls[c := s2.calls[c]];
    assert Leads(s1, [TestMux(c)], s2);
  }

  /** Nobody but the server can go wrong in these. */
  predicate AllGenuine(labels: seq<Label>) {
    forall i :: 0 <= i < |labels| ==> Genuine(labels[i])
  }

  function Q(c: CallId): Reply { Reply(c, c) }

  const MOUNTED: State := INIT.(bounds := NORMAL_BOUNDS)

  /** Entering muxrpc up to the release of _lk at the end of gettag and enqueue. */
  function JoinLabels(c: CallId): seq<Label> {
    [Begin(c), LockForTag(c), TestTags(c), TakeTag(c), Enqueue(c)]
  }

  function Joined(s: State, c: CallId, i: nat): State
    requires i < |Tested(s.tab).wait|
  {
    s.(tab := Take(Tested(s.tab), i, c), queue := [c] + s.queue,
       calls := s.calls[c := Call(Sending, i + s.bounds.mintag, None)])
  }

  lemma Joins(s: State, c: CallId, i: nat)
    requires !s.crashed && s.lk.None? && c !in s.calls && s.bounds == NORMAL_BOUNDS && s.tab.mwait < 255
    requires var t := Tested(s.tab);
             |t.wait| == t.mwait && t.freetag < t.mwait && Scan(t) == Some(i)
    ensures Leads(s, JoinLabels(c), Joined(s, c, i))
  {
    Enters(s, c);
    var s2 := Entered(s, c);
    GetsTag(s, c, i);
    LeadsOn(s, [Begin(c), LockForTag(c)], s2, [TestTags(c), TakeTag(c), Enqueue(c)], Joined(s, c, i));
    assert [Begin(c), LockForTag(c)] + [TestTags(c), TakeTag(c), Enqueue(c)] == JoinLabels(c);
  }

  lemma GetsTag(s: State, c: CallId, i: nat)
    requires !s.crashed && s.lk.None? && s.bounds == NORMAL_BOUNDS && s.tab.mwait < 255
    requires var t := Tested(s.tab);
             |t.wait| == t.mwait && t.freetag < t.mwait && Scan(t) == Some(i)
    ensures Leads(Entered(s, c), [TestTags(c), TakeTag(c), Enqueue(c)], Joined(s, c, i))
  {
    hide Leads, Scan, Take;
    var s2 := Entered(s, c);
    var s3 := Entered(s, c).(tab := Tested(s.tab), calls := s.calls[c := Call(TagScan(false), 0, None)]);
    assert Next(s2, TestTags(c)).calls == s3.calls;
    assert Next(s2, TestTags(c)) == s3;
    TakesAndQueues(s3, c, i);
    assert Next(Next(s3, TakeTag(c)), Enqueue(c)).calls == Joined(s, c, i).calls;
    Leads3(s2, TestTags(c), TakeTag(c), Enqueue(c));
  }

  lemma TakesAndQueues(s: State, c: CallId, i: nat)
    requires !s.crashed && s.lk == Some(c) && c in s.calls && s.calls[c] == Call(TagScan(false), 0, None)
    requires |s.tab.wait| == s.tab.mwait && s.tab.freetag < s.tab.mwait && Scan(s.tab) == Some(i)
    ensures Enabled(s, TakeTag(c)) && Enabled(Next(s, TakeTag(c)), Enqueue(c))
    ensures i < |s.tab.wait|
    ensures Next(Next(s, TakeTag(c)), Enqueue(c))
            == s.(tab := Take(s.tab, i, c), queue := [c] + s.queue, lk := None,
                  calls := s.calls[c := Call(Sending, i + s.bounds.mintag, None)])
  {
    hide Scan, Take;
    var s' := Next(s, TakeTag(c));
    assert s'.calls[c] == Call(Tagged, i + s.bounds.mintag, None);
    assert Next(s', Enqueue(c)).calls == s.calls[c := Call(Sending, i + s.bounds.mintag, None)];
  }

  function Entered(s: State, c: CallId): State {
    s.(lk := Some(c), calls := s.calls[c := Call(TagTest(false), 0, None)])
  }

  lemma Enters(s: State, c: CallId)
    requires !s.crashed && s.lk.None? && c !in s.calls && s.bounds == NORMAL_BOUNDS
    ensures Leads(s, [Begin(c), LockForTag(c)], Entered(s, c))
  {
    var s1 := Next(s, Begin(c));
    assert Next(s1, LockForTag(c)).calls == Entered(s, c).calls;
    assert Leads(s1, [LockForTag(c)], Entered(s, c));
  }

  /** Sending and reaching the waiting loop's test. */
  function SendLabels(c: CallId): seq<Label> {
    [LockWrite(c), Send(c), LockForMux(c), TestMux(c)]
  }

  const EMPTY: Option<CallId> := None

  // Call 0 is the muxer, call 1 sleeps, call 2 is queued first and still has to send.

  /** A mounted client whose write and read locks are free, with no reply on the wire. */
  function Mounted(tab: Table<CallId>, queue: seq<CallId>, muxer: Option<CallId>, lk: Option<CallId>,
                   calls: map<CallId, Call>, unanswered: set<Reply>, received: seq<Reply>, delivered: seq<Reply>,
                   lost: seq<Reply>): State {
    State(NORMAL_BOUNDS, tab, queue, muxer, lk, None, None, calls, unanswered, [], received, delivered, lost, false)
  }

  const ONE_CALL: map<CallId, Call> := map[][0 := Call(Receiving, 0, None)]
  const ONE_TAB: Table<CallId> := Table(1, 1, 0, [Some(0)])
  const ONE_MUXES: State := Mounted(ONE_TAB, [0], Some(0), None, ONE_CALL, {Q(0)}, [], [], [])

  const TWO_CALLS: map<CallId, Call> := ONE_CALL[1 := Call(Sending, 1, None)]
  const TWO_TAB: Table<CallId> := Table(2, 2, 1, [Some(0), Some(1)])
  const TWO_IN: State := Mounted(TWO_TAB, [1, 0], Some(0), None, TWO_CALLS, {Q(0)}, [], [], [])

  const SLEEPING: map<CallId, Call> := TWO_CALLS[1 := Call(Asleep, 1, None)]
  const ONE_SLEEPS: State := Mounted(TWO_TAB, [1, 0], Some(0), None, SLEEPING, {Q(0), Q(1)}, [], [], [])

  const THREE_CALLS: map<CallId, Call> := SLEEPING[2 := Call(Sending, 2, None)]
  const THREE_TAB: Table<CallId> := Table(3, 4, 2, [Some(0), Some(1), Some(2), EMPTY])
  const THREE_IN: State := Mounted(THREE_TAB, [2, 1, 0], Some(0), None, THREE_CALLS, {Q(0), Q(1)}, [], [], [])

  const CALLS_IN_HAND: map<CallId, Call> := THREE_CALLS[0 := Call(Got(Q(0)), 0, None)]
  const IN_HAND: State := Mounted(THREE_TAB, [2, 1, 0], Some(0), None, CALLS_IN_HAND, {Q(1)}, [Q(0)], [], [])

  const CALLS_DISPATCHED: map<CallId, Call> := CALLS_IN_HAND[0 := Call(MuxLoop, 0, Some(Q(0)))]
  const DISPATCHED: State := Mounted(THREE_TAB, [2, 1], Some(0), Some(0), CALLS_DISPATCHED, {Q(1)}, [Q(0)], [Q(0)], [])

  const CALLS_LEAVING: map<CallId, Call> :=
    CALLS_DISPATCHED[2 := Call(Sending, 2, None)][0 := Call(Leaving, 0, Some(Q(0)))]
  const LEAVING: State := Mounted(THREE_TAB, [2, 1], Some(2), Some(0), CALLS_LEAVING, {Q(1)}, [Q(0)], [Q(0)], [])

  const CALLS_OVER: map<CallId, Call> := CALLS_LEAVING[0 := Call(Done(Some(Q(0))), 0, Some(Q(0)))]
  const OVER_TAB: Table<CallId> := Table(2, 4, 0, [EMPTY, Some(1), Some(2), EMPTY])
  const HANDED_OVER: State := Mounted(OVER_TAB, [2, 1], Some(2), None, CALLS_OVER, {Q(1)}, [Q(0)], [Q(0)], [])

  const CALLS_DROPPING: map<CallId, Call> := CALLS_OVER[2 := Call(Dropping, 2, None)]
  const DROPPING: State :=
    Mounted(OVER_TAB, [1], Some(2), Some(2), CALLS_DROPPING, {Q(1)}, [Q(0)], [Q(0)], []).(wlk := Some(2))

  const CALLS_DROPPED: map<CallId, Call> := CALLS_DROPPING[2 := Call(Dropped, 2, None)]
  const LAST_TAB: Table<CallId> := Table(1, 4, 2, [EMPTY, Some(1), EMPTY, EMPTY])
  const DROPPED: State := Mounted(LAST_TAB, [1], Some(2), None, CALLS_DROPPED, {Q(1)}, [Q(0)], [Q(0)], [])

  const CALLS_STRANDED: map<CallId, Call> := CALLS_DROPPED[2 := Call(SendFailed, 2, None)]
  const STRANDED: State := Mounted(LAST_TAB, [1], Some(2), None, CALLS_STRANDED, {Q(1)}, [Q(0)], [Q(0)], [])

  lemma OneMuxes()
    ensures Leads(INIT, [Mount] + JoinLabels(0) + SendLabels(0), ONE_MUXES)
  {
    assert Leads(INIT, [Mount], MOUNTED);
    Joins(MOUNTED, 0, 0);
    LeadsOn(INIT, [Mount], MOUNTED, JoinLabels(0), Joined(MOUNTED, 0, 0));
    Sends(Joined(MOUNTED, 0, 0), 0, ONE_MUXES);
    LeadsOn(INIT, [Mount] + JoinLabels(0), Joined(MOUNTED, 0, 0), SendLabels(0), ONE_MUXES);
  }

  lemma Sends(s: State, c: CallId, t: State)
    requires !s.crashed && s.lk.None? && s.wlk.None? && c in s.calls && s.calls[c].p.None?
    requires PcOf(s, c).Sending? && s.muxer != Some(c)
    requires if MuxerLive(s)
             then t == s.(unanswered := s.unanswered + {Reply(U16(s.calls[c].tag), c)},
                          calls := s.calls[c := s.calls[c].(pc := Asleep)])
             else t == s.(unanswered := s.unanswered + {Reply(U16(s.calls[c].tag), c)},
                          calls := s.calls[c := s.calls[c].(pc := Receiving)], muxer := Some(c))
    ensures Leads(s, SendLabels(c), t)
  {
    var s1 := Next(s, LockWrite(c));
    var s2 := Next(s1, Send(c));
    assert Leads(s1, [Send(c)], s2);
    assert Leads(s, [LockWrite(c), Send(c)], s2);
    ReachesTest(s2, c, t);
    LeadsOn(s, [LockWrite(c), Send(c)], s2, [LockForMux(c), TestMux(c)], t);
    assert [LockWrite(c), Send(c)] + [LockForMux(c), TestMux(c)] == SendLabels(c);
  }

  lemma ReachesTest(s: State, c: CallId, t: State)
    requires !s.crashed && s.lk.None? && c in s.calls && s.calls[c].p.None?
    requires PcOf(s, c).WantMux? && s.muxer != Some(c)
    requires if MuxerLive(s)
             then t == s.(calls := s.calls[c := s.calls[c].(pc := Asleep)])
             else t == s.(calls := s.calls[c := s.calls[c].(pc := Receiving)], muxer := Some(c))
    ensures Leads(s, [LockForMux(c), TestMux(c)], t)
  {
    var s3 := Next(s, LockForMux(c));
    var s4 := Next(s3, TestMux(c));
    assert s4.calls == t.calls;
    assert s4 == t;
    assert Leads(s3, [TestMux(c)], t);
  }

  lemma SecondJoins()
    ensures Leads(ONE_MUXES, JoinLabels(1), TWO_IN)
  {
    SecondJoined();
    var t := Tested(ONE_MUXES.tab);
    assert t == Table(1, 2, 1, [Some(0), EMPTY]);
    hide Leads, JoinLabels, Joined;
    Joins(ONE_MUXES, 1, 1);
  }

  lemma SecondJoined()
    ensures Joined(ONE_MUXES, 1, 1) == TWO_IN
  {
    var t := Tested(ONE_MUXES.tab);
    assert t == Table(1, 2, 1, [Some(0), EMPTY]);
    var s := Joined(ONE_MUXES, 1, 1);
    assert s.tab.wait == [Some(0), Some(1)] && s.queue == [1, 0];
  }

  lemma OneSleeps()
    ensures Leads(ONE_MUXES, JoinLabels(1) + SendLabels(1), ONE_SLEEPS)
  {
    hide Leads, JoinLabels, SendLabels;
    SecondJoins();
    SecondSends();
    LeadsOn(ONE_MUXES, JoinLabels(1), TWO_IN, SendLabels(1), ONE_SLEEPS);
  }

  lemma SecondSends()
    ensures Leads(TWO_IN, SendLabels(1), ONE_SLEEPS)
  {
    hide Leads, SendLabels;
    Sends(TWO_IN, 1, ONE_SLEEPS);
  }

  lemma ThirdJoins()
    ensures Leads(ONE_SLEEPS, JoinLabels(2), THREE_IN)
  {
    var t := Tested(ONE_SLEEPS.tab);
    assert t.wait == [Some(0), Some(1), EMPTY, EMPTY];
    ThirdJoined();
    hide Leads, JoinLabels, Joined;
    Joins(ONE_SLEEPS, 2, 2);
  }

  lemma ThirdJoined()
    ensures Joined(ONE_SLEEPS, 2, 2) == THREE_IN
  {
    var t := Tested(ONE_SLEEPS.tab);
    assert t.wait == [Some(0), Some(1), EMPTY, EMPTY];
    var s := Joined(ONE_SLEEPS, 2, 2);
    assert s.tab.wait == THREE_IN.tab.wait && s.queue == [2, 1, 0];
  }

  /** Call 0's answer arrives and it leaves, electing call 2, which has not sent yet. */
  function LeaveLabels(): seq<Label> {
    [LockRead(0), Answer(Q(0)), Recv(0), Dispatch(0), Elect(0), Leave(0, None)]
  }

  lemma ReceivesAndLeaves()
    ensures Leads(THREE_IN, LeaveLabels(), HANDED_OVER)
  {
    hide Leads, Next, Enabled;
    var s3 := IN_HAND;
    ReceiveSteps(THREE_IN, 0, Q(0));
    assert THREE_IN.unanswered - {Q(0)} == {Q(1)} && THREE_IN.received + [Q(0)] == [Q(0)];
    assert THREE_IN.calls[0].(pc := Got(Q(0))) == Call(Got(Q(0)), 0, None);
    Dispatches();
    LeadsOn(THREE_IN, [LockRead(0), Answer(Q(0)), Recv(0)], s3, [Dispatch(0), Elect(0), Leave(0, None)], HANDED_OVER);
    assert [LockRead(0), Answer(Q(0)), Recv(0)] + [Dispatch(0), Elect(0), Leave(0, None)] == LeaveLabels();
  }

  lemma Dispatches()
    ensures Leads(IN_HAND, [Dispatch(0), Elect(0), Leave(0, None)], HANDED_OVER)
  {
    HandsOver();
    Elects();
    Leaves();
    hide Next, Enabled, Leads;
    Leads3(IN_HAND, Dispatch(0), Elect(0), Leave(0, None));
  }

  lemma HandsOver()
    ensures Enabled(IN_HAND, Dispatch(0)) && Next(IN_HAND, Dispatch(0)) == DISPATCHED
  {
    assert IN_HAND.queue[1..] == [1, 0];
    assert Without(IN_HAND.queue, 0) == [2, 1];
    DispatchStep(IN_HAND, 0, 0);
    hide Next, Enabled, Without;
    assert IN_HAND.delivered + [Q(0)] == [Q(0)];
  }

  lemma Elects()
    ensures Enabled(DISPATCHED, Elect(0)) && Next(DISPATCHED, Elect(0)) == LEAVING
  {
    ElectStep(DISPATCHED, 0, 2);
    hide Next, Enabled;
  }

  lemma Leaves()
    ensures Enabled(LEAVING, Leave(0, None)) && Next(LEAVING, Leave(0, None)) == HANDED_OVER
  {
    LeaveStep(LEAVING, 0);
    hide Next, Enabled;
    assert Release(LEAVING.tab, 0).wait == HANDED_OVER.tab.wait;
  }

  function DropLabels(): seq<Label> {
    [LockWrite(2), PackFail(2), Drop(2)] + [DropTag(2, None), Lapse(2)]
  }

  lemma FailsToPack()
    ensures Leads(HANDED_OVER, DropLabels(), STRANDED)
  {
    hide Leads, Next, Enabled;
    PackFailSteps(HANDED_OVER, 2);
    assert Without(HANDED_OVER.queue, 2) == [1];
    Lapses();
    LeadsOn(HANDED_OVER, [LockWrite(2), PackFail(2), Drop(2)], DROPPING, [DropTag(2, None), Lapse(2)], STRANDED);
  }

  lemma Lapses()
    ensures Leads(DROPPING, [DropTag(2, None), Lapse(2)], STRANDED)
  {
    DropTagStep(DROPPING, 2);
    LapseStep(DROPPED, 2);
    hide Next, Enabled;
    assert Release(DROPPING.tab, 2).wait == DROPPED.tab.wait;
    assert Next(DROPPING, DropTag(2, None)) == DROPPED;
    assert Leads(DROPPED, [Lapse(2)], STRANDED);
  }

  lemma LapseStep(s: State, c: CallId)
    requires !s.crashed && c in s.calls && PcOf(s, c).Dropped?
    ensures Enabled(s, Lapse(c)) && Next(s, Lapse(c)) == s.(calls := s.calls[c := s.calls[c].(pc := SendFailed)])
  {
  }

  /**
   A lost wake-up: a run that throws nowhere and ends with call 1 asleep, unanswered and
   un-notified, no muxer alive, and no thread able to go on.  So nobody wakes call 1 until
   a new call begins or it wakes spuriously (MuxWake.NobodyWakes), though the server owes
   it the answer.
   */
  lemma FailedPackStrandsSleeper() returns (states: seq<State>, labels: seq<Label>)
    ensures Run(states, labels) && states[|labels|] == STRANDED
    ensures var s := STRANDED;
            && 1 in s.calls && PcOf(s, 1).Asleep? && s.calls[1].p.None? && !MuxerLive(s) && !s.crashed
            && Q(1) in s.unanswered && Dormant(s)
  {
    TwoJoin();
    ThirdFails();
    Stranded();
    hide Leads, AllGenuine, TwoIn, StrandLabels, Run, Dormant;
    StartsRun();
    states := LeadsToRun([], [INIT], TwoIn(), ONE_SLEEPS);
    assert [] + TwoIn() == TwoIn();
    states := LeadsToRun(TwoIn(), states, StrandLabels(), STRANDED);
    labels := TwoIn() + StrandLabels();
  }

  lemma Stranded()
    ensures var s := STRANDED;
            && 1 in s.calls && PcOf(s, 1).Asleep? && s.calls[1].p.None? && !MuxerLive(s) && !s.crashed
            && Q(1) in s.unanswered && Dormant(s)
  {
  }

  function StrandLabels(): seq<Label> { (JoinLabels(2) + LeaveLabels()) + DropLabels() }

  lemma ThirdFails()
    ensures Leads(ONE_SLEEPS, StrandLabels(), STRANDED)
  {
    ThirdJoins();
    ReceivesAndLeaves();
    FailsToPack();
    hide Leads, JoinLabels, LeaveLabels, DropLabels;
    LeadsOn(ONE_SLEEPS, JoinLabels(2), THREE_IN, LeaveLabels(), HANDED_OVER);
    LeadsOn(ONE_SLEEPS, JoinLabels(2) + LeaveLabels(), HANDED_OVER, DropLabels(), STRANDED);
  }

  // The rescue: call 3 begins, finds no live muxer, and receives the answer to call 1.

  const RESCUE_TAB: Table<CallId> := Table(2, 4, 2, [EMPTY, Some(1), Some(3), EMPTY])
  const CALLS_FOURTH: map<CallId, Call> := CALLS_STRANDED[3 := Call(Sending, 2, None)]
  const FOURTH_IN: State := Mounted(RESCUE_TAB, [3, 1], Some(2), None, CALLS_FOURTH, {Q(1)}, [Q(0)], [Q(0)], [])

  const CALLS_MUXING: map<CallId, Call> := CALLS_FOURTH[3 := Call(Receiving, 2, None)]
  const FOURTH_MUXES: State :=
    Mounted(RESCUE_TAB, [3, 1], Some(3), None, CALLS_MUXING, {Q(1), Reply(2, 3)}, [Q(0)], [Q(0)], [])

  const CALLS_HOLDING: map<CallId, Call> := CALLS_MUXING[3 := Call(Got(Q(1)), 2, None)]
  const FOURTH_HOLDS: State :=
    Mounted(RESCUE_TAB, [3, 1], Some(3), None, CALLS_HOLDING, {Reply(2, 3)}, [Q(0), Q(1)], [Q(0)], [])

  const CALLS_RESCUED: map<CallId, Call> :=
    CALLS_HOLDING[3 := Call(MuxLoop, 2, None)][1 := Call(Woken, 1, Some(Q(1)))]
  const RESCUED: State :=
    Mounted(RESCUE_TAB, [3], Some(3), Some(3), CALLS_RESCUED, {Reply(2, 3)}, [Q(0), Q(1)], [Q(0), Q(1)], [])

  lemma FourthJoins()
    ensures Leads(STRANDED, JoinLabels(3), FOURTH_IN)
  {
    hide Leads;
    assert Tested(STRANDED.tab) == STRANDED.tab;
    Joins(STRANDED, 3, 2);
    var s := Joined(STRANDED, 3, 2);
    assert s.tab.wait == FOURTH_IN.tab.wait && s.queue == [3, 1];
    assert s == FOURTH_IN;
  }

  lemma FourthSends()
    ensures Leads(FOURTH_IN, SendLabels(3), FOURTH_MUXES)
  {
    hide Leads, SendLabels;
    Sends(FOURTH_IN, 3, FOURTH_MUXES);
  }

  lemma FourthReceives()
    ensures Leads(FOURTH_MUXES, [LockRead(3), Answer(Q(1)), Recv(3)], FOURTH_HOLDS)
  {
    hide Leads;
    ReceiveSteps(FOURTH_MUXES, 3, Q(1));
    assert FOURTH_MUXES.unanswered - {Q(1)} == {Reply(2, 3)} && FOURTH_MUXES.received + [Q(1)] == [Q(0), Q(1)];
    assert FOURTH_MUXES.calls[3].(pc := Got(Q(1))) == Call(Got(Q(1)), 2, None);
  }

  lemma FourthDispatches()
    ensures Leads(FOURTH_HOLDS, [Dispatch(3)], RESCUED)
  {
    DispatchStep(FOURTH_HOLDS, 3, 1);
    hide Next, Enabled;
    assert FOURTH_HOLDS.queue[1..] == [1];
    assert Without(FOURTH_HOLDS.queue, 1) == [3];
    var s := Next(FOURTH_HOLDS, Dispatch(3));
    assert s.delivered == [Q(0), Q(1)] && s.calls == RESCUED.calls;
  }

  function RescueLabels(): seq<Label> {
    (JoinLabels(3) + SendLabels(3)) + ([LockRead(3), Answer(Q(1)), Recv(3)] + [Dispatch(3)])
  }

  /** A new call takes over and hands the sleeper its answer: no wake-up in this is spurious. */
  lemma NewCallWakesSleeper()
    ensures Leads(STRANDED, RescueLabels(), RESCUED)
    ensures forall l :: l in RescueLabels() ==> !l.Spurious?
    ensures PcOf(RESCUED, 1).Woken? && RESCUED.calls[1].p == Some(Q(1))
  {
    FourthJoins();
    FourthSends();
    FourthReceives();
    FourthDispatches();
    hide Leads;
    LeadsOn(STRANDED, JoinLabels(3), FOURTH_IN, SendLabels(3), FOURTH_MUXES);
    LeadsOn(FOURTH_MUXES, [LockRead(3), Answer(Q(1)), Recv(3)], FOURTH_HOLDS, [Dispatch(3)], RESCUED);
    LeadsOn(STRANDED, JoinLabels(3) + SendLabels(3), FOURTH_MUXES,
            [LockRead(3), Answer(Q(1)), Recv(3)] + [Dispatch(3)], RESCUED);
  }

  // recvmsg throws in call 0, the muxer, while call 1 sleeps.

  const CALLS_THREW: map<CallId, Call> := SLEEPING[0 := Call(RecvThrew, 0, None)]
  const UNWOUND: State := Mounted(TWO_TAB, [1, 0], Some(0), None, CALLS_THREW, {Q(0), Q(1)}, [], [], [])

  lemma Unwinds()
    ensures Leads(ONE_SLEEPS, [LockRead(0), RecvThrow(0)], UNWOUND)
  {
    var s1 := Next(ONE_SLEEPS, LockRead(0));
    assert Next(s1, RecvThrow(0)).calls == UNWOUND.calls;
    assert Leads(s1, [RecvThrow(0)], UNWOUND);
  }

  /**
   The muxer is unwound: call 1 sleeps, and from here on not even a new call brings it its
   answer (MuxWake.NobodyReceivesAgain).
   */
  lemma ThrownReceiveStrandsSleeper() returns (states: seq<State>, labels: seq<Label>)
    ensures GenuineRun(states, labels) && states[|labels|] == UNWOUND
    ensures 1 in UNWOUND.calls && PcOf(UNWOUND, 1).Asleep? && UNWOUND.calls[1].p.None? && !UNWOUND.crashed
    ensures Lost(UNWOUND) && Dormant(UNWOUND)
  {
    TwoJoin();
    Unwinds();
    hide Leads, AllGenuine, TwoIn, Run;
    StartsRun();
    states := LeadsToRun([], [INIT], TwoIn(), ONE_SLEEPS);
    assert [] + TwoIn() == TwoIn();
    states := LeadsToRun(TwoIn(), states, [LockRead(0), RecvThrow(0)], UNWOUND);
    labels := TwoIn() + [LockRead(0), RecvThrow(0)];
    ThrowIsGenuine();
    GenuineJoin(TwoIn(), [LockRead(0), RecvThrow(0)]);
    GenuineMeans(labels);
  }

  lemma ThrowIsGenuine()
    ensures AllGenuine([LockRead(0), RecvThrow(0)])
  {
  }

  // The answer to call 1 does not unpack.  Call 0, the muxer, gives up; call 1 is elected; and
  // call 2 gets the tag of call 0, whose answer is still to come.

  const CALLS_FAILED: map<CallId, Call> := SLEEPING[0 := Call(RecvFailed, 0, None)]
  const FAILED: State := Mounted(TWO_TAB, [1, 0], Some(0), None, CALLS_FAILED, {Q(0)}, [], [], [Q(1)])

  const CALLS_GAVE_UP: map<CallId, Call> := CALLS_FAILED[0 := Call(GivingUp, 0, None)]
  const GAVE_UP: State := Mounted(TWO_TAB, [1], Some(0), Some(0), CALLS_GAVE_UP, {Q(0)}, [], [], [Q(1)])

  const CALLS_QUITTING: map<CallId, Call> := CALLS_GAVE_UP[1 := Call(Woken, 1, None)][0 := Call(Leaving, 0, None)]
  const QUITTING: State := Mounted(TWO_TAB, [1], Some(1), Some(0), CALLS_QUITTING, {Q(0)}, [], [], [Q(1)])

  const CALLS_QUIT: map<CallId, Call> := CALLS_QUITTING[0 := Call(Done(None), 0, None)]
  const QUIT_TAB: Table<CallId> := Table(1, 2, 0, [EMPTY, Some(1)])
  const QUIT: State := Mounted(QUIT_TAB, [1], Some(1), None, CALLS_QUIT, {Q(0)}, [], [], [Q(1)])

  const CALLS_AGAIN: map<CallId, Call> := CALLS_QUIT[1 := Call(Receiving, 1, None)]
  const MUXES_AGAIN: State := Mounted(QUIT_TAB, [1], Some(1), None, CALLS_AGAIN, {Q(0)}, [], [], [Q(1)])

  const CALLS_SECOND: map<CallId, Call> := CALLS_AGAIN[2 := Call(Sending, 0, None)]
  const REUSE_TAB: Table<CallId> := Table(2, 2, 0, [Some(2), Some(1)])
  const SECOND_USE: State := Mounted(REUSE_TAB, [2, 1], Some(1), None, CALLS_SECOND, {Q(0)}, [], [], [Q(1)])

  const CALLS_REUSED: map<CallId, Call> := CALLS_SECOND[2 := Call(Asleep, 0, None)]
  const REUSED: State := Mounted(REUSE_TAB, [2, 1], Some(1), None, CALLS_REUSED, {Q(0), Reply(0, 2)}, [], [], [Q(1)])

  const CALLS_WRONG: map<CallId, Call> := CALLS_REUSED[1 := Call(Got(Q(0)), 1, None)]
  const WRONG_IN_HAND: State :=
    Mounted(REUSE_TAB, [2, 1], Some(1), None, CALLS_WRONG, {Reply(0, 2)}, [Q(0)], [], [Q(1)])

  const CALLS_HANDED: map<CallId, Call> :=
    CALLS_WRONG[1 := Call(MuxLoop, 1, None)][2 := Call(Woken, 0, Some(Q(0)))]
  const HANDED_WRONG: State :=
    Mounted(REUSE_TAB, [1], Some(1), Some(1), CALLS_HANDED, {Reply(0, 2)}, [Q(0)], [Q(0)], [Q(1)])

  const CALLS_MISTAKEN: map<CallId, Call> := CALLS_HANDED[1 := Call(Receiving, 1, None)]
  const MISTAKEN: State :=
    Mounted(REUSE_TAB, [1], Some(1), None, CALLS_MISTAKEN, {Reply(0, 2)}, [Q(0)], [Q(0)], [Q(1)])

  const CALLS_AWAKE: map<CallId, Call> := CALLS_MISTAKEN[2 := Call(Leaving, 0, Some(Q(0)))]
  const AWAKE: State :=
    Mounted(REUSE_TAB, [1], Some(1), Some(2), CALLS_AWAKE, {Reply(0, 2)}, [Q(0)], [Q(0)], [Q(1)])

  const CALLS_RETURNED: map<CallId, Call> := CALLS_AWAKE[2 := Call(Done(Some(Q(0))), 0, Some(Q(0)))]
  const RETURNED: State :=
    Mounted(QUIT_TAB, [1], Some(1), None, CALLS_RETURNED, {Reply(0, 2)}, [Q(0)], [Q(0)], [Q(1)])

  function FailLabels(): seq<Label> { [LockRead(0), Answer(Q(1)), RecvFail(0)] }

  function QuitLabels(): seq<Label> { [PassBuck(0), Elect(0), Leave(0, None)] }

  lemma FailsToReceive()
    ensures Leads(ONE_SLEEPS, FailLabels(), FAILED)
  {
    hide Leads;
    ReceiveSteps(ONE_SLEEPS, 0, Q(1));
    assert ONE_SLEEPS.unanswered - {Q(1)} == {Q(0)} && ONE_SLEEPS.lost + [Q(1)] == [Q(1)];
    assert ONE_SLEEPS.calls[0].(pc := RecvFailed) == Call(RecvFailed, 0, None);
  }

  lemma Quits()
    ensures Leads(FAILED, QuitLabels(), QUIT)
  {
    assert FAILED.queue[1..] == [0];
    assert Without(FAILED.queue, 0) == [1];
    PassBuckStep(FAILED, 0);
    ElectStep(GAVE_UP, 0, 1);
    QuitterReturns();
    hide Next, Enabled, Leads;
    Leads3(FAILED, PassBuck(0), Elect(0), Leave(0, None));
  }

  lemma QuitterReturns()
    ensures Enabled(QUITTING, Leave(0, None)) && Next(QUITTING, Leave(0, None)) == QUIT
  {
    LeaveStep(QUITTING, 0);
    hide Next, Enabled;
    assert Release(QUITTING.tab, 0).wait == QUIT.tab.wait;
  }

  lemma MuxesAgain()
    ensures Leads(QUIT, [LockForMux(1), TestMux(1)], MUXES_AGAIN)
  {
    hide Leads;
    WakeSteps(QUIT, 1);
  }

  lemma TagTaken()
    ensures Leads(MUXES_AGAIN, JoinLabels(2), SECOND_USE)
  {
    hide Leads;
    Joins(MUXES_AGAIN, 2, 0);
    var s := Joined(MUXES_AGAIN, 2, 0);
    assert s.tab.wait == SECOND_USE.tab.wait && s.queue == [2, 1];
    assert s == SECOND_USE;
  }

  lemma TagReused()
    ensures Leads(MUXES_AGAIN, JoinLabels(2) + SendLabels(2), REUSED)
  {
    hide Leads;
    TagTaken();
    Sends(SECOND_USE, 2, REUSED);
    LeadsOn(MUXES_AGAIN, JoinLabels(2), SECOND_USE, SendLabels(2), REUSED);
  }

  function MistakeLabels(): seq<Label> {
    [LockRead(1), Answer(Q(0)), Recv(1)] + [Dispatch(1), TestReply(1)]
  }

  lemma Misdelivers()
    ensures Leads(REUSED, MistakeLabels(), MISTAKEN)
  {
    hide Leads;
    ReceiveSteps(REUSED, 1, Q(0));
    assert REUSED.unanswered - {Q(0)} == {Reply(0, 2)} && REUSED.received + [Q(0)] == [Q(0)];
    assert REUSED.calls[1].(pc := Got(Q(0))) == Call(Got(Q(0)), 1, None);
    DispatchesWrongly();
    LeadsOn(REUSED, [LockRead(1), Answer(Q(0)), Recv(1)], WRONG_IN_HAND, [Dispatch(1), TestReply(1)], MISTAKEN);
  }

  lemma DispatchesWrongly()
    ensures Leads(WRONG_IN_HAND, [Dispatch(1), TestReply(1)], MISTAKEN)
  {
    DispatchStep(WRONG_IN_HAND, 1, 2);
    GoesOn();
    hide Next, Enabled;
    var s1 := Next(WRONG_IN_HAND, Dispatch(1));
    assert s1.queue == [1] && s1.calls == HANDED_WRONG.calls;
    assert s1 == HANDED_WRONG;
    assert Leads(s1, [TestReply(1)], MISTAKEN);
  }

  lemma GoesOn()
    ensures Enabled(HANDED_WRONG, TestReply(1)) && Next(HANDED_WRONG, TestReply(1)) == MISTAKEN
  {
  }

  lemma WakesUp()
    ensures Leads(MISTAKEN, [LockForMux(2), TestMux(2)], AWAKE)
  {
    hide Leads;
    WakeSteps(MISTAKEN, 2);
  }

  lemma ReturnsWrongly()
    ensures Leads(AWAKE, [Leave(2, None)], RETURNED)
  {
    LeaveStep(AWAKE, 2);
    hide Next, Enabled;
    var s3 := Next(AWAKE, Leave(2, None));
    assert s3.tab.wait == RETURNED.tab.wait && s3.calls == RETURNED.calls;
  }

  function ReuseLabels(): seq<Label> {
    [LockForMux(1), TestMux(1)] + (JoinLabels(2) + SendLabels(2))
  }

  lemma TagGoesOn()
    ensures Leads(ONE_SLEEPS, FailLabels() + QuitLabels() + ReuseLabels(), REUSED)
    ensures AllGenuine(FailLabels() + QuitLabels() + ReuseLabels())
  {
    FailsToReceive();
    Quits();
    MuxesAgain();
    TagReused();
    hide Leads;
    LeadsOn(QUIT, [LockForMux(1), TestMux(1)], MUXES_AGAIN, JoinLabels(2) + SendLabels(2), REUSED);
    LeadsOn(ONE_SLEEPS, FailLabels(), FAILED, QuitLabels(), QUIT);
    LeadsOn(ONE_SLEEPS, FailLabels() + QuitLabels(), QUIT, ReuseLabels(), REUSED);
  }

  function WrongLabels(): seq<Label> {
    MistakeLabels() + ([LockForMux(2), TestMux(2)] + [Leave(2, None)])
  }

  lemma AnswerGoesAstray()
    ensures Leads(REUSED, WrongLabels(), RETURNED) && AllGenuine(WrongLabels())
  {
    Misdelivers();
    WakesUp();
    ReturnsWrongly();
    hide Leads;
    LeadsOn(MISTAKEN, [LockForMux(2), TestMux(2)], AWAKE, [Leave(2, None)], RETURNED);
    LeadsOn(REUSED, MistakeLabels(), MISTAKEN, [LockForMux(2), TestMux(2)] + [Leave(2, None)], RETURNED);
  }

  function TwoIn(): seq<Label> {
    ([Mount] + JoinLabels(0) + SendLabels(0)) + (JoinLabels(1) + SendLabels(1))
  }

  lemma TwoJoin()
    ensures Leads(INIT, TwoIn(), ONE_SLEEPS) && AllGenuine(TwoIn())
  {
    OneMuxes();
    OneSleeps();
    hide Leads;
    LeadsOn(INIT, [Mount] + JoinLabels(0) + SendLabels(0), ONE_MUXES, JoinLabels(1) + SendLabels(1), ONE_SLEEPS);
  }

  /**
   Against a genuine server: after one message that does not unpack, a call returns the
   answer to another call's request.
   */
  lemma FailedReceiveMisdelivers() returns (states: seq<State>, labels: seq<Label>)
    ensures GenuineRun(states, labels)
    ensures var s := states[|labels|];
            !s.crashed && 2 in s.calls && PcOf(s, 2) == Done(Some(Q(0))) && Q(0).call != 2
  {
    TwoJoin();
    TagGoesOn();
    AnswerGoesAstray();
    hide Leads, AllGenuine, TwoIn, FailLabels, QuitLabels, ReuseLabels, WrongLabels, Run;
    var l2 := FailLabels() + QuitLabels() + ReuseLabels();
    StartsRun();
    states := LeadsToRun([], [INIT], TwoIn(), ONE_SLEEPS);
    assert [] + TwoIn() == TwoIn();
    states := LeadsToRun(TwoIn(), states, l2, REUSED);
    states := LeadsToRun(TwoIn() + l2, states, WrongLabels(), RETURNED);
    labels := TwoIn() + l2 + WrongLabels();
    GenuineJoin(TwoIn(), l2);
    GenuineJoin(TwoIn() + l2, WrongLabels());
    GenuineMeans(labels);
  }

  lemma StartsRun()
    ensures Run([INIT], [])
  {
  }

  lemma GenuineJoin(a: seq<Label>, b: seq<Label>)
    requires AllGenuine(a) && AllGenuine(b)
    ensures AllGenuine(a + b)
  {
  }

  lemma GenuineMeans(labels: seq<Label>)
    requires AllGenuine(labels)
    ensures forall i :: 0 <= i < |labels| ==> Genuine(labels[i])
  {
  }
}
