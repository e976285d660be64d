/**
 Every call returns.  Once no new call begins and no thread wakes spuriously, each step
 uses up part of a finite budget, and while a call is unfinished some step is enabled:
 so every way of continuing stops, and stops only when all calls have returned.
 */
module MuxLive {
  import opened Options
  import opened TagTable
  import opened WaitQueue
  import opened MuxModel
  import opened MuxSafety
  import opened MuxReplies
  import opened MuxWake

  /** The most a call can still spend; a notify_one gives its sleeper 2, paid by the notifier. */
  function Budget(pc: Pc): nat {
    match pc
    case Start => 30
    case TagWoken => 30
    case TagTest(_) => 29
    case TagAsleep => 28
    case TagScan(_) => 27
    case Tagged => 26
    case Sending => 25
    case Packing => 24
    case WantMux => 10
    case Woken => 10
    case MuxTest => 9
    case Asleep => 8
    case Receiving => 8
    case Reading => 7
    case Got(_) => 13
    case MuxLoop => 9
    case Leaving => 4
    case GivingUp => 7
    case RecvFailed => 8
    case PackFailed => 5
    case Dropping => 4
    case Dropped => 1
    case Done(_) => 0
    case SendFailed => 0
    case SendThrew => 0
    case RecvThrew => 0
  }

  ghost function CallsBudget(calls: map<CallId, Call>): nat
    decreases |calls|
  {
    if calls == map[] then 0
    else
      var c :| c in calls;
      Shrinks(calls, c);
      Budget(calls[c].pc) + CallsBudget(calls - {c})
  }

  lemma Shrinks(calls: map<CallId, Call>, c: CallId)
    requires c in calls
    ensures |calls - {c}| < |calls|
  {
    assert (calls - {c}).Keys == calls.Keys - {c};
  }

  /** A request with the server is worth 8, a reply on the wire 7. */
  ghost function TotalBudget(s: State): nat {
    CallsBudget(s.calls) + 8 * |s.unanswered| + 7 * |s.net|
  }

  lemma {:induction false} BudgetWithout(calls: map<CallId, Call>, c: CallId)
    requires c in calls
    ensures CallsBudget(calls) == Budget(calls[c].pc) + CallsBudget(calls - {c})
    decreases |calls|
  {
    var d :| d in calls && CallsBudget(calls) == Budget(calls[d].pc) + CallsBudget(calls - {d});
    if d != c {
      Shrinks(calls, d);
      Shrinks(calls, c);
      BudgetWithout(calls - {d}, c);
      BudgetWithout(calls - {c}, d);
      assert calls - {d} - {c} == calls - {c} - {d};
    }
  }

  lemma BudgetUpdate(calls: map<CallId, Call>, c: CallId, k: Call)
    requires c in calls
    ensures CallsBudget(calls[c := k]) + Budget(calls[c].pc) == CallsBudget(calls) + Budget(k.pc)
  {
    BudgetWithout(calls, c);
    BudgetWithout(calls[c := k], c);
    assert calls[c := k] - {c} == calls - {c};
  }

  lemma NotifyBudget(s: State, c: CallId)
    ensures CallsBudget(s.calls) <= CallsBudget(Notify(s, c).calls) <= CallsBudget(s.calls) + 2
  {
    if c in s.calls && PcOf(s, c).Asleep? {
      BudgetUpdate(s.calls, c, s.calls[c].(pc := Woken));
    }
  }

  lemma NotifyTagBudget(s: State, w: Option<CallId>)
    requires MayWake(s, w)
    ensures CallsBudget(NotifyTag(s, w).calls) <= CallsBudget(s.calls) + 2
  {
    if w.Some? {
      BudgetUpdate(s.calls, w.value, s.calls[w.value].(pc := TagWoken));
    }
  }

  /** One call moves to a cheaper place; requests and replies stay as many. */
  lemma MoveSpends(s: State, s': State, c: CallId, k: Call)
    requires c in s.calls && s'.calls == s.calls[c := k] && Budget(k.pc) < Budget(PcOf(s, c))
    requires s'.unanswered == s.unanswered && s'.net == s.net
    ensures TotalBudget(s') < TotalBudget(s)
  {
    BudgetUpdate(s.calls, c, k);
  }

  lemma AloneSpends(s: State, l: Label)
    requires Enabled(s, l) && Alone(l) && Useful(l) && !l.Send? && !l.Recv? && !Next(s, l).crashed
    ensures TotalBudget(Next(s, l)) < TotalBudget(s)
  {
    hide Enabled, Next, TotalBudget, Budget;
    AloneMoves(s, l);
    if MovesOneCall(l) {
      MovesCheaper(s, l);
    } else {
      WorksCheaper(s, l);
    }
    MoveSpends(s, Next(s, l), l.c, Next(s, l).calls[l.c]);
  }

  lemma TagsCheaper(s: State, l: Label)
    requires Enabled(s, l) && (l.TestTags? || l.TakeTag? || l.Enqueue?) && !Next(s, l).crashed
    requires l.c in s.calls && l.c in Next(s, l).calls
    ensures var s' := Next(s, l);
            Budget(PcOf(s', l.c)) < Budget(PcOf(s, l.c)) && s'.unanswered == s.unanswered && s'.net == s.net
  {
    hide Scan, Grow, Take;
  }

  lemma MovesCheaper(s: State, l: Label)
    requires Enabled(s, l) && MovesOneCall(l) && Useful(l) && !l.Send? && !l.Recv?
    requires l.c in s.calls && l.c in Next(s, l).calls
    ensures var s' := Next(s, l);
            Budget(PcOf(s', l.c)) < Budget(PcOf(s, l.c)) && s'.unanswered == s.unanswered && s'.net == s.net
  {
  }

  lemma WorksCheaper(s: State, l: Label)
    requires Enabled(s, l) && Alone(l) && !MovesOneCall(l) && !Next(s, l).crashed
    requires l.c in s.calls && l.c in Next(s, l).calls
    ensures var s' := Next(s, l);
            Budget(PcOf(s', l.c)) < Budget(PcOf(s, l.c)) && s'.unanswered == s.unanswered && s'.net == s.net
  {
    if l.TestTags? || l.TakeTag? || l.Enqueue? {
      TagsCheaper(s, l);
    } else {
      hide Without, MuxerLive, TestTagsNext, TakeTagNext, EnqueueNext;
    }
  }

  lemma PutTagSpends(s: State, l: Label)
    requires Enabled(s, l) && (l.DropTag? || l.Leave?) && !Next(s, l).crashed
    ensures TotalBudget(Next(s, l)) < TotalBudget(s)
  {
    hide Release, CallsBudget;
    var s1 := NotifyTag(s, l.woken);
    NotifyTagBudget(s, l.woken);
    var k := s.calls[l.c].(pc := LeftPc(s, l));
    PutTagMoves(s, l, k);
    BudgetUpdate(s1.calls, l.c, k);
  }

  lemma PutTagMoves(s: State, l: Label, k: Call)
    requires Enabled(s, l) && (l.DropTag? || l.Leave?) && !Next(s, l).crashed
    requires k == s.calls[l.c].(pc := LeftPc(s, l))
    ensures MayWake(s, l.woken) && Budget(PcOf(s, l.c)) == 4 && Budget(k.pc) <= 1
    ensures var s1, s' := NotifyTag(s, l.woken), Next(s, l);
            && l.c in s1.calls && s1.calls[l.c] == s.calls[l.c]
            && s'.calls == s1.calls[l.c := k] && s'.unanswered == s.unanswered && s'.net == s.net
  {
    PutTagLabel(s, l);
    hide Enabled, Next, MayWake, Release, OwnsSlot, PutTag, PutTagNext, NotifyTag;
    OwnsUnlessThrown(s, l);
    TagWakeElsewhere(s, l.c, l.woken);
    TagWakeTraffic(s, l.woken);
    PutTagShape(s, l.c, l.woken, LeftWlk(s, l), LeftPc(s, l));
  }

  lemma TagWakeTraffic(s: State, w: Option<CallId>)
    ensures NotifyTag(s, w).unanswered == s.unanswered && NotifyTag(s, w).net == s.net
  {
  }

  lemma OwnsUnlessThrown(s: State, l: Label)
    requires Enabled(s, l) && (l.DropTag? || l.Leave?) && !Next(s, l).crashed
    ensures OwnsSlot(s, l.c)
  {
    hide Release, NotifyTag, OwnsSlot;
  }

  lemma ElectSpends(s: State, c: CallId)
    requires Enabled(s, Elect(c))
    ensures TotalBudget(Next(s, Elect(c))) < TotalBudget(s)
  {
    var s1 := if s.queue == [] then s else Notify(s, s.queue[0]);
    assert Budget(PcOf(s, c)) >= 7 && Budget(Leaving) == 4;
    hide Budget;
    if s.queue != [] {
      NotifyBudget(s, s.queue[0]);
    }
    BudgetUpdate(s1.calls, c, Next(s, Elect(c)).calls[c]);
  }

  lemma SendSpends(s: State, c: CallId)
    requires Enabled(s, Send(c))
    ensures TotalBudget(Next(s, Send(c))) < TotalBudget(s)
  {
    BudgetUpdate(s.calls, c, s.calls[c].(pc := WantMux));
  }

  lemma RecvSpends(s: State, c: CallId)
    requires Enabled(s, Recv(c))
    ensures TotalBudget(Next(s, Recv(c))) < TotalBudget(s)
  {
    BudgetUpdate(s.calls, c, s.calls[c].(pc := Got(s.net[0])));
  }

  lemma DispatchSpends(s: State, c: CallId)
    requires Enabled(s, Dispatch(c)) && !Next(s, Dispatch(c)).crashed
    ensures TotalBudget(Next(s, Dispatch(c))) < TotalBudget(s)
  {
    var r := DispatchGives(s, c);
    LoopBudget(s, c);
    var s1 := Go(s.(lk := Some(c)), c, MuxLoop);
    hide Next, TotalBudget, GiveReply, Notify, Go;
    NotifyTotal(s1, r);
    GiveTotal(Notify(s1, r), r, PcOf(s, c).reply);
  }

  lemma LoopBudget(s: State, c: CallId)
    requires c in s.calls && PcOf(s, c).Got?
    ensures TotalBudget(Go(s.(lk := Some(c)), c, MuxLoop)) + 4 == TotalBudget(s)
  {
    BudgetUpdate(s.calls, c, s.calls[c].(pc := MuxLoop));
  }

  lemma NotifyTotal(s: State, c: CallId)
    ensures TotalBudget(Notify(s, c)) <= TotalBudget(s) + 2
  {
    NotifyBudget(s, c);
    hide CallsBudget;
  }

  lemma GiveTotal(s: State, r: CallId, f: Reply)
    requires r in s.calls
    ensures TotalBudget(GiveReply(s, r, f)) == TotalBudget(s)
  {
    hide CallsBudget, Without;
    BudgetUpdate(s.calls, r, s.calls[r].(p := Some(f)));
  }

  lemma DispatchGives(s: State, c: CallId) returns (r: CallId)
    requires Enabled(s, Dispatch(c)) && !Next(s, Dispatch(c)).crashed
    ensures var s2 := Notify(Go(s.(lk := Some(c)), c, MuxLoop), r);
            r in s2.calls && Next(s, Dispatch(c)) == GiveReply(s2, r, PcOf(s, c).reply)
  {
    hide GiveReply;
    r := s.tab.wait[Slot(s, PcOf(s, c).reply.tag)].value;
  }

  lemma StepSpends(s: State, l: Label)
    requires Enabled(s, l) && Useful(l) && !Next(s, l).crashed
    ensures TotalBudget(Next(s, l)) < TotalBudget(s)
  {
    hide TotalBudget, Next;
    match l
    case DropTag(c, w) => PutTagSpends(s, l);
    case Leave(c, w) => PutTagSpends(s, l);
    case Elect(c) => ElectSpends(s, c);
    case Send(c) => SendSpends(s, c);
    case Recv(c) => RecvSpends(s, c);
    case Dispatch(c) => DispatchSpends(s, c);
    case Answer(q) => AnswerSpends(s, q);
    case _ => AloneSpends(s, l);
  }

  lemma AnswerSpends(s: State, q: Reply)
    requires Enabled(s, Answer(q))
    ensures TotalBudget(Next(s, Answer(q))) < TotalBudget(s)
  {
    assert s.unanswered == (s.unanswered - {q}) + {q};
  }

  // ----- theorem over whole runs

  /** A failed pack, or a throw of sendmsg or recvmsg. */
  predicate Mishap(l: Label) { l.PackFail? || l.SendThrow? || l.RecvThrow? }

  lemma MishapSpends(s: State, l: Label)
    requires Enabled(s, l) && Mishap(l)
    ensures !Next(s, l).crashed && TotalBudget(Next(s, l)) < TotalBudget(s)
  {
    hide TotalBudget;
    MoveSpends(s, Next(s, l), l.c, Next(s, l).calls[l.c]);
  }

  lemma {:induction false} RunSpends(states: seq<State>, labels: seq<Label>, i: nat, j: nat)
    requires HonestRun(states, labels) && i <= j < |states|
    requires forall k :: i <= k < j ==> Useful(labels[k]) || Mishap(labels[k])
    ensures TotalBudget(states[j]) + (j - i) <= TotalBudget(states[i])
    decreases j
  {
    hide Enabled, Next, TotalBudget, Useful, Mishap, Honest, Inv, ReplyInv, AllOwed, Unbroken;
    if i < j {
      RunSpends(states, labels, i, j - 1);
      HonestRunKeeps(states, labels, j);
      assert Follows(states, labels, j - 1);
      if Useful(labels[j - 1]) {
        StepSpends(states[j - 1], labels[j - 1]);
      } else {
        MishapSpends(states[j - 1], labels[j - 1]);
      }
    }
  }

  /**
   From any state of a run against an honest server in which nobody is stranded, with no
   further calls begun and no spurious wake-ups, only so many steps can follow, failed
   packs and throws included.  When no step is left, every call has returned the reply to
   its own request, or failed to pack, or was unwound by a throw, or waits for a tag while
   the calls that have them all were unwound.
   */
  lemma EveryCallReturns(states: seq<State>, labels: seq<Label>, i: nat)
    requires HonestRun(states, labels) && CleanRun(states, labels) && i < |states|
    requires forall k :: i <= k < |labels| ==> Useful(labels[k]) || Mishap(labels[k])
    ensures |labels| - i <= TotalBudget(states[i])
    ensures var s := states[|labels|];
            (forall l :: Useful(l) ==> !Enabled(s, l)) ==>
              forall c :: c in s.calls ==>
                || PcOf(s, c) == Done(Some(Reply(U16(s.calls[c].tag), c))) || PcOf(s, c).SendFailed?
                || Threw(PcOf(s, c)) || (PcOf(s, c).TagAsleep? && SlotsLost(s))
  {
    hide Inv, Enabled, Useful, SlotsLost, Strands, TotalBudget;
    RunSpends(states, labels, i, |labels|);
    var s := states[|labels|];
    forall c | c in s.calls && forall l :: Useful(l) ==> !Enabled(s, l)
      ensures || PcOf(s, c) == Done(Some(Reply(U16(s.calls[c].tag), c))) || PcOf(s, c).SendFailed?
              || Threw(PcOf(s, c)) || (PcOf(s, c).TagAsleep? && SlotsLost(s))
    {
      if !OutOfReach(s, c) {
        var l := NoDeadlock(states, labels, |labels|, c);
      } else if PcOf(s, c).Done? {
        ReturnsOwnReply(states, labels, |labels|, c);
      }
    }
  }
}
