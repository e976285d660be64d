/**
 The heap code refines the step relation.  Where a client's heap mirrors a state, each
 operation of MuxHeap leaves it mirroring the state after the corresponding step, and
 throws exactly when that step does; so the heap code can follow any run from the start.
 */
module MuxRefines {
  import opened Options
  import opened TagTable
  import opened WaitQueue
  import opened MuxModel
  import opened MuxSafety
  import H = MuxHeap

  type Names = map<H.Rpc, CallId>

  predicate Injective(id: Names) {
    forall r, r' :: r in id && r' in id && id[r] == id[r'] ==> r == r'
  }

  function NamedSlot(v: Option<H.Rpc>, id: Names): Option<CallId>
    requires v.Some? ==> v.value in id
  {
    if v.None? then None else Some(id[v.value])
  }

  predicate SlotsNamed(wait: seq<Option<H.Rpc>>, id: Names) {
    forall i :: 0 <= i < |wait| && wait[i].Some? ==> wait[i].value in id
  }

  function NamedTable(t: Table<H.Rpc>, id: Names): Table<CallId>
    requires SlotsNamed(t.wait, id)
  {
    Table(t.nwait, t.mwait, t.freetag, seq(|t.wait|, i requires 0 <= i < |t.wait| => NamedSlot(t.wait[i], id)))
  }

  function NamedQueue(q: seq<H.Rpc>, id: Names): seq<CallId>
    requires forall r :: r in q ==> r in id
  {
    seq(|q|, i requires 0 <= i < |q| => id[q[i]])
  }

  /** What a call's node holds. */
  datatype Node = Node(tag: nat, p: Option<H.Message>, expired: bool, async: bool)

  ghost function NodeOf(r: H.Rpc): Node
    reads r`tag, r`p, r`expired, r`async
  {
    Node(r.tag, r.p, r.expired, r.async)
  }

  ghost function Nodes(id: Names): (m: map<H.Rpc, Node>)
    reads id.Keys`tag, id.Keys`p, id.Keys`expired, id.Keys`async
    ensures m.Keys == id.Keys
  {
    map r | r in id :: NodeOf(r)
  }

  /** Tag and reply of one call agree; its Rpc has died exactly if the call has ended. */
  predicate SameCall(n: Node, k: Call) {
    && (HasSlot(k.pc) ==> k.tag == n.tag)
    && (k.p.Some? <==> n.p.Some?)
    && (k.p.Some? ==> k.p.value.tag == n.p.value.tag)
    && (n.expired <==> Ended(k.pc))
    && !n.async
  }

  ghost predicate Agree(calls: map<CallId, Call>, nodes: map<H.Rpc, Node>, id: Names) {
    nodes.Keys == id.Keys && forall r :: r in id ==> id[r] in calls && SameCall(nodes[r], calls[id[r]])
  }

  /** The fields of a client. */
  datatype Fields = Fields(tab: Table<H.Rpc>, q: seq<H.Rpc>, muxer: H.Rpc?, bounds: Bounds)

  ghost function FieldsOf(h: H.Client): Fields
    reads h
  {
    Fields(h.Tab(), h.q, h.muxer, Bounds(h.mintag, h.maxtag))
  }

  /** The table, the queue, the muxer and the bounds under their names. */
  ghost predicate SharedIs(s: State, f: Fields, id: Names) {
    && SlotsNamed(f.tab.wait, id) && (forall r :: r in f.q ==> r in id) && (f.muxer != null ==> f.muxer in id)
    && s.tab == NamedTable(f.tab, id)
    && s.queue == NamedQueue(f.q, id)
    && s.bounds == f.bounds
    && s.muxer == (if f.muxer == null then None else Some(id[f.muxer]))
  }

  ghost predicate Pictured(s: State, f: Fields, nodes: map<H.Rpc, Node>, id: Names) {
    Injective(id) && SharedIs(s, f, id) && Agree(s.calls, nodes, id)
  }

  ghost predicate Mirrors(h: H.Client, s: State, id: Names)
    reads h, id.Keys
  {
    id.Keys == h.calls && Pictured(s, FieldsOf(h), Nodes(id), id)
  }

  /** `s'` is the state after step `l`. */
  predicate Steps(s: State, l: Label, s': State) {
    Enabled(s, l) && s' == Next(s, l)
  }

  // ----- naming commutes with the operations

  lemma {:induction false} FirstFreeNamed(t: Table<H.Rpc>, id: Names, lo: nat, hi: nat)
    requires SlotsNamed(t.wait, id) && lo <= hi <= |t.wait|
    ensures FirstFree(NamedTable(t, id).wait, lo, hi) == FirstFree(t.wait, lo, hi)
    decreases hi - lo
  {
    if lo < hi {
      FirstFreeNamed(t, id, lo + 1, hi);
    }
  }

  lemma ScanNamed(t: Table<H.Rpc>, id: Names)
    requires SlotsNamed(t.wait, id) && |t.wait| == t.mwait && t.freetag < t.mwait
    ensures Scan(NamedTable(t, id)) == Scan(t)
  {
    FirstFreeNamed(t, id, t.freetag, t.mwait);
    FirstFreeNamed(t, id, 0, t.freetag);
  }

  lemma TestedNamed(t: Table<H.Rpc>, id: Names)
    requires SlotsNamed(t.wait, id)
    ensures SlotsNamed(Tested(t).wait, id) && Tested(NamedTable(t, id)) == NamedTable(Tested(t), id)
  {
    assert Tested(NamedTable(t, id)).wait == NamedTable(Tested(t), id).wait;
  }

  lemma TakeNamed(t: Table<H.Rpc>, id: Names, i: nat, r: H.Rpc)
    requires SlotsNamed(t.wait, id) && i < |t.wait| && r in id
    ensures SlotsNamed(Take(t, i, r).wait, id) && Take(NamedTable(t, id), i, id[r]) == NamedTable(Take(t, i, r), id)
  {
    assert Take(NamedTable(t, id), i, id[r]).wait == NamedTable(Take(t, i, r), id).wait;
  }

  lemma ReleaseNamed(t: Table<H.Rpc>, id: Names, i: nat)
    requires SlotsNamed(t.wait, id) && i < |t.wait| && t.nwait > 0
    ensures SlotsNamed(Release(t, i).wait, id) && Release(NamedTable(t, id), i) == NamedTable(Release(t, i), id)
  {
    assert Release(NamedTable(t, id), i).wait == NamedTable(Release(t, i), id).wait;
  }

  lemma {:induction false} WithoutNamed(q: seq<H.Rpc>, id: Names, r: H.Rpc)
    requires Injective(id) && r in id && forall x :: x in q ==> x in id
    ensures forall x :: x in Without(q, r) ==> x in id
    ensures Without(NamedQueue(q, id), id[r]) == NamedQueue(Without(q, r), id)
    ensures id[r] in NamedQueue(q, id) <==> r in q
  {
    if q != [] {
      assert q == [q[0]] + q[1..];
      assert NamedQueue(q, id)[1..] == NamedQueue(q[1..], id);
      assert NamedQueue(q, id) == [id[q[0]]] + NamedQueue(q[1..], id);
      WithoutNamed(q[1..], id, r);
      if q[0] != r {
        assert Without(NamedQueue(q, id), id[r]) == [id[q[0]]] + NamedQueue(Without(q[1..], r), id);
      }
    }
  }

  lemma NamedShape(t: Table<H.Rpc>, id: Names)
    requires SlotsNamed(t.wait, id)
    ensures var n := NamedTable(t, id);
            |n.wait| == |t.wait| && n.mwait == t.mwait && n.freetag == t.freetag && n.nwait == t.nwait
  {
  }

  // ----- calls on both sides

  /** Nothing about the calls of `a` that the heap mirrors has changed in `b`. */
  ghost predicate CallsKept(a: map<CallId, Call>, b: map<CallId, Call>) {
    forall x :: x in a ==>
      && x in b && a[x].tag == b[x].tag && a[x].p == b[x].p
      && (HasSlot(b[x].pc) ==> HasSlot(a[x].pc)) && Ended(b[x].pc) == Ended(a[x].pc)
  }

  lemma StillAgree(a: map<CallId, Call>, b: map<CallId, Call>, nodes: map<H.Rpc, Node>, id: Names)
    requires Agree(a, nodes, id) && CallsKept(a, b)
    ensures Agree(b, nodes, id)
  {
    hide HasSlot, Ended;
  }

  /** One call changes on both sides. */
  lemma OneAgrees(a: map<CallId, Call>, nodes: map<H.Rpc, Node>, id: Names, x: H.Rpc, k: Call, n: Node)
    requires Agree(a, nodes, id) && Injective(id) && x in id && SameCall(n, k)
    ensures Agree(a[id[x] := k], nodes[x := n], id)
  {
    hide SameCall;
  }

  lemma GoKeeps(s: State, c: CallId, pc: Pc)
    requires c in s.calls && (HasSlot(pc) ==> HasSlot(PcOf(s, c))) && Ended(pc) == Ended(PcOf(s, c))
    ensures CallsKept(s.calls, Go(s, c, pc).calls)
  {
    hide HasSlot, Ended;
  }

  lemma NoneKept(a: map<CallId, Call>)
    ensures CallsKept(a, a)
  {
  }

  lemma KeptOn(a: map<CallId, Call>, b: map<CallId, Call>, c: map<CallId, Call>)
    requires CallsKept(a, b) && CallsKept(b, c)
    ensures CallsKept(a, c)
  {
    hide HasSlot, Ended;
  }

  /** notify_one, on a rendezvous or on _tagrend. */
  lemma NotifyKept(s: State, c: CallId)
    ensures CallsKept(s.calls, Notify(s, c).calls)
  {
    if c in s.calls && PcOf(s, c).Asleep? {
      GoKeeps(s, c, Woken);
    } else {
      NoneKept(s.calls);
    }
  }

  lemma WokenKept(s: State, w: Option<CallId>)
    requires MayWake(s, w)
    ensures CallsKept(s.calls, NotifyTag(s, w).calls)
  {
    if w.Some? {
      GoKeeps(s, w.value, TagWoken);
    } else {
      NoneKept(s.calls);
    }
  }

  // ----- the steps on the values of the fields

  /** The steps that touch no field of the client. */
  predicate Quiet(l: Label) { MovesOneCall(l) || l.Answer? || l.Rogue? }

  lemma QuietSteps(s: State, l: Label, s': State, f: Fields, nodes: map<H.Rpc, Node>, id: Names)
    requires Pictured(s, f, nodes, id) && Steps(s, l, s') && Quiet(l)
    ensures !s'.crashed && Pictured(s', f, nodes, id)
  {
    QuietKeeps(s, l);
    hide Next, Enabled, CallsKept, NamedTable, NamedQueue, Injective;
    StillAgree(s.calls, s'.calls, nodes, id);
  }

  lemma QuietKeeps(s: State, l: Label)
    requires Enabled(s, l) && Quiet(l)
    ensures var s' := Next(s, l);
            && !s'.crashed && s'.tab == s.tab && s'.queue == s.queue && s'.muxer == s.muxer && s'.bounds == s.bounds
            && CallsKept(s.calls, s'.calls)
  {
    if l.Answer? || l.Rogue? {
      NoneKept(s.calls);
    } else {
      QuietGoes(s, l);
      QuietSlots(s, l);
      hide *;
      GoKeeps(s, l.c, PcOf(Next(s, l), l.c));
    }
  }

  lemma QuietGoes(s: State, l: Label)
    requires Enabled(s, l) && Quiet(l) && !l.Answer? && !l.Rogue?
    ensures l.c in s.calls && l.c in Next(s, l).calls
    ensures var s' := Next(s, l);
            && !s'.crashed && s'.tab == s.tab && s'.queue == s.queue && s'.muxer == s.muxer && s'.bounds == s.bounds
            && s'.calls == Go(s, l.c, PcOf(s', l.c)).calls
  {
  }

  lemma QuietSlots(s: State, l: Label)
    requires Enabled(s, l) && Quiet(l) && !l.Answer? && !l.Rogue?
    ensures l.c in s.calls && l.c in Next(s, l).calls
    ensures var pc := PcOf(Next(s, l), l.c);
            (HasSlot(pc) ==> HasSlot(PcOf(s, l.c))) && Ended(pc) == Ended(PcOf(s, l.c))
  {
    hide TestTagsNext, TakeTagNext, TestMuxNext, DispatchNext, DequeueNext, EnqueueNext, ElectMuxer, NobodyAwaitsTag;
  }

  lemma BeginSteps(s: State, c: CallId, s': State, f: Fields, nodes: map<H.Rpc, Node>, id: Names, r: H.Rpc)
    requires Pictured(s, f, nodes, id) && Steps(s, MuxModel.Begin(c), s') && r !in id
    ensures !s'.crashed && Pictured(s', f, nodes[r := Node(0, None, false, false)], id[r := c])
  {
    assert NamedTable(f.tab, id[r := c]).wait == NamedTable(f.tab, id).wait;
    assert NamedQueue(f.q, id[r := c]) == NamedQueue(f.q, id);
    hide NamedTable, NamedQueue;
    BeginAgrees(s.calls, c, nodes, id, r);
  }

  lemma BeginAgrees(a: map<CallId, Call>, c: CallId, nodes: map<H.Rpc, Node>, id: Names, r: H.Rpc)
    requires Agree(a, nodes, id) && Injective(id) && r !in id && c !in a
    ensures Injective(id[r := c])
    ensures Agree(a[c := Call(MuxModel.Start, 0, None)], nodes[r := Node(0, None, false, false)], id[r := c])
  {
  }

  /** Whether the loop test of gettag passes. */
  predicate HasRoom(f: Fields) { f.tab.nwait != f.tab.mwait || f.tab.mwait < f.bounds.maxtag - f.bounds.mintag }

  lemma TestTagsSteps(s: State, c: CallId, s': State, f: Fields, nodes: map<H.Rpc, Node>, id: Names)
    requires Pictured(s, f, nodes, id) && Steps(s, MuxModel.TestTags(c), s')
    ensures !s'.crashed && c in s'.calls && (if HasRoom(f) then PcOf(s', c).TagScan? else PcOf(s', c).TagAsleep?)
    ensures Pictured(s', if HasRoom(f) then f.(tab := Tested(f.tab)) else f, nodes, id)
  {
    NamedShape(f.tab, id);
    TestedNamed(f.tab, id);
    TestTagsSpelled(s, c);
    hide NamedTable, NamedQueue, Injective, Next, Enabled, Tested, CallsKept;
    StillAgree(s.calls, s'.calls, nodes, id);
  }

  predicate RoomLeft(s: State) { s.tab.nwait != s.tab.mwait || s.tab.mwait < s.bounds.maxtag - s.bounds.mintag }

  lemma TestTagsSpelled(s: State, c: CallId)
    requires Enabled(s, MuxModel.TestTags(c))
    ensures var s' := Next(s, MuxModel.TestTags(c));
            && !s'.crashed && c in s'.calls && CallsKept(s.calls, s'.calls)
            && s'.queue == s.queue && s'.muxer == s.muxer && s'.bounds == s.bounds
            && (if RoomLeft(s) then PcOf(s', c).TagScan? && s'.tab == Tested(s.tab)
                else PcOf(s', c).TagAsleep? && s'.tab == s.tab)
  {
    hide CallsKept, Grow;
    GoKeeps(s, c, PcOf(Next(s, MuxModel.TestTags(c)), c));
  }

  predicate Scannable<T>(t: Table<T>) {
    |t.wait| == t.mwait && t.freetag < t.mwait && Scan(t).Some?
  }

  lemma TakeTagSteps(s: State, r: H.Rpc, s': State, f: Fields, nodes: map<H.Rpc, Node>, id: Names)
    requires Pictured(s, f, nodes, id) && r in id && Steps(s, MuxModel.TakeTag(id[r]), s')
    requires Scannable(f.tab)
    ensures var i := Scan(f.tab).value;
            && !s'.crashed && r in nodes
            && Pictured(s', f.(tab := Take(f.tab, i, r)), nodes[r := nodes[r].(tag := i + f.bounds.mintag)], id)
  {
    var i := Scan(f.tab).value;
    ScanNamed(f.tab, id);
    NamedShape(f.tab, id);
    TakeNamed(f.tab, id, i, r);
    var k := s.calls[id[r]].(pc := Tagged, tag := i + s.bounds.mintag);
    assert s' == s.(tab := Take(s.tab, i, id[r]), calls := s.calls[id[r] := k]);
    OneAgrees(s.calls, nodes, id, r, k, nodes[r].(tag := k.tag));
    hide NamedTable, NamedQueue, Injective, Next, Enabled, Take, Scan, Agree;
  }

  lemma EnqueueSteps(s: State, r: H.Rpc, s': State, f: Fields, nodes: map<H.Rpc, Node>, id: Names)
    requires Pictured(s, f, nodes, id) && r in id && Steps(s, MuxModel.Enqueue(id[r]), s')
    ensures !s'.crashed && Pictured(s', f.(q := [r] + f.q), nodes, id)
  {
    assert NamedQueue([r] + f.q, id) == [id[r]] + NamedQueue(f.q, id);
    hide NamedTable, NamedQueue, CallsKept, Injective, HasSlot, Ended, Agree;
    assert HasSlot(Tagged) && !Ended(Sending) && !Ended(Tagged);
    GoKeeps(s, id[r], Sending);
    StillAgree(s.calls, s'.calls, nodes, id);
  }

  predicate Dequeues(l: Label) { l.Drop? || l.PassBuck? }

  lemma DequeueSteps(s: State, l: Label, r: H.Rpc, s': State, f: Fields, nodes: map<H.Rpc, Node>, id: Names)
    requires Pictured(s, f, nodes, id) && r in id && Dequeues(l) && l.c == id[r] && Steps(s, l, s')
    ensures s'.crashed <==> r !in f.q
    ensures r in f.q ==> Pictured(s', f.(q := Without(f.q, r)), nodes, id)
  {
    WithoutNamed(f.q, id, r);
    DequeueSpelled(s, l);
    hide NamedTable, NamedQueue, Without, Injective, Next, Enabled, CallsKept;
    if r in f.q {
      StillAgree(s.calls, s'.calls, nodes, id);
    }
  }

  lemma DequeueSpelled(s: State, l: Label)
    requires Enabled(s, l) && Dequeues(l)
    ensures var s' := Next(s, l);
            && (s'.crashed <==> l.c !in s.queue)
            && (l.c in s.queue ==>
                  && s'.tab == s.tab && s'.muxer == s.muxer && s'.bounds == s.bounds
                  && s'.queue == Without(s.queue, l.c) && CallsKept(s.calls, s'.calls))
  {
    hide CallsKept, Without;
    GoKeeps(s, l.c, if l.Drop? then Dropping else GivingUp);
  }

  predicate PutsTag(l: Label) { l.DropTag? || l.Leave? }

  /** A tag names the caller's own slot, as puttag looks for it. */
  predicate Owns(f: Fields, r: H.Rpc, tag: nat) {
    0 <= tag - f.bounds.mintag < |f.tab.wait| && f.tab.wait[tag - f.bounds.mintag] == Some(r)
  }

  /** puttag, and the return of muxrpc where the call leaves with its reply. */
  lemma PutTagSteps(s: State, l: Label, r: H.Rpc, s': State, f: Fields, nodes: map<H.Rpc, Node>, id: Names)
    requires Pictured(s, f, nodes, id) && r in id && r in nodes && PutsTag(l) && l.c == id[r] && Steps(s, l, s')
    requires Owns(f, r, nodes[r].tag) ==> f.tab.nwait > 0
    ensures s'.crashed <==> !Owns(f, r, nodes[r].tag)
    ensures Owns(f, r, nodes[r].tag) ==>
              Pictured(s', f.(tab := Release(f.tab, nodes[r].tag - f.bounds.mintag)),
                       nodes[r := nodes[r].(expired := l.Leave?)], id)
  {
    hide NamedTable, NamedQueue, Next, Enabled, Release, Agree, Injective, NotifyTag, SameCall;
    OwnsNamed(s, l, f, nodes, id, r);
    PutTagSpelled(s, l);
    if Owns(f, r, nodes[r].tag) {
      LeavesAgree(s, l, r, s', nodes, id);
      ReleaseNamed(f.tab, id, nodes[r].tag - f.bounds.mintag);
    }
  }

  lemma LeavesAgree(s: State, l: Label, r: H.Rpc, s': State, nodes: map<H.Rpc, Node>, id: Names)
    requires Agree(s.calls, nodes, id) && Injective(id) && r in id && PutsTag(l) && l.c == id[r] && Steps(s, l, s')
    requires OwnsSlot(s, l.c)
    ensures Agree(s'.calls, nodes[r := nodes[r].(expired := l.Leave?)], id)
  {
    PutTagSpelled(s, l);
    WokenKept(s, l.woken);
    hide Next, Enabled, Release, CallsKept, NotifyTag, OwnsSlot;
    StillAgree(s.calls, NotifyTag(s, l.woken).calls, nodes, id);
    OneAgrees(NotifyTag(s, l.woken).calls, nodes, id, r, s'.calls[id[r]], nodes[r].(expired := l.Leave?));
  }

  lemma OwnsNamed(s: State, l: Label, f: Fields, nodes: map<H.Rpc, Node>, id: Names, r: H.Rpc)
    requires Pictured(s, f, nodes, id) && r in id && r in nodes && PutsTag(l) && l.c == id[r] && Enabled(s, l)
    requires Owns(f, r, nodes[r].tag) ==> f.tab.nwait > 0
    ensures OwnsSlot(s, id[r]) <==> Owns(f, r, nodes[r].tag)
    ensures s.calls[id[r]].tag == nodes[r].tag
  {
    hide NamedQueue;
    assert SameCall(nodes[r], s.calls[id[r]]);
  }

  lemma PutTagSpelled(s: State, l: Label)
    requires Enabled(s, l) && PutsTag(l)
    ensures HasSlot(PcOf(s, l.c)) && MayWake(s, l.woken)
    ensures var s', s1 := Next(s, l), NotifyTag(s, l.woken);
            && (s'.crashed <==> !OwnsSlot(s, l.c))
            && (OwnsSlot(s, l.c) ==>
                  && l.c in s1.calls && s1.calls[l.c] == s.calls[l.c]
                  && s'.tab == Release(s.tab, Slot(s, s.calls[l.c].tag))
                  && s'.queue == s.queue && s'.muxer == s.muxer && s'.bounds == s.bounds
                  && s'.calls == s1.calls[l.c := s.calls[l.c].(pc := LeftPc(s, l))])
  {
    hide Release;
  }

  lemma LapseSteps(s: State, r: H.Rpc, s': State, f: Fields, nodes: map<H.Rpc, Node>, id: Names)
    requires Pictured(s, f, nodes, id) && r in id && Steps(s, MuxModel.Lapse(id[r]), s')
    ensures !s'.crashed && Pictured(s', f, nodes[r := nodes[r].(expired := true)], id)
  {
    hide NamedTable, NamedQueue;
    OneAgrees(s.calls, nodes, id, r, s'.calls[id[r]], nodes[r].(expired := true));
    hide Agree, Injective;
  }

  /** muxer.lock() == null, or what it points to. */
  predicate NoMuxerFor(f: Fields, nodes: map<H.Rpc, Node>, r: H.Rpc) {
    f.muxer == null || f.muxer == r || (f.muxer in nodes && nodes[f.muxer].expired)
  }

  lemma TestMuxSteps(s: State, r: H.Rpc, s': State, f: Fields, nodes: map<H.Rpc, Node>, id: Names)
    requires Pictured(s, f, nodes, id) && r in id && Steps(s, MuxModel.TestMux(id[r]), s')
    ensures !s'.crashed && id[r] in s'.calls
    ensures PcOf(s', id[r]) ==
            if nodes[r].p.Some? then Leaving else if NoMuxerFor(f, nodes, r) then Receiving else Asleep
    ensures Pictured(s', if nodes[r].p.None? && NoMuxerFor(f, nodes, r) then f.(muxer := r) else f, nodes, id)
  {
    MuxerNamed(s, f, nodes, id, r);
    TestMuxSpelled(s, id[r]);
    hide NamedTable, NamedQueue, Injective, Next, Enabled, CallsKept;
    StillAgree(s.calls, s'.calls, nodes, id);
  }

  lemma MuxerNamed(s: State, f: Fields, nodes: map<H.Rpc, Node>, id: Names, r: H.Rpc)
    requires Pictured(s, f, nodes, id) && r in id
    ensures NoMuxerFor(f, nodes, r) <==> !MuxerLive(s) || s.muxer == Some(id[r])
  {
    hide NamedTable, NamedQueue;
  }

  lemma TestMuxSpelled(s: State, c: CallId)
    requires Enabled(s, MuxModel.TestMux(c))
    ensures var s', free := Next(s, MuxModel.TestMux(c)), !MuxerLive(s) || s.muxer == Some(c);
            && !s'.crashed && s'.tab == s.tab && s'.queue == s.queue && s'.bounds == s.bounds && c in s'.calls
            && PcOf(s', c) == (if s.calls[c].p.Some? then Leaving else if free then Receiving else Asleep)
            && s'.muxer == (if s.calls[c].p.None? && free then Some(c) else s.muxer)
            && CallsKept(s.calls, s'.calls)
  {
    hide CallsKept;
    GoKeeps(s, c, PcOf(Next(s, MuxModel.TestMux(c)), c));
  }

  lemma ElectSteps(s: State, c: CallId, s': State, f: Fields, nodes: map<H.Rpc, Node>, id: Names)
    requires Pictured(s, f, nodes, id) && Steps(s, MuxModel.Elect(c), s')
    ensures !s'.crashed && Pictured(s', f.(muxer := if f.q == [] then null else f.q[0]), nodes, id)
  {
    ElectSpelled(s, c);
    hide NamedTable, Injective, Next, Enabled, CallsKept;
    StillAgree(s.calls, s'.calls, nodes, id);
  }

  lemma ElectSpelled(s: State, c: CallId)
    requires Enabled(s, MuxModel.Elect(c))
    ensures var s' := Next(s, MuxModel.Elect(c));
            && !s'.crashed && s'.tab == s.tab && s'.bounds == s.bounds && s'.queue == s.queue
            && s'.muxer == (if s.queue == [] then None else Some(s.queue[0]))
            && CallsKept(s.calls, s'.calls)
  {
    hide CallsKept;
    var s1 := ElectMuxer(s);
    if s.queue == [] {
      NoneKept(s.calls);
    } else {
      NotifyKept(s, s.queue[0]);
    }
    GoKeeps(s1, c, Leaving);
    KeptOn(s.calls, s1.calls, Next(s, MuxModel.Elect(c)).calls);
  }

  /** A message with this tag can be handed over. */
  predicate Deliverable(f: Fields, tag: nat) {
    var i := tag - f.bounds.mintag;
    0 <= i < |f.tab.wait| && f.tab.wait[i].Some? && f.tab.wait[i].value in f.q
  }

  /** Who is to get it. */
  function Owner(f: Fields, tag: nat): H.Rpc
    requires Deliverable(f, tag)
  {
    f.tab.wait[tag - f.bounds.mintag].value
  }

  lemma DispatchSteps(s: State, c: CallId, s': State, f: Fields, nodes: map<H.Rpc, Node>, id: Names, m: H.Message)
    requires Pictured(s, f, nodes, id) && Steps(s, MuxModel.Dispatch(c), s') && m.tag == PcOf(s, c).reply.tag
    ensures s'.crashed <==> !Deliverable(f, m.tag)
    ensures Deliverable(f, m.tag) ==>
              var x := Owner(f, m.tag);
              x in nodes && Pictured(s', f.(q := Without(f.q, x)), nodes[x := nodes[x].(p := Some(m))], id)
  {
    if Deliverable(f, m.tag) {
      var x := Owner(f, m.tag);
      OwnerNamed(s, f, nodes, id, m.tag);
      WithoutNamed(f.q, id, x);
      Hands(s, c, id[x]);
      hide NamedTable, NamedQueue, Without, Next, Enabled, Owner, Deliverable, CallsKept, HandedOver;
      HandedAgree(s.calls, s'.calls, nodes, id, x, PcOf(s, c).reply, m);
      hide Agree, Injective;
      assert SharedIs(s', f.(q := Without(f.q, x)), id);
    } else {
      StrayNamed(s, f, nodes, id, m.tag);
      hide Pictured, NamedTable, NamedQueue, Deliverable;
      ThrowsOnStray(s, c);
    }
  }

  lemma OwnerNamed(s: State, f: Fields, nodes: map<H.Rpc, Node>, id: Names, tag: nat)
    requires Pictured(s, f, nodes, id) && Deliverable(f, tag)
    ensures var x := Owner(f, tag);
            && x in id && x in nodes && id[x] in s.calls && id[x] in s.queue
            && 0 <= Slot(s, tag) < |s.tab.wait| && s.tab.wait[Slot(s, tag)] == Some(id[x])
  {
    hide SameCall;
    WithoutNamed(f.q, id, Owner(f, tag));
  }

  lemma StrayNamed(s: State, f: Fields, nodes: map<H.Rpc, Node>, id: Names, tag: nat)
    requires Pictured(s, f, nodes, id) && !Deliverable(f, tag)
    ensures Stray(s, Reply(tag, 0))
  {
    var i := tag - f.bounds.mintag;
    if 0 <= i < |f.tab.wait| && f.tab.wait[i].Some? {
      WithoutNamed(f.q, id, f.tab.wait[i].value);
    }
  }

  /** The dispatch step: wakes the sleeper and gives it the reply; nothing else about the calls changes. */
  lemma Hands(s: State, c: CallId, r: CallId)
    requires Enabled(s, MuxModel.Dispatch(c)) && r in s.calls && r in s.queue
    requires var i := Slot(s, PcOf(s, c).reply.tag); 0 <= i < |s.tab.wait| && s.tab.wait[i] == Some(r)
    ensures var s', f := Next(s, MuxModel.Dispatch(c)), PcOf(s, c).reply;
            && !s'.crashed && s'.tab == s.tab && s'.bounds == s.bounds && s'.muxer == s.muxer
            && s'.queue == Without(s.queue, r) && HandedOver(s.calls, s'.calls, r, f)
  {
    hide Without, CallsKept;
    var f := PcOf(s, c).reply;
    var s0 := s.(lk := Some(c));
    var s1 := Go(s0, c, MuxLoop);
    var s2 := Notify(s1, r);
    GoKeeps(s0, c, MuxLoop);
    NotifyKept(s1, r);
    KeptOn(s.calls, s1.calls, s2.calls);
    assert Next(s, MuxModel.Dispatch(c)) == GiveReply(s2, r, f);
    assert s2.calls == GiveReply(s2, r, f).calls[r := s2.calls[r]];
  }

  /** Like `a`, but for the reply of `r`. */
  ghost predicate HandedOver(a: map<CallId, Call>, b: map<CallId, Call>, r: CallId, f: Reply) {
    r in a && r in b && exists k: Call :: b[r] == k.(p := Some(f)) && CallsKept(a, b[r := k])
  }

  lemma ThrowsOnStray(s: State, c: CallId)
    requires Enabled(s, MuxModel.Dispatch(c))
    requires Stray(s, Reply(PcOf(s, c).reply.tag, 0))
    ensures Next(s, MuxModel.Dispatch(c)).crashed
  {
    hide Without;
  }

  lemma HandedAgree(a: map<CallId, Call>, b: map<CallId, Call>, nodes: map<H.Rpc, Node>, id: Names, x: H.Rpc,
                    f: Reply, m: H.Message)
    requires Agree(a, nodes, id) && Injective(id) && x in id && HandedOver(a, b, id[x], f) && f.tag == m.tag
    ensures Agree(b, nodes[x := nodes[x].(p := Some(m))], id)
  {
    hide CallsKept, Agree, Injective;
    var k: Call :| b[id[x]] == k.(p := Some(f)) && CallsKept(a, b[id[x] := k]);
    StillAgree(a, b[id[x] := k], nodes, id);
    SameWithReply(b[id[x] := k], nodes, id, x, f, m);
    OneAgrees(b[id[x] := k], nodes, id, x, b[id[x]], nodes[x].(p := Some(m)));
    assert b[id[x] := k][id[x] := b[id[x]]] == b;
  }

  lemma SameWithReply(b: map<CallId, Call>, nodes: map<H.Rpc, Node>, id: Names, x: H.Rpc, f: Reply, m: H.Message)
    requires Agree(b, nodes, id) && x in id && f.tag == m.tag
    ensures id[x] in b && x in nodes && SameCall(nodes[x].(p := Some(m)), b[id[x]].(p := Some(f)))
  {
  }

  lemma MountSteps(s: State, s': State, f: Fields, nodes: map<H.Rpc, Node>, id: Names)
    requires Pictured(s, f, nodes, id) && Steps(s, MuxModel.Mount, s')
    ensures !s'.crashed && f.bounds == VERSION_BOUNDS && Pictured(s', f.(bounds := NORMAL_BOUNDS), nodes, id)
  {
    hide NamedTable, NamedQueue;
  }

  // ----- the operations of the heap, on fields and nodes

  lemma Shape(h: H.Client)
    requires h.Valid()
    ensures |h.wait| == h.mwait && (h.mwait > 0 ==> h.freetag < h.mwait) && h.sleep !in h.calls
    ensures forall r :: r in h.q ==> r in h.calls
    ensures forall i :: 0 <= i < |h.wait| && h.wait[i].Some? ==> h.wait[i].value in h.calls
    ensures h.muxer == null || h.muxer in h.calls
  {
  }

  lemma Mirrored(h: H.Client, s: State, id: Names)
    requires id.Keys == h.calls && Pictured(s, FieldsOf(h), Nodes(id), id)
    ensures Mirrors(h, s, id)
  {
    hide Pictured;
  }

  lemma Seen(h: H.Client, s: State, id: Names)
    requires Mirrors(h, s, id)
    ensures id.Keys == h.calls && Pictured(s, FieldsOf(h), Nodes(id), id)
  {
    hide Pictured;
  }

  method Prepended(h: H.Client, r: H.Rpc, ghost id: Names, ghost f: Fields, ghost nodes: map<H.Rpc, Node>)
    requires h.Valid() && r in h.calls && r !in h.q && id.Keys == h.calls && f == FieldsOf(h) && nodes == Nodes(id)
    modifies h`q, h.sleep`next, h.sleep`prev, h.calls`next, h.calls`prev
    ensures h.Valid() && FieldsOf(h) == f.(q := [r] + f.q) && Nodes(id) == nodes
  {
    Shape(h);
    hide H.Client.Valid;
    h.Enqueue(r);
  }

  method Unlinked(h: H.Client, r: H.Rpc, ghost id: Names, ghost f: Fields, ghost nodes: map<H.Rpc, Node>)
    returns (ok: bool)
    requires h.Valid() && r in h.calls && id.Keys == h.calls && f == FieldsOf(h) && nodes == Nodes(id)
    modifies h`q, h.sleep`next, h.sleep`prev, h.calls`next, h.calls`prev
    ensures h.Valid() && (ok <==> r in f.q) && Nodes(id) == nodes
    ensures ok ==> FieldsOf(h) == f.(q := Without(f.q, r))
  {
    Shape(h);
    h.LinkedMeansQueued(r);
    hide H.Client.Valid, Without;
    if r.next == null {
      return false;
    }
    h.Dequeue(r);
    ok := true;
  }

  /** A single node has changed. */
  lemma OneNode(id: Names, nodes: map<H.Rpc, Node>, x: H.Rpc)
    requires x in id && nodes.Keys == id.Keys
    requires forall r :: r in id && r != x ==> NodeOf(r) == nodes[r]
    ensures Nodes(id) == nodes[x := NodeOf(x)]
  {
    hide NodeOf;
  }

  method Handed(h: H.Client, m: H.Message, ghost id: Names, ghost f: Fields, ghost nodes: map<H.Rpc, Node>)
    returns (ok: bool)
    requires h.Valid() && id.Keys == h.calls && f == FieldsOf(h) && nodes == Nodes(id)
    modifies h`q, h.sleep`next, h.sleep`prev, h.calls`next, h.calls`prev, h.calls`p, h.calls`signals
    ensures h.Valid() && (ok <==> Deliverable(f, m.tag))
    ensures ok ==>
              var x := Owner(f, m.tag);
              && x in nodes && FieldsOf(h) == f.(q := Without(f.q, x))
              && Nodes(id) == nodes[x := nodes[x].(p := Some(m))]
  {
    Shape(h);
    hide H.Client.Valid, Without;
    ok := h.Dispatch(m);
    assert ok <==> Deliverable(f, m.tag);
    if ok {
      ghost var x := Owner(f, m.tag);
      hide Deliverable, Owner;
      forall r | r in id && r != x
        ensures NodeOf(r) == nodes[r]
      {
      }
      OneNode(id, nodes, x);
    }
  }

  method Freed(h: H.Client, r: H.Rpc, ghost id: Names) returns (ok: bool)
    requires h.Valid() && r in h.calls && id.Keys == h.calls
    modifies h`nwait, h`freetag, h`wait, h`tagSignals
    ensures h.Valid() && Nodes(id) == old(Nodes(id)) && (ok <==> Owns(old(FieldsOf(h)), r, Nodes(id)[r].tag))
    ensures ok ==>
              var f, tag := old(FieldsOf(h)), Nodes(id)[r].tag;
              f.tab.nwait > 0 && FieldsOf(h) == f.(tab := Release(f.tab, tag - f.bounds.mintag))
  {
    Shape(h);
    hide H.Client.Valid, Release;
    ok := h.PutTag(r);
  }

  method Died(h: H.Client, r: H.Rpc, ghost id: Names)
    requires h.Valid() && r in h.calls && id.Keys == h.calls
    modifies r`expired
    ensures h.Valid() && FieldsOf(h) == old(FieldsOf(h))
    ensures Nodes(id) == old(Nodes(id))[r := old(Nodes(id))[r].(expired := true)]
  {
    hide H.Client.Valid;
    h.Expire(r);
  }

  /** puttag; where the call leaves with its reply, muxrpc returns and its Rpc dies. */
  method Released(h: H.Client, r: H.Rpc, leaves: bool, ghost id: Names) returns (ok: bool)
    requires h.Valid() && r in h.calls && id.Keys == h.calls && !Nodes(id)[r].expired
    modifies h`nwait, h`freetag, h`wait, h`tagSignals, r`expired
    ensures h.Valid() && (ok <==> Owns(old(FieldsOf(h)), r, old(Nodes(id))[r].tag))
    ensures ok ==>
              var f, n := old(FieldsOf(h)), old(Nodes(id))[r];
              && f.tab.nwait > 0 && FieldsOf(h) == f.(tab := Release(f.tab, n.tag - f.bounds.mintag))
              && Nodes(id) == old(Nodes(id))[r := n.(expired := leaves)]
  {
    hide H.Client.Valid, Release;
    ok := Freed(h, r, id);
    if ok && leaves {
      Died(h, r, id);
    }
  }

  method RoomMade(h: H.Client, ghost id: Names) returns (room: bool)
    requires h.Valid() && id.Keys == h.calls
    modifies h`mwait, h`freetag, h`wait
    ensures h.Valid() && (room <==> HasRoom(old(FieldsOf(h))))
    ensures FieldsOf(h) == if room then old(FieldsOf(h)).(tab := Tested(old(FieldsOf(h)).tab)) else old(FieldsOf(h))
    ensures Nodes(id) == old(Nodes(id))
  {
    hide H.Client.Valid, Tested;
    room := h.MakeRoom();
  }

  method Taken(h: H.Client, r: H.Rpc, ghost id: Names, ghost f: Fields, ghost nodes: map<H.Rpc, Node>)
    returns (tag: nat)
    requires h.Valid() && r in h.calls && id.Keys == h.calls && h.nwait != h.mwait
    requires f == FieldsOf(h) && nodes == Nodes(id)
    modifies h`nwait, h`wait, r`tag
    ensures h.Valid() && Scannable(f.tab) && tag == r.tag == Scan(f.tab).value + f.bounds.mintag
    ensures FieldsOf(h) == f.(tab := Take(f.tab, Scan(f.tab).value, r))
    ensures Nodes(id) == nodes[r := nodes[r].(tag := tag)]
  {
    Shape(h);
    hide H.Client.Valid, Take, Scan;
    tag := h.TakeSlot(r);
    OneNode(id, nodes, r);
  }

  method MuxerSet(h: H.Client, r: H.Rpc, ghost id: Names) returns (res: H.MuxResult)
    requires h.Valid() && r in h.calls && id.Keys == h.calls
    modifies h`muxer
    ensures h.Valid() && Nodes(id) == old(Nodes(id))
    ensures res == if old(Nodes(id))[r].p.Some? then H.HasReply
                   else if NoMuxerFor(old(FieldsOf(h)), old(Nodes(id)), r) then H.Muxes else H.Sleep
    ensures FieldsOf(h) == if res.Muxes? then old(FieldsOf(h)).(muxer := r) else old(FieldsOf(h))
  {
    Shape(h);
    hide H.Client.Valid;
    res := h.TestMux(r);
  }

  method Elected(h: H.Client, ghost id: Names)
    requires h.Valid() && id.Keys == h.calls && forall r :: r in FieldsOf(h).q ==> r in Nodes(id) && !Nodes(id)[r].async
    modifies h`muxer, h.q`signals
    ensures h.Valid() && Nodes(id) == old(Nodes(id))
    ensures var f := old(FieldsOf(h)); FieldsOf(h) == f.(muxer := if f.q == [] then null else f.q[0])
  {
    forall r | r in h.q
      ensures !r.async
    {
      assert r in FieldsOf(h).q && !Nodes(id)[r].async;
    }
    H.ElectsNewest(h.q);
    hide H.Client.Valid, H.FirstWaiter;
    h.ElectMuxer();
  }

  // ----- the operations

  /** A new client mirrors the state before the mount. */
  method Start() returns (h: H.Client)
    ensures fresh(h) && fresh(h.sleep) && h.calls == {} && h.Valid() && Mirrors(h, INIT, map[])
  {
    h := new H.Client(VERSION_BOUNDS.mintag, VERSION_BOUNDS.maxtag);
    assert NamedTable(h.Tab(), map[]).wait == [];
  }

  method Mount(h: H.Client, ghost s: State, ghost s': State, ghost id: Names)
    requires h.Valid() && Mirrors(h, s, id) && Steps(s, MuxModel.Mount, s')
    modifies h`mintag, h`maxtag
    ensures h.Valid() && !s'.crashed && Mirrors(h, s', id)
  {
    MountSteps(s, s', FieldsOf(h), Nodes(id), id);
    hide H.Client.Valid, Pictured, Steps;
    h.Mount();
  }

  /** A call begins, under a name not used before. */
  method Begin(h: H.Client, ghost s: State, ghost s': State, ghost id: Names, ghost c: CallId)
    returns (r: H.Rpc, ghost id': Names)
    requires h.Valid() && Mirrors(h, s, id) && Steps(s, MuxModel.Begin(c), s')
    modifies h`calls
    ensures h.Valid() && fresh(r) && id' == id[r := c] && h.calls == old(h.calls) + {r}
    ensures !s'.crashed && Mirrors(h, s', id')
  {
    hide H.Client.Valid, Pictured, Steps;
    ghost var nodes := Nodes(id);
    r := h.NewCall();
    id' := id[r := c];
    BeginSteps(s, c, s', FieldsOf(h), nodes, id, r);
    assert Nodes(id') == nodes[r := Node(0, None, false, false)];
  }

  /** The loop test of gettag. */
  method TestTags(h: H.Client, r: H.Rpc, ghost s: State, ghost s': State, ghost id: Names) returns (room: bool)
    requires h.Valid() && Mirrors(h, s, id) && r in h.calls && Steps(s, MuxModel.TestTags(id[r]), s')
    modifies h`mwait, h`freetag, h`wait
    ensures h.Valid() && !s'.crashed && Mirrors(h, s', id)
    ensures id[r] in s'.calls && if room then PcOf(s', id[r]).TagScan? else PcOf(s', id[r]).TagAsleep?
  {
    hide *;
    Seen(h, s, id);
    TestTagsSteps(s, id[r], s', FieldsOf(h), Nodes(id), id);
    room := RoomMade(h, id);
    Mirrored(h, s', id);
  }

  /** The scan of gettag. */
  method TakeTag(h: H.Client, r: H.Rpc, ghost s: State, ghost s': State, ghost id: Names) returns (tag: nat)
    requires h.Valid() && Mirrors(h, s, id) && r in h.calls && Steps(s, MuxModel.TakeTag(id[r]), s')
    requires h.nwait != h.mwait
    modifies h`nwait, h`wait, r`tag
    ensures h.Valid() && !s'.crashed && Mirrors(h, s', id) && tag == r.tag
  {
    hide *;
    Seen(h, s, id);
    ghost var f, nodes := FieldsOf(h), Nodes(id);
    tag := Taken(h, r, id, f, nodes);
    TakeTagSteps(s, r, s', f, nodes, id);
    Mirrored(h, s', id);
  }

  method Enqueue(h: H.Client, r: H.Rpc, ghost s: State, ghost s': State, ghost id: Names)
    requires h.Valid() && Mirrors(h, s, id) && r in h.calls && r !in h.q && Steps(s, MuxModel.Enqueue(id[r]), s')
    modifies h`q, h.sleep`next, h.sleep`prev, h.calls`next, h.calls`prev
    ensures h.Valid() && !s'.crashed && Mirrors(h, s', id)
  {
    hide *;
    Seen(h, s, id);
    EnqueueSteps(s, r, s', FieldsOf(h), Nodes(id), id);
    Prepended(h, r, id, FieldsOf(h), Nodes(id));
    Mirrored(h, s', id);
  }

  /** dequeue after a failed pack or a failed receive; it follows a null link exactly when the step does. */
  method Dequeue(h: H.Client, r: H.Rpc, ghost l: Label, ghost s: State, ghost s': State, ghost id: Names)
    returns (ok: bool)
    requires h.Valid() && Mirrors(h, s, id) && r in h.calls && Dequeues(l) && l.c == id[r] && Steps(s, l, s')
    modifies h`q, h.sleep`next, h.sleep`prev, h.calls`next, h.calls`prev
    ensures h.Valid() && (ok <==> !s'.crashed) && (ok ==> Mirrors(h, s', id))
  {
    hide *;
    Seen(h, s, id);
    DequeueSteps(s, l, r, s', FieldsOf(h), Nodes(id), id);
    ok := Unlinked(h, r, id, FieldsOf(h), Nodes(id));
    if ok {
      Mirrored(h, s', id);
    }
  }

  /** puttag, after a failed pack or on the way out, whichever sleeper the notification wakes. */
  method PutTag(h: H.Client, r: H.Rpc, l: Label, ghost s: State, ghost s': State, ghost id: Names) returns (ok: bool)
    requires h.Valid() && Mirrors(h, s, id) && r in h.calls && PutsTag(l) && l.c == id[r] && Steps(s, l, s')
    modifies h`nwait, h`freetag, h`wait, h`tagSignals, r`expired
    ensures h.Valid() && (ok <==> !s'.crashed) && (ok ==> Mirrors(h, s', id))
  {
    hide *;
    Seen(h, s, id);
    OwnerCounted(h, r, Nodes(id)[r].tag);
    NotYetExpired(s, l, r, s', FieldsOf(h), Nodes(id), id);
    PutTagSteps(s, l, r, s', FieldsOf(h), Nodes(id), id);
    ok := Released(h, r, l.Leave?, id);
    if ok {
      Mirrored(h, s', id);
    }
  }

  lemma OwnerCounted(h: H.Client, r: H.Rpc, tag: nat)
    requires h.Valid()
    ensures Owns(FieldsOf(h), r, tag) ==> FieldsOf(h).tab.nwait > 0
  {
    hide H.Client.Linked, H.Client.Members;
    var i := tag - h.mintag;
    if Owns(FieldsOf(h), r, tag) {
      ReleaseKeepsValid(h.Tab(), i, h.maxtag - h.mintag);
    }
  }

  lemma NotYetExpired(s: State, l: Label, r: H.Rpc, s': State, f: Fields, nodes: map<H.Rpc, Node>, id: Names)
    requires Pictured(s, f, nodes, id) && r in id && PutsTag(l) && l.c == id[r] && Steps(s, l, s')
    ensures r in nodes && !nodes[r].expired
  {
    hide SharedIs, Injective, Next;
    assert SameCall(nodes[r], s.calls[id[r]]);
  }

  /** The Rpc of a call whose pack failed dies. */
  method Lapse(h: H.Client, r: H.Rpc, ghost s: State, ghost s': State, ghost id: Names)
    requires h.Valid() && Mirrors(h, s, id) && r in h.calls && Steps(s, MuxModel.Lapse(id[r]), s')
    modifies r`expired
    ensures h.Valid() && !s'.crashed && Mirrors(h, s', id)
  {
    LapseSteps(s, r, s', FieldsOf(h), Nodes(id), id);
    hide H.Client.Valid, Pictured, Steps;
    Died(h, r, id);
  }

  /** The look at the muxer: asleep, leaving with the reply, or the muxer from now on. */
  method TestMux(h: H.Client, r: H.Rpc, ghost s: State, ghost s': State, ghost id: Names) returns (res: H.MuxResult)
    requires h.Valid() && Mirrors(h, s, id) && r in h.calls && Steps(s, MuxModel.TestMux(id[r]), s')
    modifies h`muxer
    ensures h.Valid() && !s'.crashed && Mirrors(h, s', id)
    ensures id[r] in s'.calls && !res.CheckFailed?
    ensures PcOf(s', id[r]) == if res.HasReply? then Leaving else if res.Muxes? then Receiving else Asleep
  {
    hide *;
    Seen(h, s, id);
    TestMuxSteps(s, r, s', FieldsOf(h), Nodes(id), id);
    res := MuxerSet(h, r, id);
    Mirrored(h, s', id);
  }

  /** electmuxer */
  method Elect(h: H.Client, ghost c: CallId, ghost s: State, ghost s': State, ghost id: Names)
    requires h.Valid() && Mirrors(h, s, id) && Steps(s, MuxModel.Elect(c), s')
    modifies h`muxer, h.q`signals
    ensures h.Valid() && !s'.crashed && Mirrors(h, s', id)
  {
    hide *;
    Seen(h, s, id);
    NoneAsync(s, FieldsOf(h), Nodes(id), id);
    ElectSteps(s, c, s', FieldsOf(h), Nodes(id), id);
    Elected(h, id);
    Mirrored(h, s', id);
  }

  lemma NoneAsync(s: State, f: Fields, nodes: map<H.Rpc, Node>, id: Names)
    requires Pictured(s, f, nodes, id)
    ensures forall r :: r in f.q ==> r in id && r in nodes && !nodes[r].async
  {
    hide Injective, NamedTable, NamedQueue;
    forall r | r in f.q
      ensures r in id && r in nodes && !nodes[r].async
    {
      assert SameCall(nodes[r], s.calls[id[r]]);
    }
  }

  /** dispatchandqlock, for a message with the tag of the reply in the muxer's hand. */
  method Dispatch(h: H.Client, m: H.Message, ghost c: CallId, ghost s: State, ghost s': State, ghost id: Names)
    returns (ok: bool)
    requires h.Valid() && Mirrors(h, s, id) && Steps(s, MuxModel.Dispatch(c), s') && m.tag == PcOf(s, c).reply.tag
    modifies h`q, h.sleep`next, h.sleep`prev, h.calls`next, h.calls`prev, h.calls`p, h.calls`signals
    ensures h.Valid() && (ok <==> !s'.crashed) && (ok ==> Mirrors(h, s', id))
  {
    hide *;
    Seen(h, s, id);
    DispatchSteps(s, c, s', FieldsOf(h), Nodes(id), id, m);
    ok := Handed(h, m, id, FieldsOf(h), Nodes(id));
    if ok {
      Mirrored(h, s', id);
    }
  }

  // ----- following a run

  /** The steps of one call that has begun. */
  predicate OfCall(l: Label) { !l.Begin? && !l.Answer? && !l.Rogue? && !l.Mount? }

  lemma CallExists(s: State, l: Label)
    requires Enabled(s, l) && OfCall(l)
    ensures l.c in s.calls
  {
  }

  lemma NamesKept(s: State, l: Label)
    requires Enabled(s, l)
    ensures forall c :: c in Next(s, l).calls ==> c in s.calls || (l.Begin? && c == l.c)
  {
    hide Grow, Release, Take, Scan, Without;
  }

  /** The nodes of the calls by name. */
  ghost predicate Inverse(nodes: map<CallId, H.Rpc>, id: Names, s: State) {
    && (forall c :: c in s.calls ==> c in nodes)
    && (forall c :: c in nodes ==> nodes[c] in id && id[nodes[c]] == c)
  }

  lemma StillInverse(nodes: map<CallId, H.Rpc>, id: Names, s: State, l: Label, s': State)
    requires Inverse(nodes, id, s) && Steps(s, l, s') && !l.Begin?
    ensures Inverse(nodes, id, s')
  {
    NamesKept(s, l);
  }

  lemma InverseGrows(nodes: map<CallId, H.Rpc>, id: Names, s: State, c: CallId, s': State, r: H.Rpc)
    requires Inverse(nodes, id, s) && Steps(s, MuxModel.Begin(c), s') && r !in id
    ensures Inverse(nodes[c := r], id[r := c], s')
  {
    NamesKept(s, MuxModel.Begin(c));
  }

  /** What the operation of the step asks for: a free slot past the test of gettag, and no link before enqueue. */
  lemma Located(h: H.Client, nodes: map<CallId, H.Rpc>, s: State, l: Label, s': State, id: Names)
    requires Mirrors(h, s, id) && Inverse(nodes, id, s) && Inv(s) && Steps(s, l, s') && OfCall(l)
    ensures l.c in nodes && nodes[l.c] in h.calls && nodes[l.c] in id && id[nodes[l.c]] == l.c
    ensures l.TakeTag? ==> h.nwait != h.mwait
    ensures l.Enqueue? ==> nodes[l.c] !in h.q
  {
    CallExists(s, l);
    hide SlotsOk, LocksOk, MuxerOk, TableOk, Next, Injective, NamedTable;
    if l.Enqueue? {
      NotQueued(s, l.c);
      WithoutNamed(h.q, id, nodes[l.c]);
    }
  }

  lemma NotQueued(s: State, c: CallId)
    requires QueueOk(s) && c in s.calls && PcOf(s, c).Tagged?
    ensures c !in s.queue
  {
  }

  /** The message a dispatch step hands over. */
  predicate InHand(s: State, l: Label, m: H.Message) {
    l.Dispatch? && l.c in s.calls && PcOf(s, l.c).Got? ==> m.tag == PcOf(s, l.c).reply.tag
  }

  lemma TagInHand(s: State, l: Label, m: H.Message, s': State)
    requires InHand(s, l, m) && Steps(s, l, s') && l.Dispatch?
    ensures l.c in s.calls && PcOf(s, l.c).Got? && m.tag == PcOf(s, l.c).reply.tag
  {
  }

  /** The steps whose operation can throw or follow a null link. */
  method MayThrow(h: H.Client, r: H.Rpc, l: Label, m: H.Message, ghost s: State, ghost s': State, ghost id: Names)
    returns (ok: bool)
    requires h.Valid() && Mirrors(h, s, id) && Steps(s, l, s') && InHand(s, l, m)
    requires l.Dispatch? || Dequeues(l) || PutsTag(l)
    requires r in h.calls && r in id && id[r] == l.c
    modifies h, h.sleep, h.calls
    ensures h.Valid() && h.calls == old(h.calls) && (ok <==> !s'.crashed) && (ok ==> Mirrors(h, s', id))
  {
    hide *;
    if l.Dispatch? {
      TagInHand(s, l, m, s');
      ok := Dispatch(h, m, l.c, s, s', id);
    } else if Dequeues(l) {
      ok := Dequeue(h, r, l, s, s', id);
    } else {
      ok := PutTag(h, r, l, s, s', id);
    }
  }

  /** A step that changes some field of the client or of a node: the operation it names, on its call's node. */
  method Operate(h: H.Client, r: H.Rpc, l: Label, m: H.Message, ghost s: State, ghost s': State, ghost id: Names)
    returns (ok: bool)
    requires h.Valid() && Mirrors(h, s, id) && Steps(s, l, s') && OfCall(l) && !Quiet(l) && InHand(s, l, m)
    requires r in h.calls && r in id && id[r] == l.c
    requires l.TakeTag? ==> h.nwait != h.mwait
    requires l.Enqueue? ==> r !in h.q
    modifies h, h.sleep, h.calls
    ensures h.Valid() && h.calls == old(h.calls) && (ok <==> !s'.crashed) && (ok ==> Mirrors(h, s', id))
  {
    Kinds(l);
    hide *;
    if l.Dispatch? || Dequeues(l) || PutsTag(l) {
      ok := MayThrow(h, r, l, m, s, s', id);
      return;
    }
    ok := true;
    if l.TestTags? {
      var room := TestTags(h, r, s, s', id);
    } else if l.TakeTag? {
      var tag := TakeTag(h, r, s, s', id);
    } else if l.Enqueue? {
      Enqueue(h, r, s, s', id);
    } else if l.TestMux? {
      var res := TestMux(h, r, s, s', id);
    } else if l.Lapse? {
      Lapse(h, r, s, s', id);
    } else {
      Elect(h, l.c, s, s', id);
    }
  }

  lemma Kinds(l: Label)
    requires OfCall(l) && !Quiet(l)
    ensures || l.TestTags? || l.TakeTag? || l.Enqueue? || l.TestMux? || l.Lapse? || l.Elect?
            || l.Dispatch? || Dequeues(l) || PutsTag(l)
  {
  }

  /** The heap code takes a step; it throws exactly when the step does. */
  method Step(h: H.Client, nodes: map<CallId, H.Rpc>, l: Label, m: H.Message, ghost s: State, ghost s': State,
              ghost id: Names)
    returns (ok: bool, nodes': map<CallId, H.Rpc>, ghost id': Names)
    requires h.Valid() && Mirrors(h, s, id) && Inverse(nodes, id, s) && Inv(s) && Steps(s, l, s') && InHand(s, l, m)
    modifies h, h.sleep, h.calls
    ensures h.Valid() && fresh(h.calls - old(h.calls)) && (ok <==> !s'.crashed)
    ensures ok ==> Mirrors(h, s', id') && Inverse(nodes', id', s')
  {
    hide H.Client.Valid, Inv, Steps, Inverse, InHand, Pictured, Quiet, OfCall;
    ok, nodes', id' := true, nodes, id;
    if l.Begin? {
      var r;
      r, id' := Begin(h, s, s', id, l.c);
      nodes' := nodes[l.c := r];
      InverseGrows(nodes, id, s, l.c, s', r);
      return;
    }
    StillInverse(nodes, id, s, l, s');
    if l.Mount? {
      Mount(h, s, s', id);
    } else if Quiet(l) {
      QuietSteps(s, l, s', FieldsOf(h), Nodes(id), id);
    } else {
      Rest(l);
      Located(h, nodes, s, l, s', id);
      ok := Operate(h, nodes[l.c], l, m, s, s', id);
    }
  }

  lemma Rest(l: Label)
    requires !l.Begin? && !l.Mount? && !Quiet(l)
    ensures OfCall(l)
  {
  }

  /**
   The heap code follows a whole run: from a new client on it does the operations the labels
   name, throws exactly when the run does, and otherwise ends mirroring the run's last state,
   with one node for every call.
   */
  method Follow(labels: seq<Label>, msgs: seq<H.Message>, ghost states: seq<State>)
    returns (h: H.Client, ok: bool, nodes: map<CallId, H.Rpc>, ghost id: Names)
    requires Run(states, labels) && |msgs| == |labels|
    requires forall i :: 0 <= i < |labels| ==> InHand(states[i], labels[i], msgs[i])
    ensures fresh(h) && h.Valid() && (ok <==> !states[|labels|].crashed)
    ensures ok ==> Mirrors(h, states[|labels|], id) && Inverse(nodes, id, states[|labels|])
  {
    hide H.Client.Valid, Inv, Steps, Inverse, InHand, Mirrors;
    h := Start();
    nodes, id := map[], map[];
    ok := true;
    StartsInverse();
    for n := 0 to |labels|
      invariant ok && fresh(h) && fresh(h.sleep) && fresh(h.calls)
      invariant h.Valid() && !states[n].crashed && Mirrors(h, states[n], id) && Inverse(nodes, id, states[n])
    {
      RunKeeps(states, labels, n);
      FollowsSteps(states, labels, n);
      ok, nodes, id := Step(h, nodes, labels[n], msgs[n], states[n], states[n + 1], id);
      if !ok {
        ThrownEnds(states, labels, n + 1);
        return;
      }
    }
  }

  lemma StartsInverse()
    ensures Inverse(map[], map[], INIT)
  {
  }

  lemma FollowsSteps(states: seq<State>, labels: seq<Label>, n: nat)
    requires Run(states, labels) && n < |labels|
    ensures Steps(states[n], labels[n], states[n + 1])
  {
    assert Follows(states, labels, n);
  }

  /** No step follows a throw. */
  lemma ThrownEnds(states: seq<State>, labels: seq<Label>, n: nat)
    requires Run(states, labels) && n < |states| && states[n].crashed
    ensures n == |labels|
  {
    assert n == |labels| || Follows(states, labels, n);
  }
}
