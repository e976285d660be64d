/**
 The server's timers (timer.cc), as values: the pending list, the next id, and what became
 of the timers that left the list.  TimerList has the linked list itself.
 */
module Timers {
  import opened Bytes

  const WORD: int := 0x1_0000_0000_0000_0000

  datatype Entry = Entry(id: nat, due: u64)

  /** What settimer was called with, and when. */
  datatype Request = Request(now: u64, msecs: int)

  /** The list and the next id; and as history what became of the timers, and the request each id was given out for. */
  datatype Wheel = Wheel(pending: seq<Entry>, next: nat, fired: seq<(Entry, u64)>, removed: seq<Entry>,
                         requests: seq<Request>)

  const IDLE := Wheel([], 1, [], [], [])

  /** msec() + msecs, in the 64 bits it has. */
  function Deadline(now: u64, msecs: int): u64 { (now + msecs) % WORD }

  /** static_cast<long> of a 64-bit difference */
  function ToLong(x: u64): int { if x < WORD / 2 then x else x - WORD }

  /** Where settimer stops: the first timer due strictly before. */
  function Place(es: seq<Entry>, due: u64): (k: nat)
    ensures k <= |es|
    ensures forall i :: 0 <= i < k ==> es[i].due >= due
    ensures k < |es| ==> es[k].due < due
  {
    if es == [] || es[0].due < due then 0 else 1 + Place(es[1..], due)
  }

  /** Where unsettimer stops. */
  function Find(es: seq<Entry>, id: nat): (k: nat)
    ensures k <= |es|
    ensures forall i :: 0 <= i < k ==> es[i].id != id
    ensures k < |es| ==> es[k].id == id
  {
    if es == [] || es[0].id == id then 0 else 1 + Find(es[1..], id)
  }

  function SetTimer(w: Wheel, now: u64, msecs: int): Wheel {
    var due := Deadline(now, msecs);
    var k := Place(w.pending, due);
    w.(pending := w.pending[..k] + [Entry(w.next, due)] + w.pending[k..], next := w.next + 1,
       requests := w.requests + [Request(now, msecs)])
  }

  function UnsetTimer(w: Wheel, id: nat): Wheel {
    var k := Find(w.pending, id);
    if k == |w.pending| then w
    else w.(pending := w.pending[..k] + w.pending[k + 1..], removed := w.removed + [w.pending[k]])
  }

  /** The head leaves the list to be called. */
  function Fire(w: Wheel, now: u64): Wheel
    requires w.pending != []
  {
    w.(pending := w.pending[1..], fired := w.fired + [(w.pending[0], now)])
  }

  /** What a callback may do to the timers. */
  datatype Op = Set(now: u64, msecs: int) | Unset(id: nat)

  function Do(w: Wheel, op: Op): Wheel {
    match op
    case Set(now, msecs) => SetTimer(w, now, msecs)
    case Unset(id) => UnsetTimer(w, id)
  }

  function DoAll(w: Wheel, ops: seq<Op>): Wheel {
    if ops == [] then w else Do(DoAll(w, ops[..|ops| - 1]), ops[|ops| - 1])
  }

  /** One round of nexttimer: what the clock says, and what the callback does if one is called. */
  datatype Round = Round(now: u64, ops: seq<Op>)

  function RoundOf(rounds: seq<Round>, final: u64): Round {
    if rounds == [] then Round(final, []) else rounds[0]
  }

  function Rest(rounds: seq<Round>): seq<Round> {
    if rounds == [] then [] else rounds[1..]
  }

  /** nexttimer: the timers afterwards, and its result. After the given rounds callbacks do nothing. */
  function Next(w: Wheel, rounds: seq<Round>, final: u64): (Wheel, int)
    decreases |rounds|, |w.pending|
  {
    var r := RoundOf(rounds, final);
    if w.pending == [] then (w, 0)
    else if w.pending[0].due > r.now then (w, ToLong(w.pending[0].due - r.now))
    else Next(DoAll(Fire(w, r.now), r.ops), Rest(rounds), final)
  }

  // ----- what every operation keeps

  /** The list is in order of deadline, the latest first. */
  ghost predicate Ordered(es: seq<Entry>) {
    forall i, j :: 0 <= i < j < |es| ==> es[i].due >= es[j].due
  }

  function Times(es: seq<Entry>, id: nat): nat {
    if es == [] then 0 else (if es[0].id == id then 1 else 0) + Times(es[1..], id)
  }

  function TimesFired(fs: seq<(Entry, u64)>, id: nat): nat {
    if fs == [] then 0 else (if fs[0].0.id == id then 1 else 0) + TimesFired(fs[1..], id)
  }

  /** Every id given out is in exactly one place, once: pending, fired or removed. */
  ghost predicate Conserved(w: Wheel) {
    w.next >= 1 && forall id: nat ::
      Times(w.pending, id) + TimesFired(w.fired, id) + Times(w.removed, id) == if 1 <= id < w.next then 1 else 0
  }

  ghost predicate NoneEarly(w: Wheel) {
    forall i :: 0 <= i < |w.fired| ==> w.fired[i].0.due <= w.fired[i].1
  }

  /** The time asked for fits the 64 bits of the clock. */
  predicate InRange(q: Request) { 0 <= q.now + q.msecs < 0x1_0000_0000_0000_0000 }

  /** A timer that waits is due at the time asked for, and one that was called was called no earlier. */
  ghost predicate AsAsked(w: Wheel) {
    && |w.requests| == w.next - 1
    && (forall e :: e in w.pending ==>
          1 <= e.id < w.next && var q := w.requests[e.id - 1]; InRange(q) ==> e.due == q.now + q.msecs)
    && (forall f :: f in w.fired ==>
          1 <= f.0.id < w.next && var q := w.requests[f.0.id - 1]; InRange(q) ==> f.1 >= q.now + q.msecs)
  }

  ghost predicate Sound(w: Wheel) {
    Ordered(w.pending) && Conserved(w) && NoneEarly(w) && AsAsked(w)
  }

  lemma {:induction false} TimesJoin(a: seq<Entry>, b: seq<Entry>, id: nat)
    ensures Times(a + b, id) == Times(a, id) + Times(b, id)
  {
    if a == [] {
      assert a + b == b;
    } else {
      TimesJoin(a[1..], b, id);
      assert (a + b)[1..] == a[1..] + b;
    }
  }

  lemma {:induction false} TimesFiredSnoc(fs: seq<(Entry, u64)>, f: (Entry, u64), id: nat)
    ensures TimesFired(fs + [f], id) == TimesFired(fs, id) + if f.0.id == id then 1 else 0
  {
    if fs == [] {
      assert (fs + [f])[1..] == [];
    } else {
      TimesFiredSnoc(fs[1..], f, id);
      assert (fs + [f])[1..] == fs[1..] + [f];
    }
  }

  lemma TimesOne(e: Entry, id: nat)
    ensures Times([e], id) == if e.id == id then 1 else 0
  {
    assert [e][1..] == [];
  }

  lemma TimesWith(es: seq<Entry>, k: nat, e: Entry, id: nat)
    requires k <= |es|
    ensures Times(es[..k] + [e] + es[k..], id) == Times(es, id) + if e.id == id then 1 else 0
  {
    hide Times;
    TimesJoin(es[..k] + [e], es[k..], id);
    TimesJoin(es[..k], [e], id);
    TimesJoin(es[..k], es[k..], id);
    TimesOne(e, id);
    assert es[..k] + es[k..] == es;
  }

  lemma TimesWithout(es: seq<Entry>, k: nat, id: nat)
    requires k < |es|
    ensures Times(es, id) == Times(es[..k] + es[k + 1..], id) + if es[k].id == id then 1 else 0
  {
    hide Times;
    var rest := es[..k] + es[k + 1..];
    TimesWith(rest, k, es[k], id);
    assert rest[..k] + [es[k]] + rest[k..] == es;
  }

  /** The timer set stands in the list with the time asked for, the others as they were, and all stays sound. */
  lemma SetKeeps(w: Wheel, now: u64, msecs: int)
    requires Sound(w)
    ensures var w' := SetTimer(w, now, msecs);
            && Sound(w') && w'.next == w.next + 1 && w'.fired == w.fired && w'.removed == w.removed
            && exists k :: 0 <= k < |w'.pending| && w'.pending[k].id == w.next
                           && w'.pending[..k] + w'.pending[k + 1..] == w.pending
                           && (0 <= now + msecs < 0x1_0000_0000_0000_0000 ==> w'.pending[k].due == now + msecs)
  {
    hide AsAsked, Conserved, NoneEarly, Ordered;
    SetAsAsked(w, now, msecs);
    SetConserves(w, now, msecs);
    var due := Deadline(now, msecs);
    var k, w' := Place(w.pending, due), SetTimer(w, now, msecs);
    OrderedIn(w.pending, Entry(w.next, due), k);
    assert w'.pending[k] == Entry(w.next, due) && w'.pending[..k] + w'.pending[k + 1..] == w.pending;
  }

  lemma SetConserves(w: Wheel, now: u64, msecs: int)
    requires Conserved(w) && NoneEarly(w)
    ensures Conserved(SetTimer(w, now, msecs)) && NoneEarly(SetTimer(w, now, msecs))
  {
    hide Times, TimesFired;
    var due := Deadline(now, msecs);
    var k, w' := Place(w.pending, due), SetTimer(w, now, msecs);
    forall id: nat
      ensures Times(w'.pending, id) == Times(w.pending, id) + if id == w.next then 1 else 0
    {
      TimesWith(w.pending, k, Entry(w.next, due), id);
    }
  }

  lemma SetAsAsked(w: Wheel, now: u64, msecs: int)
    requires AsAsked(w)
    ensures AsAsked(SetTimer(w, now, msecs))
    ensures 0 <= now + msecs < 0x1_0000_0000_0000_0000 ==> Deadline(now, msecs) == now + msecs
  {
    var w' := SetTimer(w, now, msecs);
    forall e | e in w'.pending
      ensures e in w.pending || e == Entry(w.next, Deadline(now, msecs))
    {
      var k := Place(w.pending, Deadline(now, msecs));
      assert e in w.pending[..k] || e in w.pending[k..] || e == Entry(w.next, Deadline(now, msecs));
    }
    hide SetTimer;
    MoreAsked(w, w', Request(now, msecs));
  }

  lemma MoreAsked(w: Wheel, w': Wheel, q: Request)
    requires AsAsked(w) && w'.requests == w.requests + [q] && w'.fired == w.fired && w'.next == w.next + 1
    requires forall e :: e in w'.pending ==> e in w.pending || e == Entry(w.next, Deadline(q.now, q.msecs))
    ensures AsAsked(w')
  {
    forall e | e in w'.pending
      ensures 1 <= e.id < w'.next && (InRange(w'.requests[e.id - 1]) ==>
                                        e.due == w'.requests[e.id - 1].now + w'.requests[e.id - 1].msecs)
    {
      if e in w.pending {
        assert w'.requests[e.id - 1] == w.requests[e.id - 1];
      }
    }
    forall f | f in w'.fired
      ensures 1 <= f.0.id < w'.next && w'.requests[f.0.id - 1] == w.requests[f.0.id - 1]
    {
    }
  }

  lemma OrderedIn(es: seq<Entry>, e: Entry, k: nat)
    requires Ordered(es) && k == Place(es, e.due)
    ensures Ordered(es[..k] + [e] + es[k..])
  {
    assert k < |es| ==> forall j :: k <= j < |es| ==> es[j].due <= es[k].due;
  }

  /** Where one waits, exactly the timer with that id leaves the list; the others stay in order, and all stays sound. */
  lemma UnsetKeeps(w: Wheel, id: nat)
    requires Sound(w)
    ensures var w' := UnsetTimer(w, id);
            && Sound(w') && w'.fired == w.fired && w'.next == w.next
            && (forall e :: e in w'.pending <==> e in w.pending && e.id != id)
            && if exists e :: e in w.pending && e.id == id then
                 exists k :: && 0 <= k < |w.pending| && w.pending[k].id == id
                             && w'.pending == w.pending[..k] + w.pending[k + 1..]
                             && w'.removed == w.removed + [w.pending[k]]
               else w' == w
  {
    hide Conserved, Ordered, AsAsked, NoneEarly;
    OthersStay(w, id);
    UnsetConserves(w, id);
    UnsetOrdered(w, id);
    UnsetAsAsked(w, id);
  }

  lemma UnsetOrdered(w: Wheel, id: nat)
    requires Ordered(w.pending)
    ensures Ordered(UnsetTimer(w, id).pending)
  {
  }

  lemma UnsetAsAsked(w: Wheel, id: nat)
    requires AsAsked(w) && forall e :: e in UnsetTimer(w, id).pending ==> e in w.pending
    ensures AsAsked(UnsetTimer(w, id))
  {
  }

  lemma UnsetConserves(w: Wheel, id: nat)
    requires Conserved(w) && NoneEarly(w)
    ensures Conserved(UnsetTimer(w, id)) && NoneEarly(UnsetTimer(w, id))
  {
    hide Times, TimesFired;
    var k, w' := Find(w.pending, id), UnsetTimer(w, id);
    if k < |w.pending| {
      forall i: nat
        ensures Times(w'.pending, i) + Times(w'.removed, i) == Times(w.pending, i) + Times(w.removed, i)
      {
        TimesWithout(w.pending, k, i);
        TimesJoin(w.removed, [w.pending[k]], i);
        TimesOne(w.pending[k], i);
      }
    }
  }

  /** An id is in the list once at most, so it is gone after its removal. */
  lemma OthersStay(w: Wheel, id: nat)
    requires Conserved(w)
    ensures forall e :: e in UnsetTimer(w, id).pending <==> e in w.pending && e.id != id
  {
    hide Times, TimesFired;
    var k := Find(w.pending, id);
    if k < |w.pending| {
      TimesWithout(w.pending, k, id);
      var rest := w.pending[..k] + w.pending[k + 1..];
      assert Times(w.pending, id) <= 1;
      NotThere(rest, id);
      assert forall e :: e in w.pending <==> e in rest || e == w.pending[k];
    }
  }

  lemma {:induction false} NotThere(es: seq<Entry>, id: nat)
    ensures Times(es, id) == 0 <==> forall e :: e in es ==> e.id != id
  {
    if es != [] {
      NotThere(es[1..], id);
      assert forall e :: e in es <==> e == es[0] || e in es[1..];
    }
  }

  lemma {:induction false} NotFired(fs: seq<(Entry, u64)>, id: nat)
    ensures TimesFired(fs, id) == 0 <==> forall f :: f in fs ==> f.0.id != id
  {
    if fs != [] {
      NotFired(fs[1..], id);
      assert forall f :: f in fs <==> f == fs[0] || f in fs[1..];
    }
  }

  lemma FireKeeps(w: Wheel, now: u64)
    requires Sound(w) && w.pending != [] && w.pending[0].due <= now
    ensures Sound(Fire(w, now))
  {
    hide Times, TimesFired;
    forall id: nat
      ensures Times(w.pending, id) == Times(w.pending[1..], id) + if w.pending[0].id == id then 1 else 0
    {
      TimesJoin([w.pending[0]], w.pending[1..], id);
      TimesOne(w.pending[0], id);
      assert [w.pending[0]] + w.pending[1..] == w.pending;
    }
    forall id: nat
      ensures TimesFired(Fire(w, now).fired, id) == TimesFired(w.fired, id) + if w.pending[0].id == id then 1 else 0
    {
      TimesFiredSnoc(w.fired, (w.pending[0], now), id);
    }
  }

  lemma {:induction false} DoAllKeeps(w: Wheel, ops: seq<Op>)
    requires Sound(w)
    ensures Sound(DoAll(w, ops))
  {
    hide Sound, SetTimer, UnsetTimer;
    if ops != [] {
      DoAllKeeps(w, ops[..|ops| - 1]);
      var v := DoAll(w, ops[..|ops| - 1]);
      match ops[|ops| - 1]
      case Set(now, msecs) => SetKeeps(v, now, msecs);
      case Unset(id) => UnsetKeeps(v, id);
    }
  }

  /** nexttimer keeps everything, whatever the clock says and whatever the callbacks set and void. */
  lemma {:induction false} NextKeeps(w: Wheel, rounds: seq<Round>, final: u64)
    requires Sound(w)
    ensures Sound(Next(w, rounds, final).0)
    decreases |rounds|, |w.pending|
  {
    hide Sound;
    var r := RoundOf(rounds, final);
    if w.pending != [] && w.pending[0].due <= r.now {
      FireKeeps(w, r.now);
      DoAllKeeps(Fire(w, r.now), r.ops);
      NextKeeps(DoAll(Fire(w, r.now), r.ops), Rest(rounds), final);
    }
  }

  // ----- runs

  datatype Call = Calls(op: Op) | NextTimer(rounds: seq<Round>, final: u64)

  function Run(w: Wheel, calls: seq<Call>): Wheel {
    if calls == [] then w
    else
      var v := Run(w, calls[..|calls| - 1]);
      match calls[|calls| - 1]
      case Calls(op) => Do(v, op)
      case NextTimer(rounds, final) => Next(v, rounds, final).0
  }

  /**
   Over any run, every id given out is in exactly one place and only once, no timer was
   called before its deadline, and the list is in order of deadline.
   */
  lemma {:induction false} RunConserves(calls: seq<Call>)
    ensures Sound(Run(IDLE, calls))
  {
    hide Sound, Do, Next;
    if calls == [] {
      IdleSound();
    } else {
      RunConserves(calls[..|calls| - 1]);
      var v := Run(IDLE, calls[..|calls| - 1]);
      match calls[|calls| - 1]
      case Calls(op) =>
        DoAllKeeps(v, [op]);
        DoOne(v, op);
      case NextTimer(rounds, final) => NextKeeps(v, rounds, final);
    }
  }

  lemma DoOne(w: Wheel, op: Op)
    ensures DoAll(w, [op]) == Do(w, op)
  {
    assert [op][..0] == [];
  }

  lemma IdleSound()
    ensures Sound(IDLE)
  {
  }

  // ----- what stays so over a run

  /** Nothing is taken back of the history. */
  ghost predicate Grown(w: Wheel, w': Wheel) {
    w.next <= w'.next && w.fired <= w'.fired && w.removed <= w'.removed && w.requests <= w'.requests
  }

  lemma {:induction false} OpsGrow(w: Wheel, ops: seq<Op>)
    ensures Grown(w, DoAll(w, ops))
  {
    if ops != [] {
      OpsGrow(w, ops[..|ops| - 1]);
    }
  }

  lemma {:induction false} NextGrows(w: Wheel, rounds: seq<Round>, final: u64)
    ensures Grown(w, Next(w, rounds, final).0)
    decreases |rounds|, |w.pending|
  {
    var r := RoundOf(rounds, final);
    if w.pending != [] && w.pending[0].due <= r.now {
      NoOps(Fire(w, r.now));
      OpsGrow(Fire(w, r.now), r.ops);
      hide DoAll;
      NextGrows(DoAll(Fire(w, r.now), r.ops), Rest(rounds), final);
    }
  }

  lemma {:induction false} RunGrows(w: Wheel, before: seq<Call>, after: seq<Call>)
    ensures Grown(Run(w, before), Run(w, before + after))
    decreases |after|
  {
    hide Do, Next;
    if after == [] {
      assert before + after == before;
    } else {
      var n := |after| - 1;
      RunGrows(w, before, after[..n]);
      var calls := before + after;
      assert calls[..|calls| - 1] == before + after[..n];
      var v := Run(w, before + after[..n]);
      match after[n]
      case Calls(op) =>
        OpsGrow(v, [op]);
        DoOne(v, op);
      case NextTimer(rounds, final) => NextGrows(v, rounds, final);
    }
  }

  /** In no run is a timer that was removed called or in the list, however the run goes on. */
  lemma RemovedForGood(before: seq<Call>, after: seq<Call>, e: Entry)
    requires e in Run(IDLE, before).removed
    ensures var w := Run(IDLE, before + after);
            (forall f :: f in w.fired ==> f.0.id != e.id) && (forall x :: x in w.pending ==> x.id != e.id)
  {
    var w := Run(IDLE, before + after);
    RunGrows(IDLE, before, after);
    RunConserves(before + after);
    hide Run;
    assert e in w.removed;
    NotThere(w.removed, e.id);
    NotThere(w.pending, e.id);
    NotFired(w.fired, e.id);
  }

  /** After an unsettimer that found its timer, that timer is never called. */
  lemma UnsetForGood(before: seq<Call>, id: nat, after: seq<Call>)
    requires exists e :: e in Run(IDLE, before).pending && e.id == id
    ensures forall f :: f in Run(IDLE, before + [Calls(Unset(id))] + after).fired ==> f.0.id != id
  {
    var w := Run(IDLE, before);
    var calls := before + [Calls(Unset(id))];
    assert calls[..|calls| - 1] == before;
    assert Run(IDLE, calls) == UnsetTimer(w, id);
    RunConserves(before);
    hide Run;
    UnsetKeeps(w, id);
    hide UnsetTimer;
    var v := UnsetTimer(w, id);
    assert v.removed[|v.removed| - 1] in v.removed;
    RemovedForGood(calls, after, v.removed[|v.removed| - 1]);
  }

  /**
   In every run, also for timers set by callbacks: a timer is called at no reading before
   the time it was set at plus its timeout.  Timer `id` is the one of the `id`-th request.
   */
  lemma NeverBeforeTimeout(calls: seq<Call>, f: (Entry, u64))
    requires f in Run(IDLE, calls).fired
    ensures var q := Run(IDLE, calls).requests;
            1 <= f.0.id <= |q| && (0 <= q[f.0.id - 1].now + q[f.0.id - 1].msecs < 0x1_0000_0000_0000_0000 ==>
                                     f.1 >= q[f.0.id - 1].now + q[f.0.id - 1].msecs)
  {
    RunConserves(calls);
    hide Run;
  }

  /** So it is for a timer set between two calls. */
  lemma SetThenCalled(before: seq<Call>, now: u64, msecs: int, after: seq<Call>, f: (Entry, u64))
    requires 0 <= now + msecs < 0x1_0000_0000_0000_0000
    requires f in Run(IDLE, before + [Calls(Set(now, msecs))] + after).fired && f.0.id == Run(IDLE, before).next
    ensures f.1 >= now + msecs
  {
    var calls := before + [Calls(Set(now, msecs))];
    assert calls[..|calls| - 1] == before;
    RunConserves(before);
    var w, v := Run(IDLE, before), Run(IDLE, calls);
    assert v.requests == w.requests + [Request(now, msecs)];
    RunGrows(IDLE, calls, after);
    NeverBeforeTimeout(calls + after, f);
    hide Run;
    assert v.requests[w.next - 1] == Request(now, msecs);
  }

  // ----- which timers fire

  function Stamped(es: seq<Entry>, now: u64): seq<(Entry, u64)> {
    if es == [] then [] else [(es[0], now)] + Stamped(es[1..], now)
  }

  /** With quiet callbacks and the clock at `now`: all timers or none, as the head, the latest, is due or not. */
  lemma {:induction false} AllOrNone(w: Wheel, now: u64)
    requires Ordered(w.pending)
    ensures var (w', left) := Next(w, [], now);
            && w'.next == w.next && w'.removed == w.removed && w'.requests == w.requests
            && if forall e :: e in w.pending ==> e.due <= now then
                 w'.pending == [] && left == 0 && w'.fired == w.fired + Stamped(w.pending, now)
               else
                 w' == w && left == ToLong(w.pending[0].due - now)
    decreases |w.pending|
  {
    if w.pending != [] && w.pending[0].due <= now {
      var v := Fire(w, now);
      assert DoAll(v, []) == v;
      assert forall e :: e in w.pending <==> e == w.pending[0] || e in v.pending;
      assert forall e :: e in w.pending ==> e.due <= w.pending[0].due;
      AllOrNone(v, now);
      Append3(w.fired, [(w.pending[0], now)], Stamped(v.pending, now));
    } else if w.pending != [] {
      assert w.pending[0] in w.pending;
    }
  }

  /** What the clock says in round `k`. */
  function ReadingAt(rounds: seq<Round>, final: u64, k: nat): u64 {
    if k < |rounds| then rounds[k].now else final
  }

  /** The clock does not go back, and no callback sets a timer due after the next reading; it may void any. */
  ghost predicate Tame(rounds: seq<Round>, final: u64) {
    forall k :: 0 <= k < |rounds| ==>
      var next := ReadingAt(rounds, final, k + 1);
      rounds[k].now <= next && forall op :: op in rounds[k].ops ==> SetsBy(op, next)
  }

  predicate SetsBy(op: Op, now: u64) { op.Set? ==> Deadline(op.now, op.msecs) <= now }

  ghost predicate AllElapsed(es: seq<Entry>, now: u64) { forall e :: e in es ==> e.due <= now }

  ghost predicate NoneElapsed(es: seq<Entry>, now: u64) { forall e :: e in es ==> e.due > now }

  lemma {:induction false} OpsElapsed(w: Wheel, ops: seq<Op>, now: u64)
    requires AllElapsed(w.pending, now) && forall op :: op in ops ==> SetsBy(op, now)
    ensures AllElapsed(DoAll(w, ops).pending, now)
  {
    hide Do, SetsBy, AllElapsed;
    if ops != [] {
      OpsElapsed(w, ops[..|ops| - 1], now);
      assert ops[|ops| - 1] in ops;
      OpElapsed(DoAll(w, ops[..|ops| - 1]), ops[|ops| - 1], now);
    }
  }

  lemma OpElapsed(w: Wheel, op: Op, now: u64)
    requires AllElapsed(w.pending, now) && SetsBy(op, now)
    ensures AllElapsed(Do(w, op).pending, now)
  {
  }

  lemma TameRest(rounds: seq<Round>, final: u64)
    requires Tame(rounds, final)
    ensures Tame(Rest(rounds), final)
    ensures var r, next := RoundOf(rounds, final), RoundOf(Rest(rounds), final).now;
            r.now <= next && forall op :: op in r.ops ==> SetsBy(op, next)
  {
    hide SetsBy;
    if rounds != [] {
      assert forall k :: 0 <= k < |Rest(rounds)| ==> Rest(rounds)[k] == rounds[k + 1];
      assert RoundOf(Rest(rounds), final).now == ReadingAt(rounds, final, 1);
    }
  }

  /** Once all have elapsed, tame callbacks leave nothing that keeps the loop from the end of the list. */
  lemma {:induction false} AllFire(w: Wheel, rounds: seq<Round>, final: u64)
    requires Tame(rounds, final) && AllElapsed(w.pending, RoundOf(rounds, final).now)
    ensures Next(w, rounds, final).0.pending == []
    decreases |rounds|, |w.pending|
  {
    if w.pending != [] {
      hide Tame, SetsBy, DoAll;
      var r, next := RoundOf(rounds, final), RoundOf(Rest(rounds), final).now;
      TameRest(rounds, final);
      assert w.pending[0] in w.pending;
      var v := Fire(w, r.now);
      assert AllElapsed(v.pending, next);
      OpsElapsed(v, r.ops, next);
      NoOps(v);
      AllFire(DoAll(v, r.ops), Rest(rounds), final);
    }
  }

  lemma NoOps(w: Wheel)
    ensures DoAll(w, []) == w
  {
  }

  /**
   The documentation's promise, that all timers whose timeouts have elapsed are triggered:
   with tame callbacks it is kept exactly when all timers have elapsed or none has.
   */
  lemma FiresTheElapsedExactly(w: Wheel, rounds: seq<Round>, final: u64)
    requires Ordered(w.pending) && Tame(rounds, final)
    ensures var now := RoundOf(rounds, final).now;
            NoneElapsed(Next(w, rounds, final).0.pending, now)
            <==> AllElapsed(w.pending, now) || NoneElapsed(w.pending, now)
  {
    var now := RoundOf(rounds, final).now;
    if w.pending != [] && w.pending[0].due <= now {
      assert forall e :: e in w.pending ==> e.due <= w.pending[0].due;
      hide Tame, Next;
      AllFire(w, rounds, final);
    } else if w.pending != [] {
      assert w.pending[0] in w.pending;
    }
  }

  /** The timers after `k` rounds, or when the loop stopped before. */
  function After(w: Wheel, rounds: seq<Round>, final: u64, k: nat): Wheel
    decreases k
  {
    var r := RoundOf(rounds, final);
    if k == 0 || w.pending == [] || w.pending[0].due > r.now then w
    else After(DoAll(Fire(w, r.now), r.ops), Rest(rounds), final, k - 1)
  }

  /** After `k` rounds the head is not due at the next reading, and stands in front of a timer elapsed at `now`. */
  ghost predicate Blocks(w: Wheel, rounds: seq<Round>, final: u64, now: u64, k: nat) {
    var es := After(w, rounds, final, k).pending;
    es != [] && es[0].due > ReadingAt(rounds, final, k) && !NoneElapsed(es, now)
  }

  /** With any clock and any callbacks: an elapsed timer is left waiting exactly when some round leaves such a head. */
  lemma WaitsExactly(w: Wheel, rounds: seq<Round>, final: u64, now: u64)
    ensures !NoneElapsed(Next(w, rounds, final).0.pending, now) <==> exists k :: Blocks(w, rounds, final, now, k)
  {
    var n := StopsAfter(w, rounds, final);
    if !NoneElapsed(Next(w, rounds, final).0.pending, now) {
      assert Blocks(w, rounds, final, now, n);
    } else {
      forall k
        ensures !Blocks(w, rounds, final, now, k)
      {
        NoHead(w, rounds, final, now, k);
      }
    }
  }

  /** The loop stops after finitely many rounds, at an empty list or a head that is not due. */
  lemma {:induction false} StopsAfter(w: Wheel, rounds: seq<Round>, final: u64) returns (n: nat)
    ensures var (v, left) := Next(w, rounds, final);
            && v == After(w, rounds, final, n)
            && if v.pending == [] then left == 0
               else v.pending[0].due > ReadingAt(rounds, final, n)
                    && left == ToLong(v.pending[0].due - ReadingAt(rounds, final, n))
    decreases |rounds|, |w.pending|
  {
    hide ToLong;
    var r := RoundOf(rounds, final);
    if w.pending == [] || w.pending[0].due > r.now {
      n := 0;
    } else {
      NoOps(Fire(w, r.now));
      var v := DoAll(Fire(w, r.now), r.ops);
      assert rounds == [] ==> |v.pending| < |w.pending|;
      hide DoAll, Fire;
      n := StopsAfter(v, Rest(rounds), final);
      assert ReadingAt(Rest(rounds), final, n) == ReadingAt(rounds, final, n + 1);
      n := n + 1;
    }
  }

  lemma {:induction false} NoHead(w: Wheel, rounds: seq<Round>, final: u64, now: u64, k: nat)
    requires NoneElapsed(Next(w, rounds, final).0.pending, now)
    ensures !Blocks(w, rounds, final, now, k)
    decreases k
  {
    var r := RoundOf(rounds, final);
    if w.pending != [] && w.pending[0].due <= r.now && k > 0 {
      hide DoAll, Fire, NoneElapsed;
      NoHead(DoAll(Fire(w, r.now), r.ops), Rest(rounds), final, now, k - 1);
      assert ReadingAt(Rest(rounds), final, k - 1) == ReadingAt(rounds, final, k);
    }
  }

  lemma {:induction false} OrderKept(w: Wheel, ops: seq<Op>)
    requires Ordered(w.pending)
    ensures Ordered(DoAll(w, ops).pending)
  {
    hide Ordered;
    if ops != [] {
      OrderKept(w, ops[..|ops| - 1]);
      OrderOne(DoAll(w, ops[..|ops| - 1]), ops[|ops| - 1]);
    }
  }

  lemma OrderOne(w: Wheel, op: Op)
    requires Ordered(w.pending)
    ensures Ordered(Do(w, op).pending)
  {
    match op
    case Set(now, msecs) =>
      var due := Deadline(now, msecs);
      OrderedIn(w.pending, Entry(w.next, due), Place(w.pending, due));
    case Unset(id) =>
  }

  lemma {:induction false} OrderAfter(w: Wheel, rounds: seq<Round>, final: u64, k: nat)
    requires Ordered(w.pending)
    ensures Ordered(After(w, rounds, final, k).pending)
    decreases k
  {
    var r := RoundOf(rounds, final);
    if k > 0 && w.pending != [] && w.pending[0].due <= r.now {
      OrderKept(Fire(w, r.now), r.ops);
      hide Ordered;
      OrderAfter(DoAll(Fire(w, r.now), r.ops), Rest(rounds), final, k - 1);
    }
  }

  /**
   With any clock and any callbacks: where timers are left, the result is the documented
   time from the last reading to the next timer, the one due soonest, exactly when the
   first and the last deadline left are the same.  It is the time to the first of them.
   */
  lemma NextTimeExactly(w: Wheel, rounds: seq<Round>, final: u64) returns (n: nat)
    requires Ordered(w.pending)
    ensures var ((v, left), now) := (Next(w, rounds, final), ReadingAt(rounds, final, n));
            && v == After(w, rounds, final, n)
            && (v.pending != [] ==>
                  var soonest := v.pending[|v.pending| - 1];
                  && (forall e :: e in v.pending ==> soonest.due <= e.due)
                  && (v.pending[0].due - now < 0x8000_0000_0000_0000 ==> left == v.pending[0].due - now > 0)
                  && (left == ToLong((soonest.due - now) % WORD) <==> v.pending[0].due == soonest.due))
  {
    hide Next, After;
    n := StopsAfter(w, rounds, final);
    OrderAfter(w, rounds, final, n);
    var v := After(w, rounds, final, n);
    if v.pending != [] {
      ToLongInjective(v.pending[0].due, v.pending[|v.pending| - 1].due, ReadingAt(rounds, final, n));
    }
  }

  lemma ToLongInjective(a: u64, b: u64, now: u64)
    ensures ToLong((a - now) % WORD) == ToLong((b - now) % WORD) ==> a == b
    ensures a > now ==> (a - now) % WORD == a - now
  {
    if ToLong((a - now) % WORD) == ToLong((b - now) % WORD) {
      Wraps(a - now);
      Wraps(b - now);
    }
  }

  lemma Wraps(x: int)
    requires -WORD < x < WORD
    ensures x % WORD == if x < 0 then x + WORD else x
  {
  }

  /** An elapsed timer behind a later one waits, and the result is the time until the last, not the next. */
  lemma ElapsedButWaiting()
    ensures var w := DoAll(IDLE, [Set(0, 5), Set(0, 10)]);
            Next(w, [], 7) == (w, 3) && w.pending == [Entry(2, 10), Entry(1, 5)] && w.next == 3
  {
    var one := SetTimer(IDLE, 0, 5);
    assert one.pending == [Entry(1, 5)];
    var two := SetTimer(one, 0, 10);
    assert [Set(0, 5), Set(0, 10)][..1] == [Set(0, 5)];
    assert [Set(0, 5)][..0] == [];
    assert DoAll(IDLE, [Set(0, 5)]) == one;
  }

  /** A callback that sets a timer again keeps an elapsed one waiting, though both had elapsed. */
  lemma RearmedBlocks()
    ensures var w, rounds := DoAll(IDLE, [Set(0, 5), Set(0, 10)]), [Round(20, [Set(20, 100)])];
            && AllElapsed(w.pending, 20) && !Tame(rounds, 20) && Blocks(w, rounds, 20, 20, 1)
            && Next(w, rounds, 20).0.pending == [Entry(3, 120), Entry(1, 5)]
  {
    ElapsedButWaiting();
    var w := DoAll(IDLE, [Set(0, 5), Set(0, 10)]);
    hide DoAll, Next, Blocks, Tame, AllElapsed;
    RearmedFrom(w);
  }

  lemma RearmedFrom(w: Wheel)
    requires w.pending == [Entry(2, 10), Entry(1, 5)] && w.next == 3
    ensures var rounds := [Round(20, [Set(20, 100)])];
            && AllElapsed(w.pending, 20) && !Tame(rounds, 20) && Blocks(w, rounds, 20, 20, 1)
            && Next(w, rounds, 20).0.pending == [Entry(3, 120), Entry(1, 5)]
  {
    hide DoAll;
    var r := Round(20, [Set(20, 100)]);
    Rearmed(w);
    var v := DoAll(Fire(w, 20), r.ops);
    assert After(w, [r], 20, 1) == After(v, [], 20, 0) == v;
    assert v.pending[1] in v.pending;
    assert Set(20, 100) in r.ops && [r][0] == r;
  }

  lemma Rearmed(w: Wheel)
    requires w.pending == [Entry(2, 10), Entry(1, 5)] && w.next == 3
    ensures DoAll(Fire(w, 20), [Set(20, 100)]).pending == [Entry(3, 120), Entry(1, 5)]
  {
    hide DoAll;
    DoOne(Fire(w, 20), Set(20, 100));
  }
}
