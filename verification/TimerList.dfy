/** The timers' linked list and the methods on it (timer.cc, timer.h). */
module TimerList {
  import opened Bytes
  import opened Timers

  class Timer {
    const id: nat
    const due: u64
    var link: Timer?

    constructor (id: nat, due: u64)
      ensures this.id == id && this.due == due && link == null
    {
      this.id, this.due, link := id, due, null;
    }
  }

  ghost function EntriesOf(ts: seq<Timer>): (es: seq<Entry>)
    ensures |es| == |ts|
  {
    seq(|ts|, i requires 0 <= i < |ts| => Entry(ts[i].id, ts[i].due))
  }

  lemma EntriesWith(ts: seq<Timer>, k: nat, t: Timer)
    requires k <= |ts|
    ensures EntriesOf(ts[..k] + [t] + ts[k..]) == EntriesOf(ts)[..k] + [Entry(t.id, t.due)] + EntriesOf(ts)[k..]
  {
  }

  lemma EntriesWithout(ts: seq<Timer>, k: nat)
    requires k < |ts|
    ensures EntriesOf(ts[..k] + ts[k + 1..]) == EntriesOf(ts)[..k] + EntriesOf(ts)[k + 1..]
  {
  }

  lemma PlaceIs(es: seq<Entry>, due: u64, k: nat)
    requires k <= |es| && (forall i :: 0 <= i < k ==> es[i].due >= due) && (k < |es| ==> es[k].due < due)
    ensures k == Place(es, due)
  {
  }

  lemma FindIs(es: seq<Entry>, id: nat, k: nat)
    requires k <= |es| && (forall i :: 0 <= i < k ==> es[i].id != id) && (k < |es| ==> es[k].id == id)
    ensures k == Find(es, id)
  {
  }

  class Server {
    var timer: Timer?
    var lastid: nat
    ghost var list: seq<Timer>
    ghost var repr: set<Timer>
    ghost var fired: seq<(Entry, u64)>
    ghost var removed: seq<Entry>
    ghost var requests: seq<Request>

    constructor ()
      ensures Linked() && View() == IDLE && repr == {}
    {
      timer, lastid := null, 1;
      list, repr, fired, removed, requests := [], {}, [], [], [];
    }

    /** The chain of links is the list. */
    ghost predicate Linked()
      reads this, repr
    {
      && (forall t :: t in list ==> t in repr)
      && Chained(list, timer)
      && Distinct(list)
    }

    /** The server's pointer and the timers' links, each pointing to the next timer. */
    static ghost function Pointers(list: seq<Timer>, head: Timer?): (ps: seq<Timer?>)
      reads list
      ensures |ps| == |list| + 1 && ps[0] == head
    {
      [head] + seq(|list|, i requires 0 <= i < |list| reads list => list[i].link)
    }

    static ghost predicate Chained(list: seq<Timer>, head: Timer?)
      reads list
    {
      Pointers(list, head) == Ended(list)
    }

    static ghost function Ended(list: seq<Timer>): (ps: seq<Timer?>)
      ensures |ps| == |list| + 1 && ps[|list|] == null
    {
      seq(|list| + 1, i requires 0 <= i => At(list, i))
    }

    static ghost predicate Distinct(list: seq<Timer>) {
      forall i, j :: 0 <= i < j < |list| ==> list[i] != list[j]
    }

    static lemma DistinctWith(list: seq<Timer>, k: nat, t: Timer)
      requires Distinct(list) && k <= |list| && t !in list
      ensures Distinct(list[..k] + [t] + list[k..])
      ensures forall i :: 0 <= i < |list| ==> list[i] != t
    {
    }

    static lemma DistinctWithout(list: seq<Timer>, k: nat)
      requires Distinct(list) && k < |list|
      ensures Distinct(list[..k] + list[k + 1..])
    {
    }

    static lemma NeighbourOnly(list: seq<Timer>, k: nat)
      requires Distinct(list) && k < |list|
      ensures forall i :: 0 <= i < |list| && i != k ==> list[i] != list[k]
    {
    }

    static ghost function At(list: seq<Timer>, k: nat): Timer? {
      if k < |list| then list[k] else null
    }

    ghost function View(): Wheel
      reads this
    {
      Wheel(EntriesOf(list), lastid, fired, removed, requests)
    }

    /** The timer before position `k`; none stands for the server's own pointer. */
    ghost predicate Before(before: Timer?, k: nat)
      reads this
    {
      k <= |list| && before == if k == 0 then null else list[k - 1]
    }

    /** *tp = to */
    method Relink(before: Timer?, to: Timer?, ghost k: nat)
      requires Distinct(list) && Before(before, k)
      modifies this`timer, list`link
      ensures Pointers(list, timer) == old(Pointers(list, timer))[k := to]
      ensures forall t :: t in list && t != before ==> t.link == old(t.link)
    {
      if before == null {
        timer := to;
      } else {
        NeighbourOnly(list, k - 1);
        before.link := to;
      }
    }

    /** *tp = t, with t's link already where *tp pointed. */
    method LinkIn(before: Timer?, t: Timer, ghost k: nat)
      requires Linked() && Before(before, k) && t !in repr && t.link == At(list, k)
      modifies this`timer, this`list, this`repr, repr
      ensures Linked() && repr == old(repr) + {t} && list == old(list)[..k] + [t] + old(list)[k..]
      ensures t.link == old(t.link)
    {
      ghost var was := list;
      DistinctWith(was, k, t);
      hide Distinct, Pointers, Ended, At;
      Relink(before, t, k);
      ChainedWith(was, k, t, timer);
      list := was[..k] + [t] + was[k..];
      repr := repr + {t};
    }

    static lemma ChainedWith(was: seq<Timer>, k: nat, t: Timer, head: Timer?)
      requires k <= |was| && t.link == At(was, k) && Pointers(was, head) == Ended(was)[k := t]
      ensures Chained(was[..k] + [t] + was[k..], head)
    {
      var now, ps := was[..k] + [t] + was[k..], Pointers(was, head);
      forall i | 0 <= i <= |now|
        ensures Pointers(now, head)[i] == Ended(now)[i]
      {
        assert Pointers(now, head)[i] == if i <= k then ps[i] else if i == k + 1 then t.link else ps[i - 1];
      }
    }

    /** *tp = t->link */
    method LinkOut(before: Timer?, t: Timer, ghost k: nat)
      requires Linked() && Before(before, k) && k < |list| && t == list[k]
      modifies this`timer, this`list, repr
      ensures Linked() && list == old(list)[..k] + old(list)[k + 1..]
    {
      ghost var was := list;
      DistinctWithout(was, k);
      NextOf(was, timer, k);
      hide Distinct, Pointers, Ended, At;
      Relink(before, t.link, k);
      ChainedWithout(was, k, timer);
      list := was[..k] + was[k + 1..];
    }

    static lemma NextOf(list: seq<Timer>, head: Timer?, k: nat)
      requires Chained(list, head) && k < |list|
      ensures list[k].link == Ended(list)[k + 1]
    {
      assert Pointers(list, head)[k + 1] == list[k].link;
    }

    static lemma ChainedWithout(was: seq<Timer>, k: nat, head: Timer?)
      requires k < |was| && Pointers(was, head) == Ended(was)[k := Ended(was)[k + 1]]
      ensures Chained(was[..k] + was[k + 1..], head)
    {
      var now, ps := was[..k] + was[k + 1..], Pointers(was, head);
      forall i | 0 <= i <= |now|
        ensures Pointers(now, head)[i] == Ended(now)[i]
      {
        assert Pointers(now, head)[i] == if i <= k then ps[i] else ps[i + 1];
      }
    }

    static lemma ChainedRest(list: seq<Timer>, head: Timer?)
      requires Chained(list, head) && list != []
      ensures list[0] == head && Chained(list[1..], list[0].link)
    {
      assert Ended(list)[0] == list[0];
      var ps, qs := Pointers(list[1..], list[0].link), Pointers(list, head);
      assert forall i :: 0 <= i < |ps| ==> ps[i] == qs[i + 1] == Ended(list[1..])[i];
    }

    /** The loop of settimer: on to the first timer due before `time`. */
    method LaterThan(time: u64) returns (before: Timer?, tp: Timer?, ghost k: nat)
      requires Linked()
      ensures Before(before, k) && tp == At(list, k) && k == Place(EntriesOf(list), time)
    {
      before, tp, k := null, timer, 0;
      while tp != null && tp.due >= time
        invariant 0 <= k <= |list| && tp == At(list, k) && Before(before, k)
        invariant forall i :: 0 <= i < k ==> list[i].due >= time
        decreases |list| - k
      {
        NextOf(list, timer, k);
        before, tp := tp, tp.link;
        k := k + 1;
      }
      PlaceIs(EntriesOf(list), time, k);
    }

    /**
     settimer, at the time `now`: one timer more, with a new id and the time asked for, in
     front of those due earlier and behind all others.
     */
    method SetTimer(now: u64, msecs: int) returns (id: nat)
      requires Linked()
      modifies this, repr
      ensures Linked() && fresh(repr - old(repr))
      ensures View() == Timers.SetTimer(old(View()), now, msecs) && id == old(lastid)
      ensures 0 <= now + msecs < 0x1_0000_0000_0000_0000 ==>
                exists k :: && 0 <= k <= |old(list)|
                            && View().pending == old(View()).pending[..k] + [Entry(id, now + msecs)]
                                                 + old(View()).pending[k..]
                            && (forall i :: 0 <= i < k ==> old(View()).pending[i].due >= now + msecs)
                            && (k < |old(list)| ==> old(View()).pending[k].due < now + msecs)
    {
      hide Distinct, Chained, Place;
      var time := Deadline(now, msecs);
      var t := new Timer(lastid, time);
      lastid := lastid + 1;
      var before, tp;
      ghost var k;
      before, tp, k := LaterThan(time);
      EntriesWith(list, k, t);
      t.link := tp;
      requests := requests + [Request(now, msecs)];
      LinkIn(before, t, k);
      id := t.id;
      if 0 <= now + msecs < 0x1_0000_0000_0000_0000 {
        InRangeDue(now, msecs);
      }
    }

    lemma InRangeDue(now: u64, msecs: int)
      requires 0 <= now + msecs < 0x1_0000_0000_0000_0000
      ensures Deadline(now, msecs) == now + msecs
    {
    }

    /** The loop of unsettimer: on to the timer with that id. */
    method Named(id: nat) returns (before: Timer?, t: Timer?, ghost k: nat)
      requires Linked()
      ensures Before(before, k) && t == At(list, k) && k == Find(EntriesOf(list), id)
      ensures t != null <==> exists x :: x in list && x.id == id
    {
      before, t, k := null, timer, 0;
      while t != null && t.id != id
        invariant 0 <= k <= |list| && t == At(list, k) && Before(before, k)
        invariant forall i :: 0 <= i < k ==> list[i].id != id
        decreases |list| - k
      {
        NextOf(list, timer, k);
        before, t := t, t.link;
        k := k + 1;
      }
      FindIs(EntriesOf(list), id, k);
    }

    /** unsettimer: the timer with that id leaves the list, and no other. */
    method UnsetTimer(id: nat) returns (found: bool)
      requires Linked()
      modifies this, repr
      ensures Linked() && repr == old(repr)
      ensures View() == Timers.UnsetTimer(old(View()), id)
      ensures found <==> exists t :: t in old(list) && t.id == id
      ensures !found ==> View() == old(View())
      ensures found ==> exists k :: && 0 <= k < |old(list)| && old(list)[k].id == id
                                    && list == old(list)[..k] + old(list)[k + 1..]
                                    && removed == old(removed) + [old(View()).pending[k]]
    {
      hide Distinct, Chained, Find;
      var before, t;
      ghost var k;
      before, t, k := Named(id);
      if t != null {
        EntriesWithout(list, k);
        removed := removed + [Entry(t.id, t.due)];
        LinkOut(before, t, k);
      }
      found := t != null;
    }

    method Apply(op: Op)
      requires Linked()
      modifies this, repr
      ensures Linked() && fresh(repr - old(repr)) && View() == Do(old(View()), op)
    {
      hide Linked;
      match op {
        case Set(now, msecs) => var id := SetTimer(now, msecs);
        case Unset(id) => var found := UnsetTimer(id);
      }
    }

    /** What a callback does to the timers, one call after the other. */
    method Callback(ops: seq<Op>)
      requires Linked()
      modifies this, repr
      ensures Linked() && fresh(repr - old(repr))
      ensures View() == DoAll(old(View()), ops)
    {
      hide Linked, Do;
      var i := 0;
      assert ops[..0] == [];
      while i < |ops|
        invariant 0 <= i <= |ops| && Linked() && fresh(repr - old(repr))
        invariant View() == DoAll(old(View()), ops[..i])
      {
        assert ops[..i + 1][..i] == ops[..i];
        Apply(ops[i]);
        i := i + 1;
      }
      assert ops[..i] == ops;
    }

    /** The head of the list is unlinked and its timer comes out. */
    method Pop(now: u64) returns (t: Timer)
      requires Linked() && timer != null
      modifies this
      ensures Linked() && repr == old(repr)
      ensures View() == Fire(old(View()), now) && t == old(list)[0]
    {
      t := timer;
      NextOf(list, timer, 0);
      ChainedRest(list, timer);
      timer := t.link;
      fired := fired + [(Entry(t.id, t.due), now)];
      list := list[1..];
      assert View().pending == Fire(old(View()), now).pending;
    }

    /** nexttimer */
    method NextTimer(rounds: seq<Round>, final: u64) returns (left: int)
      requires Linked()
      modifies this, repr
      ensures Linked() && fresh(repr - old(repr))
      ensures (View(), left) == Next(old(View()), rounds, final)
    {
      hide Linked, DoAll;
      var rs := rounds;
      HeadIs();
      while timer != null
        invariant Linked() && fresh(repr - old(repr))
        invariant (timer == null <==> list == []) && (timer != null ==> timer == list[0])
        invariant Next(View(), rs, final) == Next(old(View()), rounds, final)
        decreases |rs|, |list|
      {
        var r := RoundOf(rs, final);
        if timer.due > r.now {
          return ToLong(timer.due - r.now);
        }
        var t := Pop(r.now);
        NothingDone(View());
        Callback(r.ops);
        rs := Rest(rs);
        HeadIs();
      }
      left := 0;
    }

    lemma HeadIs()
      requires Linked()
      ensures timer == null <==> list == []
      ensures timer != null ==> timer == list[0]
    {
    }

    lemma NothingDone(w: Wheel)
      ensures DoAll(w, []) == w
    {
    }
  }
}
