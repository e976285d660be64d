/**
 The client's table of tags (rpc.cc): a growable vector of slots, the number of
 slots in use, and a hint where the next free slot may be.  A tag is a slot index
 plus the lower tag bound.  The table is generic in what a slot points to: the
 step model stores call identities, the heap model stores Rpc nodes.
 */
module TagTable {
  import opened Options

  datatype Table<T> = Table(nwait: nat, mwait: nat, freetag: nat, wait: seq<Option<T>>)

  /** The number of slots in use. */
  function Occupied<T>(wait: seq<Option<T>>): nat {
    if wait == [] then 0
    else Occupied(wait[..|wait| - 1]) + if wait[|wait| - 1].Some? then 1 else 0
  }

  ghost predicate PowerOfTwo(n: nat) {
    n == 1 || (n > 1 && n % 2 == 0 && PowerOfTwo(n / 2))
  }

  /** What every operation keeps; `span` is the number of tags between the bounds. */
  ghost predicate Valid<T>(t: Table<T>, span: nat) {
    && |t.wait| == t.mwait
    && t.nwait == Occupied(t.wait)
    && (t.mwait > 0 ==> t.freetag < t.mwait && PowerOfTwo(t.mwait))
    && (t.mwait > 1 ==> t.mwait < 2 * span)
  }

  /** The first free slot in [lo, hi). */
  function FirstFree<T>(wait: seq<Option<T>>, lo: nat, hi: nat): (r: Option<nat>)
    requires lo <= hi <= |wait|
    ensures r.Some? ==> lo <= r.value < hi && wait[r.value].None?
                        && forall j :: lo <= j < r.value ==> wait[j].Some?
    ensures r.None? ==> forall j :: lo <= j < hi ==> wait[j].Some?
    decreases hi - lo
  {
    if lo == hi then None
    else if wait[lo].None? then Some(lo)
    else FirstFree(wait, lo + 1, hi)
  }

  /** The search of gettag: the hint, then upwards from it, then the slots below it. */
  function Scan<T>(t: Table<T>): (r: Option<nat>)
    requires |t.wait| == t.mwait && t.freetag < t.mwait
    ensures r.Some? ==> r.value < t.mwait && t.wait[r.value].None?
    ensures r.None? ==> forall j :: 0 <= j < t.mwait ==> t.wait[j].Some?
  {
    if t.wait[t.freetag].None? then Some(t.freetag)
    else match FirstFree(t.wait, t.freetag, t.mwait)
      case Some(i) => Some(i)
      case None => FirstFree(t.wait, 0, t.freetag)
  }

  function Doubled(mwait: nat): nat {
    if mwait == 0 then 1 else 2 * mwait
  }

  function Grow<T>(t: Table<T>): Table<T> {
    var mw := Doubled(t.mwait);
    Table(t.nwait, mw, t.mwait, t.wait + Empty(mw - t.mwait))
  }

  /** The table after the loop test of gettag has passed: doubled if it was full. */
  function Tested<T>(t: Table<T>): Table<T> {
    if t.nwait != t.mwait then t else Grow(t)
  }

  function Empty<T>(n: nat): (w: seq<Option<T>>)
    ensures |w| == n && forall i :: 0 <= i < n ==> w[i] == None
  {
    seq(n, i => None)
  }

  function Take<T>(t: Table<T>, i: nat, r: T): Table<T>
    requires i < |t.wait|
  {
    t.(nwait := t.nwait + 1, wait := t.wait[i := Some(r)])
  }

  function Release<T>(t: Table<T>, i: nat): Table<T>
    requires i < |t.wait| && t.nwait > 0
  {
    t.(nwait := t.nwait - 1, wait := t.wait[i := None], freetag := i)
  }

  // ----- counting

  lemma {:induction false} OccupiedUpdate<T>(wait: seq<Option<T>>, i: nat, v: Option<T>)
    requires i < |wait|
    ensures Occupied(wait[i := v]) + (if wait[i].Some? then 1 else 0)
            == Occupied(wait) + if v.Some? then 1 else 0
  {
    var n := |wait| - 1;
    if i == n {
      assert wait[i := v][..n] == wait[..n];
    } else {
      OccupiedUpdate(wait[..n], i, v);
      assert wait[i := v][..n] == wait[..n][i := v];
    }
  }

  lemma {:induction false} OccupiedExtend<T>(wait: seq<Option<T>>, n: nat)
    ensures Occupied(wait + Empty<T>(n)) == Occupied(wait)
  {
    if n == 0 {
      assert wait + Empty<T>(0) == wait;
    } else {
      var w := wait + Empty<T>(n);
      assert w[..|w| - 1] == wait + Empty<T>(n - 1);
      OccupiedExtend(wait, n - 1);
    }
  }

  /** A table is full exactly when the count reaches its length. */
  lemma {:induction false} FullIffCounted<T>(wait: seq<Option<T>>)
    ensures Occupied(wait) <= |wait|
    ensures Occupied(wait) == |wait| <==> forall j :: 0 <= j < |wait| ==> wait[j].Some?
  {
    if wait != [] {
      var n := |wait| - 1;
      FullIffCounted(wait[..n]);
      assert forall j :: 0 <= j < n ==> wait[..n][j] == wait[j];
    }
  }

  // ----- the operations keep the table valid

  /** By counting, gettag never falls out of its search: a table that is not full has a slot. */
  lemma ScanFindsSlot<T>(t: Table<T>, span: nat)
    requires Valid(t, span) && t.nwait != t.mwait
    ensures t.mwait > 0 && t.freetag < t.mwait && Scan(t).Some?
  {
    FullIffCounted(t.wait);
  }

  /** The slot found is the first free one from the hint on, and around the end. */
  lemma ScanFirst<T>(t: Table<T>, j: nat)
    requires |t.wait| == t.mwait && t.freetag < t.mwait && Scan(t).Some? && j < t.mwait && t.wait[j].None?
    ensures var i := Scan(t).value;
            if t.freetag <= i then t.freetag <= j ==> i <= j else j < t.freetag && i <= j
  {
  }

  /** Doubling keeps the slots and the table valid, and the slot found then is the first of the new ones. */
  lemma GrowKeepsValid<T>(t: Table<T>, span: nat)
    requires Valid(t, span) && t.mwait < span && t.nwait == t.mwait
    ensures var t' := Grow(t);
            && Valid(t', span) && t'.nwait < t'.mwait && t'.wait[..t.mwait] == t.wait
            && t'.mwait == (if t.mwait == 0 then 1 else 2 * t.mwait) && Scan(t') == Some(t.mwait)
  {
    OccupiedExtend(t.wait, Doubled(t.mwait) - t.mwait);
  }

  /** Only the slot taken changes. */
  lemma TakeKeepsValid<T>(t: Table<T>, i: nat, r: T, span: nat)
    requires Valid(t, span) && i < t.mwait && t.wait[i].None?
    ensures var t' := Take(t, i, r);
            && Valid(t', span) && t'.mwait == t.mwait && t'.freetag == t.freetag && t'.wait[i] == Some(r)
            && forall j :: 0 <= j < t.mwait && j != i ==> t'.wait[j] == t.wait[j]
  {
    OccupiedUpdate(t.wait, i, Some(r));
  }

  /** Only the slot given up changes, and it is the next one taken. */
  lemma ReleaseKeepsValid<T>(t: Table<T>, i: nat, span: nat)
    requires Valid(t, span) && i < t.mwait && t.wait[i].Some?
    ensures t.nwait > 0
    ensures var t' := Release(t, i);
            && Valid(t', span) && t'.mwait == t.mwait && Scan(t') == Some(i)
            && forall j :: 0 <= j < t.mwait && j != i ==> t'.wait[j] == t.wait[j]
  {
    OccupiedUpdate<T>(t.wait, i, None);
  }

  /** A power of two below 2m is at most m when m is one itself. */
  lemma {:induction false} PowerOfTwoBelowDouble(n: nat, m: nat)
    requires PowerOfTwo(n) && PowerOfTwo(m) && n < 2 * m
    ensures n <= m
  {
    if n > 1 && m > 1 {
      PowerOfTwoBelowDouble(n / 2, m / 2);
    }
  }

  /** Doubling under the 255 tags of a mounted client goes to 256 slots and never passes them. */
  lemma TableBounded<T>(t: Table<T>, span: nat)
    requires Valid(t, span) && span <= 255
    ensures t.mwait <= 256
    ensures span == 1 ==> t.mwait <= 1
    ensures span == 255 ==> (t.mwait >= span <==> t.mwait == 256)
  {
    if t.mwait > 1 {
      assert PowerOfTwo(4) && PowerOfTwo(16) && PowerOfTwo(64) && PowerOfTwo(256);
      PowerOfTwoBelowDouble(t.mwait, 256);
    }
  }
}
