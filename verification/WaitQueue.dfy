/** The wait queue as a sequence: what enqueue and dequeue do to its contents. */
module WaitQueue {

  ghost predicate NoDup<T>(q: seq<T>) {
    forall i, j :: 0 <= i < j < |q| ==> q[i] != q[j]
  }

  /** `q` without the first occurrence of `x`. */
  function Without<T(==)>(q: seq<T>, x: T): seq<T> {
    if q == [] then []
    else if q[0] == x then q[1..]
    else [q[0]] + Without(q[1..], x)
  }

  lemma {:induction false} WithoutMembers<T>(q: seq<T>, x: T)
    requires NoDup(q)
    ensures NoDup(Without(q, x))
    ensures forall y :: y in Without(q, x) <==> y in q && y != x
  {
    if q != [] && q[0] != x {
      WithoutMembers(q[1..], x);
      assert q == [q[0]] + q[1..];
      assert forall j :: 0 < j < |q| ==> q[j] != q[0];
      assert q[0] !in q[1..];
    } else if q != [] {
      assert q == [x] + q[1..];
    }
  }

  lemma {:induction false} WithoutAt<T>(q: seq<T>, k: nat)
    requires NoDup(q) && k < |q|
    ensures Without(q, q[k]) == q[..k] + q[k + 1..]
  {
    if k > 0 {
      WithoutAt(q[1..], k - 1);
      assert q[1..][..k - 1] == q[1..k] && q[1..][k..] == q[k + 1..];
      assert [q[0]] + q[1..k] == q[..k];
    }
  }

  lemma PrependNoDup<T>(q: seq<T>, x: T)
    requires NoDup(q) && x !in q
    ensures NoDup([x] + q)
  {
  }
}
