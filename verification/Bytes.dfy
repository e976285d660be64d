/** Bytes, sized integers and their little-endian form (Msg.h, convert.cc). */
module Bytes {
  type byte = n: int | 0 <= n < 0x100
  type u16 = n: int | 0 <= n < 0x1_0000
  type u32 = n: int | 0 <= n < 0x1_0000_0000
  type u64 = n: int | 0 <= n < 0x1_0000_0000_0000_0000

  /** The low `n` bytes of a number, lowest first. */
  function Le(n: nat, v: nat): (e: seq<byte>)
    ensures |e| == n
  {
    if n == 0 then [] else [v % 0x100] + Le(n - 1, v / 0x100)
  }

  function Le16(v: u16): (e: seq<byte>)
    ensures |e| == 2
  {
    Le(2, v)
  }

  function Le32(v: u32): (e: seq<byte>)
    ensures |e| == 4
  {
    Le(4, v)
  }

  function Le64(v: u64): (e: seq<byte>)
    ensures |e| == 8
  {
    Le(8, v)
  }

  function Of16(a: byte, b: byte): u16 { a + 0x100 * b }

  function Of32(lo: u16, hi: u16): u32 { lo + 0x1_0000 * hi }

  function Of64(lo: u32, hi: u32): u64 { lo + 0x1_0000_0000 * hi }

  /** `e` stands in `b` at `p`. */
  ghost predicate Has(b: seq<byte>, p: nat, e: seq<byte>) {
    p + |e| <= |b| && b[p..p + |e|] == e
  }

  lemma HasParts(b: seq<byte>, p: nat, e1: seq<byte>, e2: seq<byte>)
    requires Has(b, p, e1 + e2)
    ensures Has(b, p, e1) && Has(b, p + |e1|, e2)
  {
    assert b[p..p + |e1|] == (e1 + e2)[..|e1|];
    assert b[p + |e1|..p + |e1 + e2|] == (e1 + e2)[|e1|..];
  }

  /** `n` bytes of `m` from `p`, zero where `m` has none. */
  function Window(m: seq<byte>, p: nat, n: nat): (w: seq<byte>)
    ensures |w| == n
    ensures forall i :: 0 <= i < n && p + i < |m| ==> w[i] == m[p + i]
  {
    seq(n, i requires 0 <= i => if p + i < |m| then m[p + i] else 0)
  }

  /** The k-th byte of an integer: a shift by 8k, cut to 8 bits. */
  function Octet(v: u32, k: nat): byte
    requires k < 4
  {
    (if k == 0 then v else if k == 1 then v / 0x100 else if k == 2 then v / 0x1_0000 else v / 0x100_0000) % 0x100
  }

  lemma LeStep(n: nat, v: nat)
    ensures Le(n + 1, v) == [v % 0x100] + Le(n, v / 0x100)
    ensures Le(0, v) == []
  {
  }

  lemma LeOctets(v: u32)
    ensures v < 0x100 ==> Le(1, v) == [v] == [Octet(v, 0)]
    ensures v < 0x1_0000 ==> Le(2, v) == [Octet(v, 0), Octet(v, 1)]
    ensures Le(4, v) == [Octet(v, 0), Octet(v, 1), Octet(v, 2), Octet(v, 3)]
  {
    hide Le;
    var q1, q2, q3 := v / 0x100, v / 0x1_0000, v / 0x100_0000;
    Quotients(v);
    LeStep(0, v);
    LeStep(1, v);
    LeStep(0, q1);
    LeStep(3, v);
    LeStep(2, q1);
    LeStep(1, q2);
    LeStep(0, q3);
  }

  lemma Quotients(v: u32)
    ensures v / 0x100 / 0x100 == v / 0x1_0000 && v / 0x1_0000 / 0x100 == v / 0x100_0000 < 0x100
    ensures v < 0x1_0000 ==> v / 0x100 < 0x100
  {
  }

  lemma HighOctets(v: u32)
    ensures v < 0x1_0000 ==> Octet(v, 2) == 0 && Octet(v, 3) == 0
  {
  }

  lemma OctetsSum(v: u32)
    ensures v == Octet(v, 0) + 0x100 * Octet(v, 1) + 0x1_0000 * Octet(v, 2) + 0x100_0000 * Octet(v, 3)
  {
    Quotients(v);
  }

  /** Two numbers side by side. */
  lemma {:induction false} LeJoin(n: nat, m: nat, lo: nat, hi: nat, unit: nat)
    requires unit == Power(n) && lo < unit
    ensures Le(n + m, lo + unit * hi) == Le(n, lo) + Le(m, hi)
  {
    hide Le;
    if n == 0 {
      LeStep(0, lo);
    } else {
      var rest := Power(n - 1);
      assert unit * hi == 0x100 * (rest * hi);
      Carry(lo, rest * hi);
      LeJoin(n - 1, m, lo / 0x100, hi, rest);
      LeStep(n - 1 + m, lo + unit * hi);
      LeStep(n - 1, lo);
      Append3([lo % 0x100], Le(n - 1, lo / 0x100), Le(m, hi));
    }
  }

  function Power(n: nat): nat { if n == 0 then 1 else 0x100 * Power(n - 1) }

  lemma Carry(lo: nat, x: nat)
    ensures (lo + 0x100 * x) % 0x100 == lo % 0x100 && (lo + 0x100 * x) / 0x100 == lo / 0x100 + x
  {
  }

  lemma LeHalves(v: u64)
    ensures Le64(v) == Le32(v % 0x1_0000_0000) + Le32(v / 0x1_0000_0000)
  {
    assert Power(4) == 0x1_0000_0000;
    LeJoin(4, 4, v % 0x1_0000_0000, v / 0x1_0000_0000, 0x1_0000_0000);
  }

  lemma Append3<T>(a: seq<T>, b: seq<T>, c: seq<T>)
    ensures (a + b) + c == a + (b + c)
  {
  }
}
