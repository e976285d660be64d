/**
 Length-prefixed frames on a byte stream (transport.cc).  A system call may move only
 part of what was asked or be interrupted; the schedule says what each one does, and
 once it is used up every call moves as much as it can.
 */
module Transport {
  import opened Bytes
  import opened Layout
  import opened Wire
  import opened Message

  datatype Sys = Eintr | Upto(most: nat) | Broken

  /** A short count: at least one byte, at most what the schedule allows. */
  function Clip(n: nat, s: seq<Sys>): (k: nat)
    requires n > 0
    ensures 1 <= k <= n
  {
    if s == [] || !s[0].Upto? then n
    else if s[0].most < 1 then 1
    else if s[0].most < n then s[0].most
    else n
  }

  /** `mem` with `e` written at `p`. */
  function Splice(mem: seq<byte>, p: nat, e: seq<byte>): (s: seq<byte>)
    requires p + |e| <= |mem|
    ensures |s| == |mem|
  {
    mem[..p] + e + mem[p + |e|..]
  }

  /** The first `done` bytes of the stream `all` went to `p`, turning `mem` into `now` and leaving `left`. */
  ghost predicate Copied(now: seq<byte>, mem: seq<byte>, p: nat, all: seq<byte>, left: seq<byte>, done: nat) {
    done <= |all| && p + done <= |mem| && left == all[done..] && now == Splice(mem, p, all[..done])
  }

  lemma NothingCopied(mem: seq<byte>, p: nat, all: seq<byte>)
    requires p <= |mem|
    ensures Copied(mem, mem, p, all, all, 0)
  {
  }

  lemma CopiedOn(mem: seq<byte>, p: nat, all: seq<byte>, now: seq<byte>, left: seq<byte>, done: nat,
                 now': seq<byte>, left': seq<byte>, k: nat)
    requires Copied(now, mem, p, all, left, done) && Copied(now', now, p + done, left, left', k)
    ensures Copied(now', mem, p, all, left', done + k) && |left'| == |all| - (done + k) == |left| - k
  {
    assert all[..done + k] == all[..done] + all[done..][..k];
  }

  /** How many calls of a schedule fail. */
  function Failures(s: seq<Sys>): nat {
    if s == [] then 0 else (if s[0].Broken? then 1 else 0) + Failures(s[1..])
  }

  /** What is left of a schedule in which `n` more calls have failed. */
  ghost predicate Later(now: seq<Sys>, was: seq<Sys>, n: nat) {
    && |now| <= |was| && (forall x :: x in now ==> x in was)
    && Failures(was) == Failures(now) + n && (n > 0 ==> Broken in was)
  }

  /** What a system call did; Failed stands for an error other than EINTR, or a throw. */
  datatype Io = Interrupted | Failed | Moved(n: nat)

  /** A descriptor: bytes still to be read from it, bytes written to it. */
  class Connection {
    var inp: seq<byte>
    var out: seq<byte>
    var rsched: seq<Sys>
    var wsched: seq<Sys>

    constructor (inp: seq<byte>, rsched: seq<Sys>, wsched: seq<Sys>)
      ensures this.inp == inp && out == [] && this.rsched == rsched && this.wsched == wsched
    {
      this.inp, out := inp, [];
      this.rsched, this.wsched := rsched, wsched;
    }

    /** read(2): 0 bytes at the end of the stream only, or an error. */
    method Read(m: Msg, n: nat) returns (r: Io)
      requires 0 < n && m.pos + n <= m.data.Length
      modifies this`inp, this`rsched, m.data
      ensures !r.Moved? ==> |rsched| < |old(rsched)| && inp == old(inp) && m.data[..] == old(m.data[..])
      ensures Later(rsched, old(rsched), if r.Failed? then 1 else 0)
      ensures r.Moved? ==>
                && r.n <= n && r.n <= |old(inp)| && (r.n == 0 <==> old(inp) == [])
                && inp == old(inp)[r.n..]
                && m.data[..] == Splice(old(m.data[..]), m.pos, old(inp)[..r.n])
    {
      var s := rsched;
      if s != [] {
        rsched := s[1..];
        if s[0].Eintr? {
          return Interrupted;
        }
        if s[0].Broken? {
          return Failed;
        }
      }
      if inp == [] {
        return Moved(0);
      }
      var k := Clip(if n < |inp| then n else |inp|, s);
      m.CopyIn(inp[..k]);
      inp := inp[k..];
      r := Moved(k);
    }

    method Write(bytes: seq<byte>) returns (r: Io)
      requires bytes != []
      modifies this`out, this`wsched
      ensures r.Interrupted? ==> |wsched| < |old(wsched)| && out == old(out)
      ensures Later(wsched, old(wsched), if r.Failed? then 1 else 0)
      ensures r.Failed? ==> out == old(out)
      ensures r.Moved? ==> 1 <= r.n <= |bytes| && out == old(out) + bytes[..r.n]
    {
      var s := wsched;
      if s != [] {
        wsched := s[1..];
        if s[0].Eintr? {
          return Interrupted;
        }
        if s[0].Broken? {
          return Failed;
        }
      }
      var k := Clip(|bytes|, s);
      out := out + bytes[..k];
      r := Moved(k);
    }

    /** mread: what fits before the end, and the cursor moves by what came; `threw` when there is no room. */
    method MRead(m: Msg, count: nat) returns (r: Io, threw: bool)
      requires 0 < count && m.end <= m.data.Length
      modifies this`inp, this`rsched, m`pos, m.data
      ensures threw <==> m.end <= old(m.pos)
      ensures Later(rsched, old(rsched), if !threw && r.Failed? then 1 else 0)
      ensures !threw && !r.Moved? ==> |rsched| < |old(rsched)|
      ensures threw || !r.Moved? ==> inp == old(inp) && m.pos == old(m.pos) && m.data[..] == old(m.data[..])
      ensures !threw && r.Moved? ==>
                && r.n <= count && (r.n == 0 <==> old(inp) == [])
                && m.pos == old(m.pos) + r.n <= m.end
                && Copied(m.data[..], old(m.data[..]), old(m.pos), old(inp), inp, r.n)
    {
      if m.end <= m.pos {
        return Failed, true;
      }
      var n := m.end - m.pos;
      if n > count {
        n := count;
      }
      r := Read(m, n);
      threw := false;
      if r.Moved? {
        m.pos := m.pos + r.n;
      }
    }

    /**
     readn: `count` bytes, or a throw when the buffer or the stream runs out.  Only EINTR is
     an error to it: any other makes it subtract -1, so one byte more is read for each.
     */
    method ReadN(m: Msg, count: nat) returns (ok: bool, ghost errors: nat)
      requires m.pos <= m.data.Length && m.end <= m.data.Length
      modifies this`inp, this`rsched, m`pos, m.data
      ensures Later(rsched, old(rsched), errors)
      ensures ok <==> count == 0 || (old(m.pos) + count + errors <= m.end && count + errors <= |old(inp)|)
      ensures ok ==> m.pos == old(m.pos) + count + errors <= m.data.Length
      ensures ok ==> Copied(m.data[..], old(m.data[..]), old(m.pos), old(inp), inp, count + errors)
      ensures ok ==> (m.pos == old(m.pos) + count <==> errors == 0)
      ensures count == 0 ==> errors == 0
    {
      hide Copied;
      var num := count;
      errors := 0;
      ghost var p0, mem, all := m.pos, m.data[..], inp;
      NothingCopied(mem, p0, all);
      while num > 0
        invariant 0 <= num <= count + errors && m.pos == p0 + (count + errors - num) <= m.data.Length
        invariant num < count + errors ==> m.pos <= m.end
        invariant |inp| == |all| - (count + errors - num)
        invariant Copied(m.data[..], mem, p0, all, inp, count + errors - num)
        invariant Later(rsched, old(rsched), errors) && (count == 0 ==> num == errors == 0)
        decreases 2 * |rsched| + num
      {
        ghost var now, left := m.data[..], inp;
        var r, threw := MRead(m, num);
        if threw || r == Moved(0) {
          return false, errors;
        }
        match r
        case Interrupted =>
        case Failed =>
          num := num + 1;
          errors := errors + 1;
        case Moved(k) =>
          CopiedOn(mem, p0, all, now, left, count + errors - num, m.data[..], inp, k);
          num := num - k;
      }
      ok := true;
    }

    /** sendmsg: everything from the front of the message to its end; false stands for the throw. */
    method SendMsg(m: Msg) returns (ok: bool)
      requires m.end <= m.data.Length
      modifies this`out, this`wsched, m`pos
      ensures ok ==> out == old(out) + m.Text() && m.pos == m.end
      ensures Later(wsched, old(wsched), if ok then 0 else 1)
      ensures !ok ==> exists k :: 0 <= k < m.end && out == old(out) + m.Text()[..k]
    {
      hide Failures;
      m.pos := 0;
      while m.pos < m.end
        invariant m.pos <= m.end && out == old(out) + m.data[..m.pos]
        invariant Later(wsched, old(wsched), 0)
        decreases |wsched| + m.end - m.pos
      {
        var r := Write(m.data[m.pos..m.end]);
        match r
        case Interrupted =>
        case Failed =>
          assert m.Text()[..m.pos] == m.data[..m.pos];
          return false;
        case Moved(k) =>
          assert m.data[..m.pos] + m.data[m.pos..m.end][..k] == m.data[..m.pos + k];
          m.pos := m.pos + k;
      }
      ok := true;
    }

    /** The first half of recvmsg: the length word is read and unpacked. */
    method RecvLength(m: Msg) returns (ok: bool, msize: u32, ghost errors: nat)
      requires m.size <= m.data.Length
      modifies this`inp, this`rsched, m, m.data
      ensures m.data == old(m.data) && m.size == m.end == old(m.size)
      ensures Later(rsched, old(rsched), errors)
      ensures ok <==> 4 + errors <= m.size && 4 + errors <= |old(inp)|
      ensures ok ==> && m.pos == 4 && m.mode.Unpack? && GetU32(old(inp), 0) == Got(msize, 4)
                     && Copied(m.data[..], old(m.data[..]), 0, old(inp), inp, 4 + errors)
    {
      hide GetU32, Copied, Holds, Later;
      m.mode := Unpack;
      m.pos := 0;
      m.end := m.size;
      ghost var all, mem := inp, m.data[..];
      ok, errors := ReadN(m, 4);
      msize := 0;
      if ok {
        m.pos := 0;
        WordRead(mem, all, m.data[..], inp, m.end, errors);
        msize := m.PU32(0);
      }
    }

    /**
     recvmsg: the next frame, whole, when its length word is at least 4 and less than the
     buffer, and no read fails; as many bytes behind it are lost as reads failed, `errors`
     while the length word was read and `more` after it, and there must be room for them.
     */
    method RecvMsg(m: Msg) returns (r: Outcome, ghost errors: nat, ghost more: nat)
      requires m.size <= m.data.Length
      modifies this`inp, this`rsched, m, m.data
      ensures m.data == old(m.data) && m.size == old(m.size)
      ensures Later(rsched, old(rsched), errors + more)
      ensures r.Returned? <==>
                && 4 + errors <= m.size && 4 + errors <= |old(inp)|
                && 4 <= Num(old(inp), 0, 4) < m.size && Num(old(inp), 0, 4) + more <= m.size
                && Num(old(inp), 0, 4) + errors + more <= |old(inp)|
      ensures errors + more == 0 ==> r == Received(old(inp), m.size)
      ensures errors + more == 0 && r.Returned? ==>
                m.end == r.k && m.mode.Unpack? && m.Text() == old(inp)[..r.k]
      ensures r.Returned? ==> r.k == Num(old(inp), 0, 4) && inp == old(inp)[r.k + errors + more..]
    {
      hide GetU32, Copied, Num, Received, Failures;
      ghost var all, mem := inp, m.data[..];
      more := 0;
      var ok, msize;
      ok, msize, errors := RecvLength(m);
      ghost var head, left := m.data[..], inp;
      if !ok {
        return Threw, errors, 0;
      }
      ReadU32(all, 0);
      var size: u32 := (msize as int - 4) % 0x1_0000_0000;
      if size >= m.end - m.pos {
        return Threw, errors, 0;
      }
      WordRead(mem, all, head, left, m.end, errors);
      ok, more := ReadN(m, size);
      if !ok {
        return Threw, errors, more;
      }
      FrameRead(mem, all, head, left, msize, m.data[..], inp, errors, more);
      m.end := m.pos;
      r := Returned(msize);
    }
  }

  /** After the length word is read, it is the one at the front of the stream. */
  lemma WordRead(mem: seq<byte>, all: seq<byte>, head: seq<byte>, left: seq<byte>, end: nat, e: nat)
    requires 4 + e <= end <= |mem| && Copied(head, mem, 0, all, left, 4 + e)
    ensures |head| == |mem| && |all| == |left| + 4 + e && GetU32(head[..end], 0) == GetU32(all, 0)
  {
    assert head[..4 + e] == all[..4 + e];
    assert forall i :: 0 <= i < 4 ==> head[..end][i] == head[..4 + e][i] && all[i] == all[..4 + e][i];
  }

  /** Without errors the buffer has the frame; with errors the stream is so many bytes further. */
  lemma FrameRead(mem: seq<byte>, all: seq<byte>, head: seq<byte>, left: seq<byte>, n: nat, got: seq<byte>,
                  rest: seq<byte>, e: nat, e': nat)
    requires 4 <= n && Copied(head, mem, 0, all, left, 4 + e) && Copied(got, head, 4, left, rest, n - 4 + e')
    ensures n + e + e' <= |all| && rest == all[n + e + e'..] && n <= |got|
    ensures e == e' == 0 ==> got[..n] == all[..n]
  {
    if e == e' == 0 {
      assert got[..n] == all[..4] + all[4..][..n - 4];
    }
  }

  /** What recvmsg makes of a stream: the length of the frame in front, or a throw. */
  function Received(inp: seq<byte>, size: u32): (r: Outcome)
    ensures r.Returned? ==> 4 <= r.k <= |inp| && r.k < size
    ensures r.Returned? <==> |inp| >= 4 && 4 <= Num(inp, 0, 4) < size && Num(inp, 0, 4) <= |inp|
    ensures r.Returned? ==> r.k == Num(inp, 0, 4)
  {
    assert |inp| >= 4 ==> NumAt(inp, 0, 4, GetU32(inp, 0).value) by {
      ReadU32(inp, 0);
    }
    match GetU32(inp, 0)
    case Short => Threw
    case Got(n, _) => if 4 <= n < size && n <= |inp| then Returned(n) else Threw
  }
}
