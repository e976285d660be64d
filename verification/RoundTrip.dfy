/** Packing a message and unpacking it into an empty Fcall, on the real buffer. */
module RoundTrip {
  import opened Bytes
  import opened Layout
  import opened Options
  import opened Wire
  import opened WireProofs
  import opened Message

  /**
   For every kind constructBlankStorage accepts: if pack returns a length, unpack returns
   the same length and every carried field unchanged exactly when the message is faithful.
   For all kinds but TWalk the length comes back in any case.
   */
  method PackThenUnpack(m: Msg, sent: FcallBox, got: FcallBox) returns (k: Outcome, k': Outcome)
    requires m.size <= m.data.Length && sent != got
    requires sent.storage.Some? && WellFormed(sent.storage.value) && Consistent(sent.storage.value)
    requires got.storage.None?
    modifies m, m.data, sent, got
    ensures sent.storage == old(sent.storage)
    ensures k.Returned?
    ensures k.k > 0 ==>
              var f := sent.storage.value;
              && (!f.body.Walk? ==> k' == k)
              && (k' == k && got.storage.Some? && SameFields(f, got.storage.value) <==> Faithful(f))
  {
    hide LaidWhole, PackedEnd, FewNames, Stands, EndOf, Known, Selects;
    ghost var env;
    k, env := m.PackMessage(sent);
    if k.k == 0 {
      return k, k;
    }
    k' := m.UnpackMessage(got);
    ghost var f := sent.storage.value;
    ghost var b := m.Text();
    PackedUnpacks(f, env, k.k, b);
    if f.body.Walk? {
      WalkReturns(f, env, b, got, m);
    } else {
      WiredExactly(f, env);
    }
  }

  lemma WalkReturns(f: Fcall, env: Env, b: seq<byte>, got: FcallBox, m: Msg)
    requires WellFormed(f) && CountFits(f) && EnvFits(f, env) && Consistent(f) && f.body.Walk?
    requires |b| < 0x1_0000_0000 && b == Le32(|b|) + Enc(f, env)
    requires got.FilledFrom(Blank(f.hdr.ty).value, b, 4, m.pos, |b|)
    ensures (if m.pos > |b| then 0 else m.pos) == |b| && SameFields(f, got.storage.value) <==> Faithful(f)
  {
    hide EncBody, GetBody, EncHdr, EncStr;
    assert Has(b, 4, Enc(f, env));
    WalkBack(f, env, b, 4);
    KindOnly(Blank(f.hdr.ty).value, f.body, f.hdr.(fid := 0), b, 7);
    HeaderFirst(f, env, b, 4);
    var g := got.storage.value;
    if forall j :: 0 <= j < f.body.nwname ==> Trunc(f.body.wname[j]) == [] {
      forall i | 0 <= i < f.body.nwname
        ensures g.body.wname[i] == []
      {
        EmptyNamesRead(f, env, b, 4, i);
        assert Msg.NameAt(b, 17 + 2 * i, g.body.wname[i]);
      }
    }
  }
}
