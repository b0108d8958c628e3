/** RTP output sequence numbers: input number plus a running 16-bit difference, with the difference
    accounted for in the encoder callback, the DTMF repeats and the decoder. Direct path. */
module OutputSequence {
  import opened Options
  import opened Words

  /** seqDiff of the outgoing SSRC, and the sequence numbers sent so far. */
  datatype Out = Out(seqDiff: u16, sent: seq<u16>)

  function Adjust(o: Out, n: int): (r: Out) {
    o.(seqDiff := (o.seqDiff + n) % U16)
  }

  function Number(inSeq: u16, seqDiff: u16, i: nat): (n: u16) {
    (inSeq + seqDiff + i) % U16
  }

  /** k packets sent for input number inSeq, the difference growing by one after each. */
  function Emit(o: Out, inSeq: u16, k: nat): (r: Out) {
    Out((o.seqDiff + k) % U16, o.sent + seq(k, i requires 0 <= i < k => Number(inSeq, o.seqDiff, i)))
  }

  /** What the encoder hands over: an ordinary packet, or a DTMF end event, which is sent three times. */
  datatype Tx = Single | EndEvent

  function Repeats(t: Tx): (n: nat) {
    if t.EndEvent? then 2 else 0
  }

  function Total(txs: seq<Tx>): (n: nat) {
    if txs == [] then 0 else Total(txs[..|txs| - 1]) + 1 + Repeats(txs[|txs| - 1])
  }

  /** An input packet goes through the decoder and encoder, which yields any number of packets, or is a
      DTMF event packet that is replaced by the given number of copies, or bypasses the numbering and
      is sent under a number of its own. */
  datatype Input =
    | Audio(seqNum: u16, txs: seq<Tx>)
    | Dtmf(seqNum: u16, copies: nat)
    | Bypass(seqNum: u16, number: u16)

  function Outputs(x: Input): (n: nat) {
    match x
    case Audio(_, txs) => Total(txs)
    case Dtmf(_, copies) => copies
    case Bypass(_, _) => 1
  }

  /** One input packet on the direct path. */
  function Direct(o: Out, x: Input): (r: Out) {
    if x.Bypass? then o.(sent := o.sent + [x.number])
    else Adjust(Emit(o, x.seqNum, Outputs(x)), -1)
  }

  function RunDirect(o: Out, xs: seq<Input>): (r: Out) {
    if xs == [] then o else Direct(RunDirect(o, xs[..|xs| - 1]), xs[|xs| - 1])
  }

  /** The packets sent for the first i inputs. */
  function Before(xs: seq<Input>, i: nat): (n: nat)
    requires i <= |xs|
  {
    if i == 0 then 0 else Before(xs, i - 1) + Outputs(xs[i - 1])
  }

  lemma {:induction false} BeforePrefix(xs: seq<Input>, i: nat, n: nat)
    requires i <= n <= |xs|
    ensures Before(xs[..n], i) == Before(xs, i)
    decreases i
  {
    if i > 0 { BeforePrefix(xs, i - 1, n); }
  }

  lemma {:induction false} BeforeMonotonic(xs: seq<Input>, i: nat, j: nat)
    requires i <= j <= |xs|
    ensures Before(xs, i) <= Before(xs, j)
    decreases j
  {
    if i < j { BeforeMonotonic(xs, i, j - 1); }
  }

  /** The difference after a run: one more per packet sent, one less per input. */
  lemma {:induction false} SeqDiffAfter(o: Out, xs: seq<Input>)
    ensures RunDirect(o, xs).seqDiff == (o.seqDiff + Before(xs, |xs|) - |xs|) % U16
    ensures |RunDirect(o, xs).sent| == |o.sent| + Before(xs, |xs|)
    ensures o.sent <= RunDirect(o, xs).sent
  {
    if xs != [] {
      var n := |xs| - 1;
      SeqDiffAfter(o, xs[..n]);
      BeforePrefix(xs, n, n);
      var d, k := o.seqDiff + Before(xs, n) - n, Outputs(xs[n]);
      AddMod16(d, k);
      AddMod16(d + k, -1);
    }
  }

  /** The number of the j-th packet sent for input i: that of input i, shifted by the initial difference
      and by the packets sent before it, less one per earlier input, unless it bypasses the numbering. */
  function NumberAt(o: Out, xs: seq<Input>, i: nat, j: nat): (n: u16)
    requires i < |xs|
  {
    if xs[i].Bypass? then xs[i].number else (xs[i].seqNum + o.seqDiff + Before(xs, i) - i + j) % U16
  }

  /** The last input of a run. */
  lemma NumberOfLast(o: Out, xs: seq<Input>, j: nat)
    requires xs != [] && j < Outputs(xs[|xs| - 1])
    ensures var n := |xs| - 1;
      var k := |o.sent| + Before(xs, n) + j;
      && k < |RunDirect(o, xs).sent|
      && RunDirect(o, xs).sent[k] == NumberAt(o, xs, n, j)
  {
    var n := |xs| - 1;
    SeqDiffAfter(o, xs[..n]);
    BeforePrefix(xs, n, n);
    AddMod16(o.seqDiff + Before(xs, n) - n, xs[n].seqNum + j);
    hide Before;
  }

  /** The closed form of every number sent, over any run. */
  lemma {:induction false} NumberOf(o: Out, xs: seq<Input>, i: nat, j: nat)
    requires i < |xs| && j < Outputs(xs[i])
    ensures |o.sent| + Before(xs, i) + j < |RunDirect(o, xs).sent|
    ensures RunDirect(o, xs).sent[|o.sent| + Before(xs, i) + j] == NumberAt(o, xs, i, j)
    decreases |xs|
  {
    var n := |xs| - 1;
    if i == n {
      NumberOfLast(o, xs, j);
    } else {
      NumberOf(o, xs[..n], i, j);
      BeforePrefix(xs, i, n);
      assert RunDirect(o, xs[..n]).sent <= RunDirect(o, xs).sent;
    }
  }

  /** How many numbers are missing from the input between packets i and i'. */
  function InputGap(xs: seq<Input>, i: nat, i': nat): (g: int)
    requires i <= i' < |xs|
  {
    xs[i'].seqNum - xs[i].seqNum - (i' - i)
  }

  /** A gap in the input appears as an equal gap in the output and nothing else does: between any two
      packets sent, the numbers advance by the packets in between plus the numbers missing from the
      input. In particular, consecutive inputs give consecutive outputs, whatever each one yields.
      Packets in between that bypass the numbering count like any other. */
  lemma GapsCarryOver(o: Out, xs: seq<Input>, i: nat, j: nat, i': nat, j': nat)
    requires i <= i' < |xs| && j < Outputs(xs[i]) && j' < Outputs(xs[i']) && !xs[i].Bypass? && !xs[i'].Bypass?
    ensures var sent := RunDirect(o, xs).sent;
      var k, k' := |o.sent| + Before(xs, i) + j, |o.sent| + Before(xs, i') + j';
      k < |sent| && k' < |sent| && sent[k'] == (sent[k] + (k' - k) + InputGap(xs, i, i')) % U16
  {
    NumberOf(o, xs, i, j);
    NumberOf(o, xs, i', j');
    var first := xs[i].seqNum + o.seqDiff + Before(xs, i) - i + j;
    AddMod16(first, Before(xs, i') + j' - Before(xs, i) - j + InputGap(xs, i, i'));
  }

  lemma NumberShift(inSeq: u16, d: u16, a: nat, i: nat)
    ensures Number(inSeq, (d + a) % U16, i) == Number(inSeq, d, a + i)
  {
    AddMod16(d + a, inSeq + i);
  }

  lemma EmitMore(o: Out, inSeq: u16, a: nat, b: nat)
    ensures Emit(Emit(o, inSeq, a), inSeq, b) == Emit(o, inSeq, a + b)
  {
    AddMod16(o.seqDiff + a, b);
    hide Number;
    var l, r := Emit(Emit(o, inSeq, a), inSeq, b).sent, Emit(o, inSeq, a + b).sent;
    forall k | |o.sent| <= k < |r| ensures l[k] == r[k] {
      if k >= |o.sent| + a { NumberShift(inSeq, o.seqDiff, a, k - |o.sent| - a); }
    }
    assert l == r;
  }

  lemma EmitOneMore(o: Out, inSeq: u16, n: nat)
    ensures Emit(o, inSeq, n + 1) ==
      Out((Emit(o, inSeq, n).seqDiff + 1) % U16, Emit(o, inSeq, n).sent + [(inSeq + Emit(o, inSeq, n).seqDiff) % U16])
  {
    EmitMore(o, inSeq, n, 1);
    var p := Emit(o, inSeq, n);
    assert Emit(p, inSeq, 1).sent == p.sent + [(inSeq + p.seqDiff) % U16];
  }

  lemma EmitNone(o: Out, inSeq: u16)
    ensures Emit(o, inSeq, 0) == o
  {
  }

  function EndEvents(txs: seq<Tx>): (r: set<nat>) {
    set i: nat | i < |txs| && txs[i].EndEvent?
  }

  /** An input yields one packet per packet of the encoder and two more per DTMF end event. */
  lemma {:induction false} TotalMeaning(txs: seq<Tx>)
    ensures Total(txs) == |txs| + 2 * |EndEvents(txs)|
  {
    if txs != [] {
      var n := |txs| - 1;
      TotalMeaning(txs[..n]);
      assert EndEvents(txs) == EndEvents(txs[..n]) + if txs[n].EndEvent? then {n} else {};
    }
  }

  /** What k packets for one input do to the numbers sent and to the difference. */
  lemma EmitMeaning(o: Out, inSeq: u16, n: nat)
    ensures var r := Emit(o, inSeq, n);
      && r.seqDiff == (o.seqDiff + n) % 0x1_0000
      && |r.sent| == |o.sent| + n && o.sent <= r.sent
      && forall k :: |o.sent| <= k < |r.sent| ==> r.sent[k] == (inSeq + o.seqDiff + k - |o.sent|) % 0x1_0000
  {
  }

  lemma RaisedAgain(o: Out, inSeq: u16)
    ensures Adjust(Direct(o, Dtmf(inSeq, 1)), 1) == Emit(o, inSeq, 1)
  {
    AddMod16(o.seqDiff + 1 - 1, 1);
    AddMod16(o.seqDiff + 1, -1);
  }

  // ----- the code itself -----

  class SsrcOut {
    var seqDiff: u16
    var sent: seq<u16>

    function View(): Out
      reads this
    {
      Out(seqDiff, sent)
    }

    constructor (d: u16)
      ensures View() == Out(d, [])
    {
      seqDiff, sent := d, [];
    }

    /** The numbering half of codec_output_rtp. */
    method OutputRtp(supplied: Option<u16>, inSeq: u16, seqInc: int)
      modifies this
      ensures supplied.Some? ==> seqDiff == old(seqDiff) && sent == old(sent) + [supplied.value]
      ensures supplied.None? ==>
        seqDiff == (old(seqDiff) + seqInc) % U16 && sent == old(sent) + [(inSeq + seqDiff) % U16]
    {
      if supplied.Some? {
        sent := sent + [supplied.value];
      } else {
        seqDiff := (seqDiff + seqInc) % U16;
        sent := sent + [(inSeq + seqDiff) % U16];
      }
    }

    /** packet_encoded_tx: send once, or three times for a DTMF end event. */
    method PacketEncodedTx(inSeq: u16, tx: Tx)
      modifies this
      ensures View() == Emit(old(View()), inSeq, 1 + Repeats(tx))
      ensures var n := if tx == EndEvent then 3 else 1;
        && seqDiff == (old(seqDiff) + n) % 0x1_0000
        && |sent| == |old(sent)| + n && old(sent) <= sent
        && forall k :: |old(sent)| <= k < |sent| ==>
             sent[k] == (inSeq + old(seqDiff) + k - |old(sent)|) % 0x1_0000
    {
      hide Emit;
      EmitNone(View(), inSeq);
      EmitMeaning(View(), inSeq, 1 + Repeats(tx));
      var repeats := Repeats(tx);
      ghost var done := 0;
      while true
        invariant 0 <= repeats && done + repeats == Repeats(tx)
        invariant View() == Emit(old(View()), inSeq, done)
        decreases repeats
      {
        ghost var o := View();
        OutputRtp(None, inSeq, 0);
        seqDiff := (seqDiff + 1) % U16;
        EmitOneMore(old(View()), inSeq, done);
        done := done + 1;
        if repeats == 0 {
          break;
        }
        repeats := repeats - 1;
      }
    }

    /** __rtp_decode_direct: the decoder and encoder yield any packets, then one is taken back. */
    method RtpDecodeDirect(x: Input)
      requires x.Audio?
      modifies this
      ensures View() == Direct(old(View()), x)
      ensures |sent| == |old(sent)| + |x.txs| + 2 * |EndEvents(x.txs)|
      ensures seqDiff == (old(seqDiff) + |x.txs| + 2 * |EndEvents(x.txs)| - 1) % 0x1_0000
    {
      for i := 0 to |x.txs|
        invariant View() == Emit(old(View()), x.seqNum, Total(x.txs[..i]))
      {
        ghost var n := Total(x.txs[..i]);
        assert x.txs[..i + 1][..i] == x.txs[..i];
        PacketEncodedTx(x.seqNum, x.txs[i]);
        EmitMore(old(View()), x.seqNum, n, 1 + Repeats(x.txs[i]));
      }
      assert x.txs[..|x.txs|] == x.txs;
      TotalMeaning(x.txs);
      AddMod16(old(seqDiff) + Total(x.txs), -1);
      seqDiff := (seqDiff - 1) % U16;
    }

    /** packet_dtmf_fwd: one packet sent, under its own number if it bypasses ours, one taken back. */
    method DtmfForward(inSeq: u16, bypass: Option<u16>)
      modifies this
      ensures View() == Direct(old(View()), if bypass.Some? then Bypass(inSeq, bypass.value) else Dtmf(inSeq, 1))
      ensures seqDiff == old(seqDiff)
      ensures sent == old(sent) + [if bypass.Some? then bypass.value else (inSeq + old(seqDiff)) % 0x1_0000]
    {
      if bypass.Some? {
        OutputRtp(bypass, inSeq, -1);
      } else {
        OutputRtp(None, inSeq, 0);
      }
      seqDiff := (seqDiff + 1) % U16;
      seqDiff := (seqDiff - 1) % U16;
    }

    /** packet_dtmf when the event is replaced by generated copies. */
    method PacketDtmf(x: Input)
      requires x.Dtmf?
      modifies this
      ensures View() == Direct(old(View()), x)
      ensures |sent| == |old(sent)| + x.copies && seqDiff == (old(seqDiff) + x.copies - 1) % 0x1_0000
    {
      hide Emit;
      EmitNone(View(), x.seqNum);
      for i := 0 to x.copies
        invariant View() == Emit(old(View()), x.seqNum, i)
      {
        RaisedAgain(View(), x.seqNum);
        EmitMore(old(View()), x.seqNum, i, 1);
        DtmfForward(x.seqNum, None);
        seqDiff := (seqDiff + 1) % U16;
      }
      EmitMeaning(old(View()), x.seqNum, x.copies);
      AddMod16(old(seqDiff) + x.copies, -1);
      seqDiff := (seqDiff - 1) % U16;
    }
  }
}
