/** Output numbering through the delay buffer. Frames are encoded when they leave the buffer, not when
    they arrive, so the accounting of the sequence difference is pegged to the queued frames. Taking a
    frame and processing it is one step. */
module DelayedOutput {
  import opened Words
  import opened OutputSequence
  import opened DelayBuffer

  /** A queued piece of work: a decoded frame for the encoder, or a packet that is forwarded as it is. */
  datatype Work<F> = Encode(frame: F) | Forward

  /** The copy of the input packet's number that travels with the work, and the pegged adjustment. */
  datatype Body<F> = Body(inSeq: u16, work: Work<F>, seqAdj: int)

  /** The outgoing SSRC and the encoder's state. */
  datatype Device<E> = Device(out: Out, enc: E)

  /** Any stateful encoder: a frame yields any number of packets. */
  type Encoder<!E, !F> = (E, F) -> (E, seq<Tx>)

  function Process<E, F>(coder: Encoder<E, F>, d: Device<E>, inSeq: u16, work: Work<F>): (r: Device<E>) {
    match work
    case Encode(f) => var (e, txs) := coder(d.enc, f); Device(Emit(d.out, inSeq, Total(txs)), e)
    case Forward => d.(out := Emit(d.out, inSeq, 1))
  }

  function AdjustDevice<E>(d: Device<E>, n: int): (r: Device<E>) {
    d.(out := Adjust(d.out, n))
  }

  // ----- the direct path: no delay -----

  function ProcessAll<E, F>(coder: Encoder<E, F>, d: Device<E>, inSeq: u16, works: seq<Work<F>>): (r: Device<E>) {
    if works == [] then d
    else Process(coder, ProcessAll(coder, d, inSeq, Most(works)), inSeq, Last(works))
  }

  /** An input packet decodes to any number of frames, possibly none; then one number is taken back. */
  function DirectInput<E, F>(coder: Encoder<E, F>, d: Device<E>, inSeq: u16, works: seq<Work<F>>): (r: Device<E>) {
    AdjustDevice(ProcessAll(coder, d, inSeq, works), -1)
  }

  // ----- the delayed path -----

  datatype Buffered<E, F> = Buffered(frames: seq<Frame<Body<F>>>, device: Device<E>, inserted: nat, lastTv: nat)

  function Enqueue<E, F>(b: Buffered<E, F>, tv: nat, inSeq: u16, work: Work<F>): (r: Buffered<E, F>) {
    var f := Frame(tv, b.inserted, Body(inSeq, work, 0));
    b.(frames := InsertSorted(b.frames, f), inserted := b.inserted + 1, lastTv := tv)
  }

  function EnqueueAll<E, F>(b: Buffered<E, F>, tv: nat, inSeq: u16, works: seq<Work<F>>): (r: Buffered<E, F>) {
    if works == [] then b.(lastTv := tv) else Enqueue(EnqueueAll(b, tv, inSeq, Most(works)), tv, inSeq, Last(works))
  }

  /** __buffer_delay_seq: peg the adjustment to the most recent frame, or apply it if there is none. */
  function Peg<E, F>(b: Buffered<E, F>, n: int): (r: Buffered<E, F>) {
    if b.frames == [] then b.(device := AdjustDevice(b.device, n))
    else
      var f := b.frames[0];
      b.(frames := b.frames[0 := f.(body := f.body.(seqAdj := f.body.seqAdj + n))])
  }

  function DelayedInput<E, F>(b: Buffered<E, F>, tv: nat, inSeq: u16, works: seq<Work<F>>): (r: Buffered<E, F>) {
    Peg(EnqueueAll(b, tv, inSeq, works), -1)
  }

  /** __delay_frame_process. */
  function Release<E, F>(coder: Encoder<E, F>, d: Device<E>, f: Frame<Body<F>>): (r: Device<E>) {
    AdjustDevice(Process(coder, d, f.body.inSeq, f.body.work), f.body.seqAdj)
  }

  function Pop<E, F>(coder: Encoder<E, F>, b: Buffered<E, F>): (r: Buffered<E, F>) {
    if b.frames == [] then b
    else b.(frames := Most(b.frames), device := Release(coder, b.device, Last(b.frames)))
  }

  /** Everything still queued, released oldest first. */
  function Drain<E, F>(coder: Encoder<E, F>, q: seq<Frame<Body<F>>>, d: Device<E>): (r: Device<E>) {
    if q == [] then d else Drain(coder, Most(q), Release(coder, d, Last(q)))
  }

  function Flushed<E, F>(coder: Encoder<E, F>, b: Buffered<E, F>): (d: Device<E>) {
    Drain(coder, b.frames, b.device)
  }

  /** No queued frame is newer than the last arrival. */
  ghost predicate InTime<E, F>(b: Buffered<E, F>) {
    forall i :: 0 <= i < |b.frames| ==> b.frames[i].tv <= b.lastTv
  }

  // ----- the delayed path flushed is the direct path -----

  /** The newest frame is released last. */
  lemma {:induction false} DrainHead<E, F>(coder: Encoder<E, F>, f: Frame<Body<F>>,
        q: seq<Frame<Body<F>>>, d: Device<E>)
    ensures Drain(coder, [f] + q, d) == Release(coder, Drain(coder, q, d), f)
    decreases |q|
  {
    hide Process, AdjustDevice;
    if q == [] {
      assert Most([f] + q) == [] && Last([f] + q) == f;
    } else {
      assert Most([f] + q) == [f] + Most(q) && Last([f] + q) == Last(q);
      DrainHead(coder, f, Most(q), Release(coder, d, Last(q)));
    }
  }

  lemma EnqueueDrains<E, F>(coder: Encoder<E, F>, b: Buffered<E, F>, tv: nat, inSeq: u16, work: Work<F>)
    requires InTime(b) && tv >= b.lastTv
    ensures Enqueue(b, tv, inSeq, work).frames == [Frame(tv, b.inserted, Body(inSeq, work, 0))] + b.frames
    ensures InTime(Enqueue(b, tv, inSeq, work))
    ensures Flushed(coder, Enqueue(b, tv, inSeq, work)) == Process(coder, Flushed(coder, b), inSeq, work)
  {
    DrainHead(coder, Frame(tv, b.inserted, Body(inSeq, work, 0)), b.frames, b.device);
    hide Drain;
  }

  lemma {:induction false} EnqueueAllDrains<E, F>(coder: Encoder<E, F>, b: Buffered<E, F>,
        tv: nat, inSeq: u16, works: seq<Work<F>>)
    requires InTime(b) && tv >= b.lastTv
    ensures InTime(EnqueueAll(b, tv, inSeq, works)) && EnqueueAll(b, tv, inSeq, works).lastTv == tv
    ensures Flushed(coder, EnqueueAll(b, tv, inSeq, works)) == ProcessAll(coder, Flushed(coder, b), inSeq, works)
  {
    hide Drain, InsertSorted, Process;
    if works != [] {
      EnqueueAllDrains(coder, b, tv, inSeq, Most(works));
      EnqueueDrains(coder, EnqueueAll(b, tv, inSeq, Most(works)), tv, inSeq, Last(works));
    }
  }

  lemma AdjustTwice<E>(d: Device<E>, m: int, n: int)
    ensures AdjustDevice(AdjustDevice(d, m), n) == AdjustDevice(d, m + n)
  {
    AddMod16(d.out.seqDiff + m, n);
  }

  /** A pegged adjustment takes effect after everything that was queued when it was made. */
  lemma PegDrains<E, F>(coder: Encoder<E, F>, b: Buffered<E, F>, n: int)
    ensures Flushed(coder, Peg(b, n)) == AdjustDevice(Flushed(coder, b), n)
    ensures InTime(b) ==> InTime(Peg(b, n))
  {
    if b.frames != [] {
      var f, q := b.frames[0], b.frames[1..];
      var f' := f.(body := f.body.(seqAdj := f.body.seqAdj + n));
      assert b.frames == [f] + q && Peg(b, n).frames == [f'] + q;
      DrainHead(coder, f, q, b.device);
      DrainHead(coder, f', q, b.device);
      var d := Drain(coder, q, b.device);
      AdjustTwice(Process(coder, d, f.body.inSeq, f.body.work), f.body.seqAdj, n);
      hide Drain, Process, AdjustDevice;
    }
  }

  /** An arrival moves the flushed state exactly as it moves the direct path. */
  lemma InputDrains<E, F>(coder: Encoder<E, F>, b: Buffered<E, F>, tv: nat, inSeq: u16, works: seq<Work<F>>)
    requires InTime(b) && tv >= b.lastTv
    ensures InTime(DelayedInput(b, tv, inSeq, works)) && DelayedInput(b, tv, inSeq, works).lastTv == tv
    ensures Flushed(coder, DelayedInput(b, tv, inSeq, works)) == DirectInput(coder, Flushed(coder, b), inSeq, works)
  {
    hide Drain, AdjustDevice, EnqueueAll;
    EnqueueAllDrains(coder, b, tv, inSeq, works);
    PegDrains(coder, EnqueueAll(b, tv, inSeq, works), -1);
  }

  lemma ReleaseExtends<E, F>(coder: Encoder<E, F>, d: Device<E>, f: Frame<Body<F>>)
    ensures d.out.sent <= Release(coder, d, f).out.sent
  {
  }

  lemma {:induction false} DrainExtends<E, F>(coder: Encoder<E, F>, q: seq<Frame<Body<F>>>, d: Device<E>)
    ensures d.out.sent <= Drain(coder, q, d).out.sent
    decreases |q|
  {
    if q != [] {
      ReleaseExtends(coder, d, Last(q));
      DrainExtends(coder, Most(q), Release(coder, d, Last(q)));
    }
  }

  // ----- generated DTMF copies: adjustments that are not pegged -----

  /** packet_dtmf with the delay buffer in use: every copy is queued with one number taken back, but
      the difference itself is raised at once, and lowered at once at the end. */
  function QueueCopies<E, F>(b: Buffered<E, F>, tv: nat, inSeq: u16, copies: nat): (r: Buffered<E, F>)
    decreases copies
  {
    if copies == 0 then b.(lastTv := tv)
    else
      var q := Peg(Enqueue(QueueCopies(b, tv, inSeq, copies - 1), tv, inSeq, Forward), -1);
      q.(device := AdjustDevice(q.device, 1))
  }

  function DelayedDtmf<E, F>(b: Buffered<E, F>, tv: nat, inSeq: u16, copies: nat): (r: Buffered<E, F>) {
    var q := QueueCopies(b, tv, inSeq, copies);
    q.(device := AdjustDevice(q.device, -1))
  }

  function DirectDtmf<E>(d: Device<E>, inSeq: u16, copies: nat): (r: Device<E>) {
    d.(out := Direct(d.out, Dtmf(inSeq, copies)))
  }

  /** The packets that the queued frames will still yield. */
  function Pending<E, F>(coder: Encoder<E, F>, b: Buffered<E, F>): (n: int) {
    |Flushed(coder, b).out.sent| - |b.device.out.sent|
  }

  /** d' is d with the difference moved by n, and so every number sent from position `from` on. */
  ghost predicate Moved<E(!new)>(d: Device<E>, d': Device<E>, from: nat, n: int) {
    && d'.enc == d.enc
    && d'.out.seqDiff == (d.out.seqDiff + n) % U16
    && |d'.out.sent| == |d.out.sent| && from <= |d.out.sent|
    && (forall k :: 0 <= k < from ==> d'.out.sent[k] == d.out.sent[k])
    && (forall k :: from <= k < |d.out.sent| ==> d'.out.sent[k] == (d.out.sent[k] + n) % U16)
  }

  lemma EmitMoved<E(!new)>(d: Device<E>, d': Device<E>, from: nat, n: int, inSeq: u16, k: nat)
    requires Moved(d, d', from, n)
    ensures Moved(d.(out := Emit(d.out, inSeq, k)), d'.(out := Emit(d'.out, inSeq, k)), from, n)
  {
    var e, e' := Emit(d.out, inSeq, k), Emit(d'.out, inSeq, k);
    AddMod16(d.out.seqDiff + n, k);
    AddMod16(d.out.seqDiff + k, n);
    forall i | |d.out.sent| <= i < |e.sent| ensures e'.sent[i] == (e.sent[i] + n) % U16 {
      var x := i - |d.out.sent|;
      AddMod16(d.out.seqDiff + n, inSeq + x);
      AddMod16(inSeq + d.out.seqDiff + x, n);
    }
  }

  lemma ReleaseMoved<E(!new), F>(coder: Encoder<E, F>, d: Device<E>, d': Device<E>,
        from: nat, n: int, f: Frame<Body<F>>)
    requires Moved(d, d', from, n)
    ensures Moved(Release(coder, d, f), Release(coder, d', f), from, n)
  {
    var k := match f.body.work case Encode(x) => Total(coder(d.enc, x).1) case Forward => 1;
    EmitMoved(d, d', from, n, f.body.inSeq, k);
    var p, p' := Process(coder, d, f.body.inSeq, f.body.work), Process(coder, d', f.body.inSeq, f.body.work);
    hide Emit;
    assert Moved(p, p', from, n);
    AddMod16(p.out.seqDiff + n, f.body.seqAdj);
    AddMod16(p.out.seqDiff + f.body.seqAdj, n);
  }

  lemma {:induction false} DrainMoved<E(!new), F>(coder: Encoder<E, F>, q: seq<Frame<Body<F>>>,
        d: Device<E>, d': Device<E>, from: nat, n: int)
    requires Moved(d, d', from, n)
    ensures Moved(Drain(coder, q, d), Drain(coder, q, d'), from, n)
    decreases |q|
  {
    hide Moved, Release;
    if q != [] {
      ReleaseMoved(coder, d, d', from, n, Last(q));
      DrainMoved(coder, Most(q), Release(coder, d, Last(q)), Release(coder, d', Last(q)), from, n);
    }
  }

  lemma OneMore(sent: seq<u16>, n: nat, x: u16)
    requires n > 0
    ensures sent + seq(n - 1, _ => x) + [x] == sent + seq(n, _ => x)
  {
  }

  lemma ReleaseCopy<E, F>(coder: Encoder<E, F>, d: Device<E>, f: Frame<Body<F>>)
    requires f.body.work == Forward && f.body.seqAdj == -1
    ensures Release(coder, d, f) == d.(out := d.out.(sent := d.out.sent + [Number(f.body.inSeq, d.out.seqDiff, 0)]))
  {
    AddMod16(d.out.seqDiff + 1, -1);
    assert seq(1, i requires 0 <= i < 1 => Number(f.body.inSeq, d.out.seqDiff, i))
        == [Number(f.body.inSeq, d.out.seqDiff, 0)];
  }

  /** The queued copies all come out with the same number, whatever was adjusted at once. */
  lemma {:induction false} CopiesDrain<E, F>(coder: Encoder<E, F>, b: Buffered<E, F>,
        tv: nat, inSeq: u16, copies: nat, d: Device<E>)
    requires InTime(b) && tv >= b.lastTv
    ensures var q, e := QueueCopies(b, tv, inSeq, copies), Drain(coder, b.frames, d);
      && InTime(q) && q.lastTv == tv && q.device == AdjustDevice(b.device, copies)
      && Drain(coder, q.frames, d) ==
           e.(out := e.out.(sent := e.out.sent + seq(copies, _ => Number(inSeq, e.out.seqDiff, 0))))
    decreases copies
  {
    var e := Drain(coder, b.frames, d);
    hide Drain, Number, InsertSorted, Process, Release, Flushed;
    if copies == 0 {
      assert e.out.sent + [] == e.out.sent;
    } else {
      CopiesDrain(coder, b, tv, inSeq, copies - 1, d);
      var p := QueueCopies(b, tv, inSeq, copies - 1);
      var f := Frame(tv, p.inserted, Body(inSeq, Forward, 0));
      EnqueueDrains(coder, p, tv, inSeq, Forward);
      var f' := f.(body := f.body.(seqAdj := -1));
      assert Peg(Enqueue(p, tv, inSeq, Forward), -1).frames == [f'] + p.frames;
      DrainHead(coder, f', p.frames, d);
      AdjustTwice(b.device, copies - 1, 1);
      var g := Drain(coder, p.frames, d);
      ReleaseCopy(coder, g, f');
      OneMore(e.out.sent, copies, Number(inSeq, e.out.seqDiff, 0));
    }
  }

  /** Same encoder state and as many packets, but not the same numbers. */
  ghost predicate Apart<E(!new)>(d: Device<E>, d': Device<E>) {
    d.enc == d'.enc && |d.out.sent| == |d'.out.sent| && d.out.sent != d'.out.sent
  }

  lemma NoCopies<E(!new)>(e: Device<E>, e': Device<E>, from: nat, inSeq: u16, left: Device<E>, right: Device<E>)
    requires Moved(e, e', from, -1) && right == DirectDtmf(e, inSeq, 0)
    requires left == e'.(out := e'.out.(sent := e'.out.sent + []))
    ensures left == right <==> |e.out.sent| == from
    ensures left != right ==> Apart(left, right)
  {
    assert right.out.sent == e.out.sent && left.out.sent == e'.out.sent;
    if |e.out.sent| == from {
      assert e'.out.sent == e.out.sent;
    } else {
      assert e'.out.sent[from] == (e.out.sent[from] - 1) % U16;
      assert e'.out.sent[from] != e.out.sent[from];
    }
  }

  lemma OneCopy<E(!new)>(e: Device<E>, e': Device<E>, from: nat, inSeq: u16, left: Device<E>, right: Device<E>)
    requires Moved(e, e', from, 0) && right == DirectDtmf(e, inSeq, 1)
    requires left == e'.(out := e'.out.(sent := e'.out.sent + seq(1, _ => Number(inSeq, e'.out.seqDiff, 0))))
    ensures left == right
  {
    assert e'.out.sent == e.out.sent;
    AddMod16(e.out.seqDiff + 1, -1);
  }

  lemma ManyCopies<E(!new)>(e: Device<E>, e': Device<E>, inSeq: u16, copies: nat, left: Device<E>, right: Device<E>)
    requires copies >= 2 && |e'.out.sent| == |e.out.sent| && e'.enc == e.enc && right == DirectDtmf(e, inSeq, copies)
    requires left == e'.(out := e'.out.(sent := e'.out.sent + seq(copies, _ => Number(inSeq, e'.out.seqDiff, 0))))
    ensures Apart(left, right)
  {
    var k := |e.out.sent|;
    assert left.out.sent[k] == left.out.sent[k + 1];
    assert right.out.sent[k] == Number(inSeq, e.out.seqDiff, 0);
    assert right.out.sent[k + 1] == Number(inSeq, e.out.seqDiff, 1);
    AddMod16(inSeq + e.out.seqDiff, 1);
  }

  /** One copy, or none and nothing queued that will still be sent. */
  predicate Harmless<E, F>(coder: Encoder<E, F>, b: Buffered<E, F>, copies: nat) {
    copies == 1 || (copies == 0 && Pending(coder, b) == 0)
  }

  /** What the flush makes of an event: everything still queued is moved by copies - 1, and the copies all
      get one number. */
  lemma DtmfFlushed<E(!new), F>(coder: Encoder<E, F>, b: Buffered<E, F>, tv: nat, inSeq: u16, copies: nat)
    returns (e': Device<E>)
    requires InTime(b) && tv >= b.lastTv
    ensures InTime(DelayedDtmf(b, tv, inSeq, copies)) && DelayedDtmf(b, tv, inSeq, copies).lastTv == tv
    ensures Moved(Flushed(coder, b), e', |b.device.out.sent|, copies - 1)
    ensures Flushed(coder, DelayedDtmf(b, tv, inSeq, copies)) ==
      e'.(out := e'.out.(sent := e'.out.sent + seq(copies, _ => Number(inSeq, e'.out.seqDiff, 0))))
  {
    var d, n := b.device, copies - 1;
    var d' := AdjustDevice(d, n);
    CopiesDrain(coder, b, tv, inSeq, copies, d');
    AdjustTwice(d, copies, -1);
    DrainMoved(coder, b.frames, d, d', |d.out.sent|, n);
    DrainExtends(coder, b.frames, d);
    e' := Drain(coder, b.frames, d');
    hide Drain, QueueCopies;
  }

  /** Generated DTMF copies keep the delayed path equal to the direct one exactly when they are harmless.
      If not, some numbers differ. A tripled end event always differs: its three packets come out with
      one and the same number. */
  lemma DtmfCopiesExact<E(!new), F>(coder: Encoder<E, F>, b: Buffered<E, F>, tv: nat, inSeq: u16, copies: nat)
    requires InTime(b) && tv >= b.lastTv
    ensures InTime(DelayedDtmf(b, tv, inSeq, copies)) && DelayedDtmf(b, tv, inSeq, copies).lastTv == tv
    ensures var left := Flushed(coder, DelayedDtmf(b, tv, inSeq, copies));
      var right := DirectDtmf(Flushed(coder, b), inSeq, copies);
      (left == right <==> Harmless(coder, b, copies)) && (left != right ==> Apart(left, right))
  {
    hide Flushed, DelayedDtmf, DirectDtmf;
    var e := Flushed(coder, b);
    var e' := DtmfFlushed(coder, b, tv, inSeq, copies);
    var left, right := Flushed(coder, DelayedDtmf(b, tv, inSeq, copies)), DirectDtmf(e, inSeq, copies);
    if copies == 0 {
      NoCopies(e, e', |b.device.out.sent|, inSeq, left, right);
    } else if copies == 1 {
      OneCopy(e, e', |b.device.out.sent|, inSeq, left, right);
    } else {
      ManyCopies(e, e', inSeq, copies, left, right);
    }
  }

  /** Input 100 at difference 7: the three packets of an end event leave an empty delay buffer as 109,
      109 and 109, and the direct path as 107, 108 and 109. */
  lemma TripledEndEvent<E(!new), F>(coder: Encoder<E, F>, enc: E)
    ensures var b: Buffered<E, F> := Buffered([], Device(Out(7, []), enc), 0, 0);
      && Flushed(coder, DelayedDtmf(b, 5, 100, 3)).out.sent == [109, 109, 109]
      && DirectDtmf(Flushed(coder, b), 100, 3).out.sent == [107, 108, 109]
  {
    var b: Buffered<E, F> := Buffered([], Device(Out(7, []), enc), 0, 0);
    var copies := 3;
    AdjustTwice(b.device, copies, -1);
    CopiesDrain(coder, b, 5, 100, copies, AdjustDevice(b.device, 2));
    assert DelayedDtmf(b, 5, 100, copies).device == AdjustDevice(b.device, 2);
    assert seq(3, _ => Number(100, 9, 0)) == [109, 109, 109];
  }

  // ----- whole runs -----

  datatype Op<F> =
    | Arrive(tv: nat, inSeq: u16, works: seq<Work<F>>)
    | Event(tv: nat, inSeq: u16, copies: nat)
    | TimerPop

  function Do<E, F>(coder: Encoder<E, F>, b: Buffered<E, F>, op: Op<F>): (r: Buffered<E, F>) {
    match op
    case Arrive(tv, inSeq, works) => DelayedInput(b, tv, inSeq, works)
    case Event(tv, inSeq, copies) => DelayedDtmf(b, tv, inSeq, copies)
    case TimerPop => Pop(coder, b)
  }

  function Run<E, F>(coder: Encoder<E, F>, b: Buffered<E, F>, ops: seq<Op<F>>): (r: Buffered<E, F>)
    decreases |ops|
  {
    if ops == [] then b else Run(coder, Do(coder, b, ops[0]), ops[1..])
  }

  /** Receive times do not decrease. */
  predicate Ordered<F>(lastTv: nat, ops: seq<Op<F>>)
    decreases |ops|
  {
    ops == [] ||
    if ops[0].TimerPop? then Ordered(lastTv, ops[1..]) else ops[0].tv >= lastTv && Ordered(ops[0].tv, ops[1..])
  }

  /** Every generated event of the run is harmless when its turn comes. */
  predicate AllHarmless<E, F>(coder: Encoder<E, F>, b: Buffered<E, F>, ops: seq<Op<F>>)
    decreases |ops|
  {
    ops == [] ||
    ((ops[0].Event? ==> Harmless(coder, b, ops[0].copies)) && AllHarmless(coder, Do(coder, b, ops[0]), ops[1..]))
  }

  /** The same without a delay buffer. */
  function DoDirect<E, F>(coder: Encoder<E, F>, d: Device<E>, op: Op<F>): (r: Device<E>) {
    match op
    case Arrive(_, inSeq, works) => DirectInput(coder, d, inSeq, works)
    case Event(_, inSeq, copies) => DirectDtmf(d, inSeq, copies)
    case TimerPop => d
  }

  function RunDirect<E, F>(coder: Encoder<E, F>, d: Device<E>, ops: seq<Op<F>>): (r: Device<E>)
    decreases |ops|
  {
    if ops == [] then d else RunDirect(coder, DoDirect(coder, d, ops[0]), ops[1..])
  }

  lemma DoDrains<E(!new), F>(coder: Encoder<E, F>, b: Buffered<E, F>, op: Op<F>)
    requires InTime(b) && (op.TimerPop? || op.tv >= b.lastTv)
    ensures InTime(Do(coder, b, op)) && Do(coder, b, op).lastTv == if op.TimerPop? then b.lastTv else op.tv
    ensures (op.Event? ==> Harmless(coder, b, op.copies)) ==>
      Flushed(coder, Do(coder, b, op)) == DoDirect(coder, Flushed(coder, b), op)
  {
    match op
    case Arrive(tv, inSeq, works) =>
      hide DelayedInput, DirectInput, Flushed;
      InputDrains(coder, b, tv, inSeq, works);
    case Event(tv, inSeq, copies) =>
      hide DelayedDtmf, DirectDtmf, Flushed, Harmless;
      DtmfCopiesExact(coder, b, tv, inSeq, copies);
    case TimerPop =>
  }

  /** Over any run of arrivals, harmless events and timer pops in any interleaving, with any stateful
      encoder, flushing the buffer gives exactly the direct path: the same numbers in the same order, the
      same difference and the same encoder state. */
  lemma {:induction false} DelayedIsDirect<E(!new), F>(coder: Encoder<E, F>, b: Buffered<E, F>, ops: seq<Op<F>>)
    requires InTime(b) && Ordered(b.lastTv, ops) && AllHarmless(coder, b, ops)
    ensures Flushed(coder, Run(coder, b, ops)) == RunDirect(coder, Flushed(coder, b), ops)
    decreases |ops|
  {
    hide Flushed, DoDirect, Do, Harmless, InTime;
    if ops != [] {
      DoDrains(coder, b, ops[0]);
      DelayedIsDirect(coder, Do(coder, b, ops[0]), ops[1..]);
    }
  }

  lemma {:induction false} NoEventsHarmless<E, F>(coder: Encoder<E, F>, b: Buffered<E, F>, ops: seq<Op<F>>)
    requires forall op :: op in ops ==> !op.Event?
    ensures AllHarmless(coder, b, ops)
    decreases |ops|
  {
    hide Do;
    if ops != [] {
      assert ops[0] in ops;
      NoEventsHarmless(coder, Do(coder, b, ops[0]), ops[1..]);
    }
  }

  /** At every moment, what has been sent is the beginning of what the direct path sends. */
  lemma SentIsPrefix<E(!new), F>(coder: Encoder<E, F>, b: Buffered<E, F>, ops: seq<Op<F>>)
    requires InTime(b) && Ordered(b.lastTv, ops) && AllHarmless(coder, b, ops)
    ensures Run(coder, b, ops).device.out.sent <= RunDirect(coder, Flushed(coder, b), ops).out.sent
  {
    hide Run, RunDirect, AllHarmless;
    DelayedIsDirect(coder, b, ops);
    var r := Run(coder, b, ops);
    DrainExtends(coder, r.frames, r.device);
  }

  lemma ConcatApart(a: seq<u16>, b: seq<u16>, c: seq<u16>, d: seq<u16>)
    requires |a| == |b| && a != b && |c| == |d|
    ensures a + c != b + d
  {
    var k :| 0 <= k < |a| && a[k] != b[k];
    assert (a + c)[k] != (b + d)[k];
  }

  lemma EmitApart<E(!new)>(d: Device<E>, d': Device<E>, inSeq: u16, k: nat)
    requires Apart(d, d')
    ensures Apart(d.(out := Emit(d.out, inSeq, k)), d'.(out := Emit(d'.out, inSeq, k)))
  {
    ConcatApart(d.out.sent, d'.out.sent, seq(k, i requires 0 <= i < k => Number(inSeq, d.out.seqDiff, i)),
                seq(k, i requires 0 <= i < k => Number(inSeq, d'.out.seqDiff, i)));
  }

  lemma {:induction false} ProcessAllApart<E(!new), F>(coder: Encoder<E, F>, d: Device<E>, d': Device<E>,
        inSeq: u16, works: seq<Work<F>>)
    requires Apart(d, d')
    ensures Apart(ProcessAll(coder, d, inSeq, works), ProcessAll(coder, d', inSeq, works))
  {
    hide Emit;
    if works != [] {
      ProcessAllApart(coder, d, d', inSeq, Most(works));
      var p, p' := ProcessAll(coder, d, inSeq, Most(works)), ProcessAll(coder, d', inSeq, Most(works));
      var k := match Last(works) case Encode(f) => Total(coder(p.enc, f).1) case Forward => 1;
      EmitApart(p, p', inSeq, k);
    }
  }

  lemma {:induction false} RunDirectApart<E(!new), F>(coder: Encoder<E, F>, d: Device<E>, d': Device<E>,
        ops: seq<Op<F>>)
    requires Apart(d, d')
    ensures Apart(RunDirect(coder, d, ops), RunDirect(coder, d', ops))
    decreases |ops|
  {
    hide Emit, ProcessAll;
    if ops != [] {
      match ops[0] {
        case Arrive(_, inSeq, works) => ProcessAllApart(coder, d, d', inSeq, works);
        case Event(_, inSeq, copies) => EmitApart(d, d', inSeq, copies);
        case TimerPop =>
      }
      RunDirectApart(coder, DoDirect(coder, d, ops[0]), DoDirect(coder, d', ops[0]), ops[1..]);
    }
  }

  /** The other way round: an event that is not harmless shows in the numbers for good, whatever harmless
      operations follow. */
  lemma HarmfulEventShows<E(!new), F>(coder: Encoder<E, F>, b: Buffered<E, F>, e: Op<F>, ops: seq<Op<F>>)
    requires e.Event? && InTime(b) && e.tv >= b.lastTv && Ordered(e.tv, ops)
    requires !Harmless(coder, b, e.copies) && AllHarmless(coder, Do(coder, b, e), ops)
    ensures Flushed(coder, Run(coder, Do(coder, b, e), ops)).out.sent
         != RunDirect(coder, DoDirect(coder, Flushed(coder, b), e), ops).out.sent
  {
    hide Flushed, Run, RunDirect, AllHarmless, DelayedDtmf, DirectDtmf, Harmless;
    var b' := Do(coder, b, e);
    DtmfCopiesExact(coder, b, e.tv, e.inSeq, e.copies);
    DelayedIsDirect(coder, b', ops);
    RunDirectApart(coder, Flushed(coder, b'), DoDirect(coder, Flushed(coder, b), e), ops);
  }

  // ----- the numbers of the direct path -----

  /** What the last frame adds. */
  function LastTxs<E, F>(coder: Encoder<E, F>, d: Device<E>, work: Work<F>): (r: seq<Tx>) {
    match work
    case Encode(f) => coder(d.enc, f).1
    case Forward => [Single]
  }

  /** What an input packet's frames come to at the encoder's output. */
  function TxsOf<E, F>(coder: Encoder<E, F>, d: Device<E>, inSeq: u16, works: seq<Work<F>>): (r: seq<Tx>) {
    if works == [] then []
    else
      TxsOf(coder, d, inSeq, Most(works)) +
      LastTxs(coder, ProcessAll(coder, d, inSeq, Most(works)), Last(works))
  }

  lemma {:induction false} TotalConcat(a: seq<Tx>, b: seq<Tx>)
    ensures Total(a + b) == Total(a) + Total(b)
  {
    if b == [] {
      assert a + b == a;
    } else {
      TotalConcat(a, b[..|b| - 1]);
      assert (a + b)[..|a + b| - 1] == a + b[..|b| - 1];
    }
  }

  lemma TotalOne()
    ensures Total([Single]) == 1
  {
  }

  lemma ProcessEmits<E, F>(coder: Encoder<E, F>, d: Device<E>, inSeq: u16, work: Work<F>)
    ensures Process(coder, d, inSeq, work).out == Emit(d.out, inSeq, Total(LastTxs(coder, d, work)))
  {
    hide Emit;
    TotalOne();
  }

  lemma {:induction false} ProcessAllEmits<E, F>(coder: Encoder<E, F>, d: Device<E>, inSeq: u16, works: seq<Work<F>>)
    ensures ProcessAll(coder, d, inSeq, works).out == Emit(d.out, inSeq, Total(TxsOf(coder, d, inSeq, works)))
  {
    hide Emit, Process, LastTxs;
    if works == [] {
      EmitNone(d.out, inSeq);
    } else {
      var before, p := TxsOf(coder, d, inSeq, Most(works)), ProcessAll(coder, d, inSeq, Most(works));
      ProcessAllEmits(coder, d, inSeq, Most(works));
      ProcessEmits(coder, p, inSeq, Last(works));
      var more := LastTxs(coder, p, Last(works));
      TotalConcat(before, more);
      EmitMore(d.out, inSeq, Total(before), Total(more));
    }
  }

  /** An operation as an input of the direct path. */
  function InputOf<E, F>(coder: Encoder<E, F>, d: Device<E>, op: Op<F>): (r: Input)
    requires !op.TimerPop?
  {
    if op.Arrive? then Audio(op.inSeq, TxsOf(coder, d, op.inSeq, op.works)) else Dtmf(op.inSeq, op.copies)
  }

  function Inputs<E, F>(coder: Encoder<E, F>, d: Device<E>, ops: seq<Op<F>>): (r: seq<Input>)
    decreases |ops|
  {
    if ops == [] then []
    else
      (if ops[0].TimerPop? then [] else [InputOf(coder, d, ops[0])])
      + Inputs(coder, DoDirect(coder, d, ops[0]), ops[1..])
  }

  lemma {:induction false} RunDirectFirst(o: Out, x: Input, xs: seq<Input>)
    ensures OutputSequence.RunDirect(o, [x] + xs) == OutputSequence.RunDirect(Direct(o, x), xs)
  {
    hide Direct;
    if xs == [] {
      assert ([x] + xs)[..|[x] + xs| - 1] == [];
    } else {
      RunDirectFirst(o, x, xs[..|xs| - 1]);
      assert ([x] + xs)[..|[x] + xs| - 1] == [x] + xs[..|xs| - 1];
    }
  }

  lemma DoDirectNumbers<E, F>(coder: Encoder<E, F>, d: Device<E>, op: Op<F>)
    requires !op.TimerPop?
    ensures DoDirect(coder, d, op).out == Direct(d.out, InputOf(coder, d, op))
  {
    hide Emit, TxsOf, ProcessAll;
    if op.Arrive? { ProcessAllEmits(coder, d, op.inSeq, op.works); }
  }

  lemma PopDirect<E, F>(coder: Encoder<E, F>, d: Device<E>)
    ensures DoDirect(coder, d, TimerPop) == d
  {
  }

  lemma {:induction false} DirectRunNumbers<E, F>(coder: Encoder<E, F>, d: Device<E>, ops: seq<Op<F>>)
    ensures RunDirect(coder, d, ops).out == OutputSequence.RunDirect(d.out, Inputs(coder, d, ops))
    decreases |ops|
  {
    hide DoDirect, InputOf, Direct;
    if ops != [] {
      var e := DoDirect(coder, d, ops[0]);
      DirectRunNumbers(coder, e, ops[1..]);
      if ops[0].TimerPop? {
        PopDirect(coder, d);
        assert [] + Inputs(coder, e, ops[1..]) == Inputs(coder, e, ops[1..]);
      } else {
        DoDirectNumbers(coder, d, ops[0]);
        RunDirectFirst(d.out, InputOf(coder, d, ops[0]), Inputs(coder, e, ops[1..]));
      }
    }
  }

  lemma {:induction false} InputsNumbered<E, F>(coder: Encoder<E, F>, d: Device<E>, ops: seq<Op<F>>, i: nat)
    requires i < |Inputs(coder, d, ops)|
    ensures !Inputs(coder, d, ops)[i].Bypass?
    decreases |ops|
  {
    hide DoDirect;
    var e := DoDirect(coder, d, ops[0]);
    if ops[0].TimerPop? {
      InputsNumbered(coder, e, ops[1..], i);
    } else if i > 0 {
      InputsNumbered(coder, e, ops[1..], i - 1);
    }
  }

  /** So the delayed path, once flushed, also carries every gap of the input over to the output and adds
      none of its own. */
  lemma DelayedGapsCarryOver<E(!new), F>(coder: Encoder<E, F>, b: Buffered<E, F>, ops: seq<Op<F>>,
                                         i: nat, j: nat, i': nat, j': nat)
    requires InTime(b) && Ordered(b.lastTv, ops) && AllHarmless(coder, b, ops)
    requires var xs := Inputs(coder, Flushed(coder, b), ops);
      i <= i' < |xs| && j < Outputs(xs[i]) && j' < Outputs(xs[i'])
    ensures var xs, start := Inputs(coder, Flushed(coder, b), ops), |Flushed(coder, b).out.sent|;
      var sent := Flushed(coder, Run(coder, b, ops)).out.sent;
      var k, k' := start + Before(xs, i) + j, start + Before(xs, i') + j';
      k < |sent| && k' < |sent| && sent[k'] == (sent[k] + (k' - k) + InputGap(xs, i, i')) % U16
  {
    hide Inputs, Run, RunDirect, Flushed, Before, OutputSequence.RunDirect, AllHarmless;
    DelayedIsDirect(coder, b, ops);
    InputsNumbered(coder, Flushed(coder, b), ops, i);
    InputsNumbered(coder, Flushed(coder, b), ops, i');
    DirectRunNumbers(coder, Flushed(coder, b), ops);
    GapsCarryOver(Flushed(coder, b).out, Inputs(coder, Flushed(coder, b), ops), i, j, i', j');
  }

  // ----- every number of the delayed path -----

  /** d' is d except that the k-th number is off by shifts[k]. */
  ghost predicate Shifted<E(!new)>(d: Device<E>, d': Device<E>, shifts: seq<int>) {
    && d'.enc == d.enc && d'.out.seqDiff == d.out.seqDiff
    && |d'.out.sent| == |d.out.sent| == |shifts|
    && forall k :: 0 <= k < |shifts| ==> d'.out.sent[k] == (d.out.sent[k] + shifts[k]) % U16
  }

  function NoShifts(n: nat): (r: seq<int>)
    ensures |r| == n && forall k :: 0 <= k < n ==> r[k] == 0
  {
    seq(n, _ => 0)
  }

  /** An event moves every packet still queued by copies - 1, and its own j-th copy is off by copies - 1 - j. */
  function EventShifts(shifts: seq<int>, from: nat, copies: nat): (r: seq<int>)
    ensures |r| == |shifts| + copies
    ensures forall k :: 0 <= k < |shifts| ==> r[k] == if k < from then shifts[k] else shifts[k] + copies - 1
    ensures forall k :: |shifts| <= k < |r| ==> r[k] == copies - 1 - (k - |shifts|)
  {
    seq(|shifts|, k requires 0 <= k < |shifts| => if k < from then shifts[k] else shifts[k] + copies - 1)
    + seq(copies, j => copies - 1 - j)
  }

  /** The packets of an arrival are as on the direct path. */
  function NextShifts<E, F>(coder: Encoder<E, F>, b: Buffered<E, F>, op: Op<F>, shifts: seq<int>): (r: seq<int>) {
    match op
    case Arrive(_, inSeq, works) => shifts + NoShifts(Total(TxsOf(coder, Flushed(coder, b), inSeq, works)))
    case Event(_, _, copies) => EventShifts(shifts, |b.device.out.sent|, copies)
    case TimerPop => shifts
  }

  function Shifts<E, F>(coder: Encoder<E, F>, b: Buffered<E, F>, ops: seq<Op<F>>, shifts: seq<int>): (r: seq<int>)
    decreases |ops|
  {
    if ops == [] then shifts
    else Shifts(coder, Do(coder, b, ops[0]), ops[1..], NextShifts(coder, b, ops[0], shifts))
  }

  lemma {:induction false} SameTxs<E(!new), F>(coder: Encoder<E, F>, d: Device<E>, d': Device<E>,
        inSeq: u16, works: seq<Work<F>>)
    requires d.enc == d'.enc
    ensures TxsOf(coder, d, inSeq, works) == TxsOf(coder, d', inSeq, works)
    ensures ProcessAll(coder, d, inSeq, works).enc == ProcessAll(coder, d', inSeq, works).enc
  {
    hide Emit;
    if works != [] { SameTxs(coder, d, d', inSeq, Most(works)); }
  }

  lemma EmitShifted(o: Out, o': Out, shifts: seq<int>, inSeq: u16, n: nat)
    requires o'.seqDiff == o.seqDiff && |o'.sent| == |o.sent| == |shifts|
    requires forall k :: 0 <= k < |shifts| ==> o'.sent[k] == (o.sent[k] + shifts[k]) % U16
    ensures var p, p', r := Emit(o, inSeq, n), Emit(o', inSeq, n), shifts + NoShifts(n);
      && p'.seqDiff == p.seqDiff && |p'.sent| == |p.sent| == |r|
      && forall k :: 0 <= k < |r| ==> p'.sent[k] == (p.sent[k] + r[k]) % U16
  {
    hide Number;
  }

  lemma ArriveShifted<E(!new), F>(coder: Encoder<E, F>, d: Device<E>, d': Device<E>, shifts: seq<int>,
        inSeq: u16, works: seq<Work<F>>)
    requires Shifted(d, d', shifts)
    ensures Shifted(DirectInput(coder, d, inSeq, works), DirectInput(coder, d', inSeq, works),
                    shifts + NoShifts(Total(TxsOf(coder, d', inSeq, works))))
  {
    hide Emit, ProcessAll, TxsOf, Total, NoShifts;
    SameTxs(coder, d, d', inSeq, works);
    ProcessAllEmits(coder, d, inSeq, works);
    ProcessAllEmits(coder, d', inSeq, works);
    EmitShifted(d.out, d'.out, shifts, inSeq, Total(TxsOf(coder, d', inSeq, works)));
  }

  lemma QueuedShift(number: int, shift: int, n: int)
    ensures ((number + shift) % U16 + n) % U16 == (number + (shift + n)) % U16
  {
    AddMod16(number + shift, n);
  }

  lemma CopyShift(inSeq: int, seqDiff: int, n: int, j: int)
    ensures (inSeq + (seqDiff + n) % U16) % U16 == ((inSeq + seqDiff + j) % U16 + (n - j)) % U16
  {
    AddMod16(seqDiff + n, inSeq);
    AddMod16(inSeq + seqDiff + j, n - j);
  }

  /** What the direct path does with an event, packet by packet. */
  lemma DirectDtmfAt<E>(d: Device<E>, inSeq: u16, copies: nat, k: nat)
    requires k < |d.out.sent| + copies
    ensures var r := DirectDtmf(d, inSeq, copies).out;
      && r.seqDiff == (d.out.seqDiff + copies - 1) % U16 && |r.sent| == |d.out.sent| + copies
      && r.sent[k] == if k < |d.out.sent| then d.out.sent[k] else (inSeq + d.out.seqDiff + (k - |d.out.sent|)) % U16
  {
    AddMod16(d.out.seqDiff + copies, -1);
  }

  lemma DirectDtmfTotal<E>(d: Device<E>, inSeq: u16, copies: nat)
    ensures var r := DirectDtmf(d, inSeq, copies);
      && r.enc == d.enc && r.out.seqDiff == (d.out.seqDiff + copies - 1) % U16
      && |r.out.sent| == |d.out.sent| + copies
  {
    AddMod16(d.out.seqDiff + copies, -1);
  }

  lemma EventShiftedAt<E(!new)>(d: Device<E>, x: Device<E>, e': Device<E>, shifts: seq<int>, from: nat,
        inSeq: u16, copies: nat, k: nat)
    requires Shifted(d, x, shifts) && Moved(x, e', from, copies - 1) && k < |shifts| + copies
    ensures |DirectDtmf(d, inSeq, copies).out.sent| == |shifts| + copies
    ensures var right, r := DirectDtmf(d, inSeq, copies).out.sent[k], EventShifts(shifts, from, copies)[k];
      (right + r) % U16 == if k < |shifts| then e'.out.sent[k] else (inSeq + e'.out.seqDiff) % U16
  {
    hide EventShifts, DirectDtmf;
    DirectDtmfAt(d, inSeq, copies, k);
    if k < |shifts| {
      QueuedShift(d.out.sent[k], shifts[k], copies - 1);
    } else {
      CopyShift(inSeq, d.out.seqDiff, copies - 1, k - |shifts|);
    }
  }

  lemma EventShifted<E(!new)>(d: Device<E>, x: Device<E>, e': Device<E>, shifts: seq<int>, from: nat,
        inSeq: u16, copies: nat, left: Device<E>)
    requires Shifted(d, x, shifts) && Moved(x, e', from, copies - 1)
    requires left == e'.(out := e'.out.(sent := e'.out.sent + seq(copies, _ => Number(inSeq, e'.out.seqDiff, 0))))
    ensures Shifted(DirectDtmf(d, inSeq, copies), left, EventShifts(shifts, from, copies))
  {
    hide EventShifts, DirectDtmf;
    DirectDtmfTotal(d, inSeq, copies);
    var right, r := DirectDtmf(d, inSeq, copies), EventShifts(shifts, from, copies);
    forall k | 0 <= k < |r| ensures left.out.sent[k] == (right.out.sent[k] + r[k]) % U16 {
      EventShiftedAt(d, x, e', shifts, from, inSeq, copies, k);
    }
  }

  lemma DoShifted<E(!new), F>(coder: Encoder<E, F>, b: Buffered<E, F>, d: Device<E>, op: Op<F>, shifts: seq<int>)
    requires InTime(b) && (op.TimerPop? || op.tv >= b.lastTv) && Shifted(d, Flushed(coder, b), shifts)
    ensures Shifted(DoDirect(coder, d, op), Flushed(coder, Do(coder, b, op)), NextShifts(coder, b, op, shifts))
  {
    hide Shifted, Flushed, DirectInput, DirectDtmf, DelayedInput, DelayedDtmf, EventShifts, NoShifts, TxsOf, Pop;
    match op
    case Arrive(tv, inSeq, works) =>
      DoDrains(coder, b, op);
      ArriveShifted(coder, d, Flushed(coder, b), shifts, inSeq, works);
    case Event(tv, inSeq, copies) =>
      var e' := DtmfFlushed(coder, b, tv, inSeq, copies);
      EventShifted(d, Flushed(coder, b), e', shifts, |b.device.out.sent|, inSeq, copies,
                   Flushed(coder, DelayedDtmf(b, tv, inSeq, copies)));
    case TimerPop =>
      DoDrains(coder, b, op);
  }

  /** Over any run of arrivals, events of any kind and timer pops, every packet of the flushed delayed path
      has the number of the direct path plus its shift: copies - 1 for each event made while it was queued. */
  lemma {:induction false} DelayedNumbers<E(!new), F>(coder: Encoder<E, F>, b: Buffered<E, F>, d: Device<E>,
        ops: seq<Op<F>>, shifts: seq<int>)
    requires InTime(b) && Ordered(b.lastTv, ops) && Shifted(d, Flushed(coder, b), shifts)
    ensures Shifted(RunDirect(coder, d, ops), Flushed(coder, Run(coder, b, ops)), Shifts(coder, b, ops, shifts))
    decreases |ops|
  {
    hide Shifted, Flushed, DoDirect, Do, NextShifts, InTime;
    if ops != [] {
      DoDrains(coder, b, ops[0]);
      DoShifted(coder, b, d, ops[0], shifts);
      DelayedNumbers(coder, Do(coder, b, ops[0]), DoDirect(coder, d, ops[0]), ops[1..],
                     NextShifts(coder, b, ops[0], shifts));
    }
  }

  lemma SameIfNoShift<E(!new)>(d: Device<E>, d': Device<E>, shifts: seq<int>)
    requires Shifted(d, d', shifts)
    ensures d' == d <==> forall k :: 0 <= k < |shifts| ==> shifts[k] % U16 == 0
  {
    forall k | 0 <= k < |shifts| ensures d'.out.sent[k] == d.out.sent[k] <==> shifts[k] % U16 == 0 {
      AddMod16(shifts[k], d.out.sent[k]);
    }
    if forall k :: 0 <= k < |shifts| ==> shifts[k] % U16 == 0 { assert d'.out.sent == d.out.sent; }
  }

  /** So the flushed delayed path is the direct path if and only if every packet's shifts come to nothing. */
  lemma DelayedIsDirectExactly<E(!new), F>(coder: Encoder<E, F>, b: Buffered<E, F>, ops: seq<Op<F>>)
    requires InTime(b) && Ordered(b.lastTv, ops)
    ensures var shifts := Shifts(coder, b, ops, NoShifts(|Flushed(coder, b).out.sent|));
      Flushed(coder, Run(coder, b, ops)) == RunDirect(coder, Flushed(coder, b), ops)
      <==> forall k :: 0 <= k < |shifts| ==> shifts[k] % U16 == 0
  {
    hide Flushed, Run, RunDirect, Shifts;
    var none := NoShifts(|Flushed(coder, b).out.sent|);
    DelayedNumbers(coder, b, Flushed(coder, b), ops, none);
    SameIfNoShift(RunDirect(coder, Flushed(coder, b), ops), Flushed(coder, Run(coder, b, ops)),
                  Shifts(coder, b, ops, none));
  }

  // ----- the code itself -----

  class DelayedStream<E, F> {
    const coder: Encoder<E, F>
    var frames: seq<Frame<Body<F>>>
    var out: Out
    var enc: E
    var inserted: nat
    var lastTv: nat

    function View(): Buffered<E, F>
      reads this
    {
      Buffered(frames, Device(out, enc), inserted, lastTv)
    }

    constructor (coder: Encoder<E, F>, seqDiff: u16, enc: E)
      ensures this.coder == coder && View() == Buffered([], Device(Out(seqDiff, []), enc), 0, 0)
    {
      this.coder := coder;
      frames, out, this.enc, inserted, lastTv := [], Out(seqDiff, []), enc, 0, 0;
    }

    method BufferDelaySeq(seqAdj: int)
      modifies this
      ensures View() == Peg(old(View()), seqAdj)
    {
      if |frames| == 0 {
        out := Adjust(out, seqAdj);
        return;
      }
      var f := frames[0];
      frames := frames[0 := f.(body := f.body.(seqAdj := f.body.seqAdj + seqAdj))];
    }

    /** An input packet with the delay buffer in use: queue what it decodes to, then take one back. */
    method RtpDecode(tv: nat, inSeq: u16, works: seq<Work<F>>)
      modifies this
      ensures View() == DelayedInput(old(View()), tv, inSeq, works)
    {
      lastTv := tv;
      for i := 0 to |works|
        invariant View() == EnqueueAll(old(View()), tv, inSeq, works[..i])
      {
        assert Most(works[..i + 1]) == works[..i] && Last(works[..i + 1]) == works[i];
        var f := Frame(tv, inserted, Body(inSeq, works[i], 0));
        var at := FindPlace(frames, f);
        frames := frames[..at] + [f] + frames[at..];
        inserted := inserted + 1;
      }
      assert works[..|works|] == works;
      BufferDelaySeq(-1);
    }

    /** packet_dtmf with the delay buffer in use and a generated event. */
    method PacketDtmf(tv: nat, inSeq: u16, copies: nat)
      modifies this
      ensures View() == DelayedDtmf(old(View()), tv, inSeq, copies)
    {
      lastTv := tv;
      for i := 0 to copies
        invariant View() == QueueCopies(old(View()), tv, inSeq, i)
      {
        var f := Frame(tv, inserted, Body(inSeq, Forward, 0));
        var at := FindPlace(frames, f);
        frames := frames[..at] + [f] + frames[at..];
        inserted := inserted + 1;
        BufferDelaySeq(-1);
        out := Adjust(out, 1);
      }
      out := Adjust(out, -1);
    }

    method FrameProcess(f: Frame<Body<F>>)
      modifies this`out, this`enc
      ensures Device(out, enc) == Release(coder, old(Device(out, enc)), f)
    {
      match f.body.work {
        case Encode(x) =>
          var (e, txs) := coder(enc, x);
          out := Emit(out, f.body.inSeq, Total(txs));
          enc := e;
        case Forward =>
          out := Emit(out, f.body.inSeq, 1);
      }
      if f.body.seqAdj != 0 {
        out := Adjust(out, f.body.seqAdj);
      }
    }

    /** __delay_buffer_shutdown with flush. */
    method Flush()
      modifies this
      ensures frames == [] && Device(out, enc) == Flushed(coder, old(View()))
    {
      while |frames| > 0
        invariant Drain(coder, frames, Device(out, enc)) == Flushed(coder, old(View()))
        decreases |frames|
      {
        var f := frames[|frames| - 1];
        frames := frames[..|frames| - 1];
        FrameProcess(f);
      }
    }
  }
}
