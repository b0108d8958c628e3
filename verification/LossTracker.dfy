/** The per-SSRC loss tracker: a 32-bit sliding window over 16-bit RTP sequence numbers,
    proved to refine the set of sequence numbers that were seen. */
module LossTracker {
  import opened Words

  const WINDOW := 32

  /** last: last_seq_tracked; lostBits: bit i stands for the number last - i; packetsLost: cumulative count. */
  datatype Tracker = Tracker(last: u32, lostBits: u32, packetsLost: u32)

  /** How codec_calc_lost classifies a packet, by its 16-bit distance from the last tracked number. */
  datatype Kind = Old | Reset | Near | Jump

  function Distance(last: int, seqNum: u16): (d: u16) {
    (seqNum - last) % U16
  }

  function Classify(last: int, seqNum: u16): (k: Kind) {
    var d := Distance(last, seqNum);
    if d == 0 || d >= 0xfeff then Old
    else if d > 0x100 then Reset
    else if d >= WINDOW then Jump
    else Near
  }

  /** Shift one number out of the window, counting it if it was never seen. */
  function Shift(t: Tracker): (r: Tracker) {
    t.(lostBits := ShiftLeft1(t.lostBits),
       packetsLost := if Bit(t.lostBits, 31) then t.packetsLost else (t.packetsLost + 1) % U32)
  }

  function ShiftN(t: Tracker, n: nat): (r: Tracker)
    decreases n
  {
    if n == 0 then t else ShiftN(Shift(t), n - 1)
  }

  /** Record the packet as seen if it lies inside the window. */
  function Mark(t: Tracker, seqNum: u16): (r: Tracker) {
    var back := (t.last - seqNum) % U16;
    if back < WINDOW then t.(lostBits := SetBit(t.lostBits, back)) else t
  }

  /** The tracker moved up to the packet, if that is ahead. */
  function Advanced(t: Tracker, seqNum: u16): (r: Tracker) {
    var d := Distance(t.last, seqNum);
    match Classify(t.last, seqNum)
    case Old => t
    case Reset => t.(last := seqNum, lostBits := U32 - 1)
    case Jump =>
      t.(last := (t.last + d) % U32, lostBits := U32 - 1, packetsLost := (t.packetsLost + WINDOW) % U32)
    case Near => ShiftN(t, d).(last := (t.last + d) % U32)
  }

  /** What one call of codec_calc_lost does to the tracker. */
  function Step(t: Tracker, seqNum: u16): (r: Tracker) {
    Mark(Advanced(t, seqNum), seqNum)
  }

  // ----- the simple form: a set of seen numbers -----

  /** Unwrapped sequence numbers. Everything below base counts as seen; prior is the loss count
      carried over from before base. */
  datatype Seen = Seen(prior: nat, base: int, last: int, seen: set<int>)

  predicate Marked(g: Seen, k: int) {
    k < g.base || k in g.seen
  }

  /** The numbers that have left the window without having been seen in it. */
  function Missed(g: Seen): (m: set<int>)
    ensures forall k :: k in m <==> g.base <= k <= g.last - 32 && k !in g.seen
  {
    set k: int | g.base <= k <= g.last - 32 && k !in g.seen
  }

  function LossCount(g: Seen): (n: nat) {
    g.prior + |Missed(g)|
  }

  /** A fresh start at number v: the whole window counts as seen. */
  function Restart(prior: nat, v: int): (g: Seen) {
    Seen(prior, v, v, {v})
  }

  /** The arrival of number v: advance to it if it is new, and note it if it is inside the window. */
  function Arrive(g: Seen, v: int): (r: Seen) {
    var last := if v > g.last then v else g.last;
    g.(last := last, seen := if last - v < 32 then g.seen + {v} else g.seen)
  }

  /** The unwrapped number that a packet stands for, seen from the last one: a packet up to 0x100 ahead
      belongs to the same or the next 16-bit cycle, one up to 0x101 behind to the past, and any other to a
      new stream. */
  function Unwrapped(last: int, seqNum: u16): (v: int) {
    var ahead := (seqNum - last) % 0x1_0000;
    if ahead == 0 || ahead >= 0xfeff then last - (last - seqNum) % 0x1_0000
    else if ahead > 0x100 then seqNum
    else last + ahead
  }

  /** The set-level meaning of one packet: 32 to 0x100 ahead, 32 are taken as lost and tracking starts
      afresh; a new stream starts afresh with no loss. */
  function SpecStep(g: Seen, seqNum: u16): (r: Seen) {
    var ahead := (seqNum - g.last) % 0x1_0000;
    if 32 <= ahead <= 0x100 then Restart(LossCount(g) + 32, g.last + ahead)
    else if 0x101 <= ahead <= 0xfefe then Restart(LossCount(g), seqNum)
    else Arrive(g, Unwrapped(g.last, seqNum))
  }

  ghost predicate WindowShows(lostBits: u32, g: Seen) {
    forall i :: 0 <= i < 32 ==> (Bit(lostBits, i) <==> Marked(g, g.last - i))
  }

  ghost predicate Refines(t: Tracker, g: Seen) {
    && t.last == g.last % U32
    && g.base <= g.last
    && (forall k :: k in g.seen ==> k <= g.last)
    && WindowShows(t.lostBits, g)
    && t.packetsLost == LossCount(g) % U32
  }

  // ----- refinement of one step -----

  lemma ShiftWindow(w: u32, g: Seen)
    requires WindowShows(w, g) && g.base <= g.last && forall k :: k in g.seen ==> k <= g.last
    ensures WindowShows(ShiftLeft1(w), g.(last := g.last + 1))
  {
    var g' := g.(last := g.last + 1);
    forall i | 0 <= i < WINDOW
      ensures Bit(ShiftLeft1(w), i) <==> Marked(g', g'.last - i)
    {
      ShiftLeft1Bits(w, i);
      if i > 0 {
        assert g'.last - i == g.last - (i - 1);
      }
    }
  }

  lemma ShiftCount(w: u32, g: Seen)
    requires WindowShows(w, g)
    ensures LossCount(g.(last := g.last + 1)) == LossCount(g) + (if Bit(w, 31) then 0 else 1)
  {
    var g', out := g.(last := g.last + 1), g.last - 31;
    assert Bit(w, 31) <==> Marked(g, out);
    if Marked(g, out) {
      assert Missed(g') == Missed(g);
    } else {
      assert Missed(g') == Missed(g) + {out};
    }
  }

  lemma ShiftRefines(t: Tracker, g: Seen)
    requires Refines(t, g)
    ensures Refines(Shift(t).(last := (t.last + 1) % U32), g.(last := g.last + 1))
  {
    ShiftWindow(t.lostBits, g);
    ShiftCount(t.lostBits, g);
    AddMod32(g.last, 1);
    AddMod32(LossCount(g), 1);
  }

  lemma {:induction false} ShiftNIgnoresLast(t: Tracker, last: u32, n: nat)
    ensures ShiftN(t.(last := last), n) == ShiftN(t, n).(last := last)
    decreases n
  {
    if n > 0 { ShiftNIgnoresLast(Shift(t), last, n - 1); }
  }

  lemma {:induction false} ShiftNRefines(t: Tracker, g: Seen, n: nat)
    requires Refines(t, g)
    ensures Refines(ShiftN(t, n).(last := (t.last + n) % U32), g.(last := g.last + n))
    decreases n
  {
    if n > 0 {
      ShiftRefines(t, g);
      var t1 := Shift(t).(last := (t.last + 1) % U32);
      ShiftNRefines(t1, g.(last := g.last + 1), n - 1);
      ShiftNIgnoresLast(Shift(t), t1.last, n - 1);
      AddMod32(t.last + 1, n - 1);
    }
  }

  lemma MarkRefines(t: Tracker, g: Seen, seqNum: u16)
    requires Refines(t, g)
    ensures Refines(Mark(t, seqNum), Arrive(g, g.last - (t.last - seqNum) % U16))
  {
    var back := (t.last - seqNum) % U16;
    var g' := Arrive(g, g.last - back);
    if back < WINDOW {
      assert Missed(g') == Missed(g);
    }
  }

  lemma RestartRefines(prior: nat, v: int, t: Tracker)
    requires t.last == v % U32 && t.lostBits == U32 - 1 && t.packetsLost == prior % U32
    ensures Refines(t, Restart(prior, v))
  {
    var g := Restart(prior, v);
    Pow2Values();
    forall i | 0 <= i < WINDOW
      ensures Bit(t.lostBits, i) && Marked(g, v - i)
    {
      AllOnes(32, i);
    }
    assert Missed(g) == {};
  }

  lemma LandsOn(last: u32, seqNum: u16)
    ensures ((last + (seqNum - last) % U16) % U32 - seqNum) % U16 == 0
  {
    var d := (seqNum - last) % U16;
    assert (last + d) % U16 == seqNum;
    assert (last + d) % U32 % U16 == (last + d) % U16;
  }

  lemma MultipleOf16(x: int, c: int)
    ensures (x + c * U16) % U16 == x % U16
  {
  }

  /** Wrapping the last number at 32 bits does not matter to 16-bit distances. */
  lemma SameDistance(last: int, seqNum: u16)
    ensures (seqNum - last % U32) % U16 == (seqNum - last) % U16
    ensures (last % U32 - seqNum) % U16 == (last - seqNum) % U16
  {
    var c := last / U32;
    assert last == last % U32 + c * U32;
    MultipleOf16(seqNum - last, c * U16);
    MultipleOf16(last % U32 - seqNum, c * U16);
  }

  lemma NearRefines(t: Tracker, g: Seen, seqNum: u16)
    requires Refines(t, g) && Classify(t.last, seqNum) == Near
    ensures Refines(Step(t, seqNum), Arrive(g, g.last + Distance(t.last, seqNum)))
  {
    var d := Distance(t.last, seqNum);
    ShiftNRefines(t, g, d);
    LandsOn(t.last, seqNum);
    var t1, g1 := ShiftN(t, d).(last := (t.last + d) % U32), g.(last := g.last + d);
    MarkRefines(t1, g1, seqNum);
  }

  lemma JumpRefines(t: Tracker, g: Seen, seqNum: u16)
    requires Refines(t, g) && Classify(t.last, seqNum) == Jump
    ensures Refines(Step(t, seqNum), Restart(LossCount(g) + WINDOW, g.last + Distance(t.last, seqNum)))
  {
    var d := Distance(t.last, seqNum);
    var g1 := Restart(LossCount(g) + WINDOW, g.last + d);
    var t1 := t.(last := (t.last + d) % U32, lostBits := U32 - 1, packetsLost := (t.packetsLost + WINDOW) % U32);
    AddMod32(g.last, d);
    AddMod32(LossCount(g), WINDOW);
    RestartRefines(g1.prior, g1.last, t1);
    LandsOn(t.last, seqNum);
    MarkRefines(t1, g1, seqNum);
  }

  lemma ResetRefines(t: Tracker, g: Seen, seqNum: u16)
    requires Refines(t, g) && Classify(t.last, seqNum) == Reset
    ensures Refines(Step(t, seqNum), Restart(LossCount(g), seqNum))
  {
    var t1 := t.(last := seqNum, lostBits := U32 - 1);
    RestartRefines(LossCount(g), seqNum, t1);
    MarkRefines(t1, Restart(LossCount(g), seqNum), seqNum);
  }

  lemma OldRefines(t: Tracker, g: Seen, seqNum: u16)
    requires Refines(t, g) && Classify(t.last, seqNum) == Old
    ensures Refines(Step(t, seqNum), Arrive(g, g.last - (g.last - seqNum) % U16))
  {
    assert t.last == g.last % U32;
    hide Refines, Mark, Arrive;
    SameDistance(g.last, seqNum);
    MarkRefines(t, g, seqNum);
  }

  lemma SameKind(t: Tracker, g: Seen, seqNum: u16)
    requires Refines(t, g)
    ensures Distance(t.last, seqNum) == Distance(g.last, seqNum) && Classify(t.last, seqNum) == Classify(g.last, seqNum)
  {
    assert t.last == g.last % U32;
    hide Refines;
    SameDistance(g.last, seqNum);
  }

  /** A packet of any distance, forward or back, in order or not: the bit window after the call is
      again the window of the seen set, and the counter again its loss count. */
  lemma StepRefines(t: Tracker, g: Seen, seqNum: u16)
    requires Refines(t, g)
    ensures Refines(Step(t, seqNum), SpecStep(g, seqNum))
  {
    hide Refines, Mark, LossCount, Arrive, Restart;
    SameKind(t, g, seqNum);
    match Classify(t.last, seqNum)
    case Old => OldRefines(t, g, seqNum);
    case Near => NearRefines(t, g, seqNum);
    case Jump => JumpRefines(t, g, seqNum);
    case Reset => ResetRefines(t, g, seqNum);
  }

  // ----- whole runs -----

  function Run(t: Tracker, seqs: seq<u16>): (r: Tracker)
    decreases |seqs|
  {
    if seqs == [] then t else Run(Step(t, seqs[0]), seqs[1..])
  }

  function SpecRun(g: Seen, seqs: seq<u16>): (r: Seen)
    decreases |seqs|
  {
    if seqs == [] then g else SpecRun(SpecStep(g, seqs[0]), seqs[1..])
  }

  /** A new SSRC entry: nothing tracked, every bit set. */
  const INITIAL := Tracker(0, U32 - 1, 0)

  lemma {:induction false} RunRefines(t: Tracker, g: Seen, seqs: seq<u16>)
    requires Refines(t, g)
    ensures Refines(Run(t, seqs), SpecRun(g, seqs))
    decreases |seqs|
  {
    hide Refines, Step, SpecStep;
    if seqs != [] {
      StepRefines(t, g, seqs[0]);
      RunRefines(Step(t, seqs[0]), SpecStep(g, seqs[0]), seqs[1..]);
    }
  }

  // ----- what the seen set of a run is -----

  function NextLast(last: int, seqNum: u16): (r: int) {
    var v := Unwrapped(last, seqNum);
    if v > last then v else last
  }

  /** No packet of the run jumps ahead by more than the window or restarts the tracker. */
  predicate Gentle(last: int, seqs: seq<u16>)
    decreases |seqs|
  {
    seqs == [] ||
    var ahead := (seqs[0] - last) % 0x1_0000;
    (ahead < 32 || ahead >= 0xfeff) && Gentle(NextLast(last, seqs[0]), seqs[1..])
  }

  /** The highest number so far. */
  function LastAfter(last: int, seqs: seq<u16>): (r: int)
    decreases |seqs|
  {
    if seqs == [] then last else LastAfter(NextLast(last, seqs[0]), seqs[1..])
  }

  /** The i-th packet stands for number k and comes no later than 32 numbers after it. */
  predicate NotedAs(last: int, seqs: seq<u16>, i: nat, k: int)
    requires i < |seqs|
  {
    var before := LastAfter(last, seqs[..i]);
    Unwrapped(before, seqs[i]) == k && before - k < 32
  }

  ghost predicate Noted(last: int, seqs: seq<u16>, k: int) {
    exists i :: 0 <= i < |seqs| && NotedAs(last, seqs, i, k)
  }

  lemma NotedFirst(last: int, seqs: seq<u16>, k: int)
    requires seqs != []
    ensures Noted(last, seqs, k) <==>
      NotedAs(last, seqs, 0, k) || Noted(NextLast(last, seqs[0]), seqs[1..], k)
  {
    var next, rest := NextLast(last, seqs[0]), seqs[1..];
    hide NextLast, Unwrapped;
    forall i | 0 <= i < |rest| ensures NotedAs(next, rest, i, k) <==> NotedAs(last, seqs, i + 1, k) {
      assert seqs[..i + 1][0] == seqs[0] && seqs[..i + 1][1..] == rest[..i];
    }
    if i :| 0 <= i < |seqs| && NotedAs(last, seqs, i, k) {
      if i > 0 { assert NotedAs(next, rest, i - 1, k); }
    }
    if i :| 0 <= i < |rest| && NotedAs(next, rest, i, k) { assert NotedAs(last, seqs, i + 1, k); }
  }

  /** The seen set holds exactly the numbers that packets of the run stand for and that had not left
      the window when they came. */
  lemma {:induction false} SeenMeaning(g: Seen, seqs: seq<u16>, k: int)
    requires Gentle(g.last, seqs)
    ensures var r := SpecRun(g, seqs);
      && r.base == g.base && r.prior == g.prior && r.last == LastAfter(g.last, seqs)
      && (k in r.seen <==> k in g.seen || Noted(g.last, seqs, k))
    decreases |seqs|
  {
    if seqs != [] {
      var g' := SpecStep(g, seqs[0]);
      assert g'.last == NextLast(g.last, seqs[0]);
      assert k in g'.seen <==> k in g.seen || NotedAs(g.last, seqs, 0, k) by {
        assert seqs[..0] == [];
      }
      NotedFirst(g.last, seqs, k);
      hide SpecStep, NextLast, Noted, NotedAs;
      SeenMeaning(g', seqs[1..], k);
    }
  }

  lemma LossCountIs(g: Seen, v: int, seqs: seq<u16>)
    requires g.base == v && forall k :: k in g.seen <==> k == v || Noted(v, seqs, k)
    ensures LossCount(g) == g.prior + |set k: int | v < k <= g.last - 32 && !Noted(v, seqs, k)|
  {
    hide Noted;
    assert Missed(g) == set k: int | v < k <= g.last - 32 && !Noted(v, seqs, k);
  }

  lemma RefinesLast(t: Tracker, g: Seen)
    requires Refines(t, g)
    ensures t.last == g.last % U32 && t.packetsLost == LossCount(g) % U32
  {
  }

  lemma RefinesBit(t: Tracker, g: Seen, i: nat)
    requires Refines(t, g) && i < WINDOW
    ensures Bit(t.lostBits, i) <==> Marked(g, g.last - i)
  {
  }

  /** From any restart, over any run whose forward steps stay below the window, the counter grows by
      exactly the numbers since the restart that left the window without a packet, and bit i of the
      window says whether the i-th number back came. */
  lemma LossIsExact(prior: nat, v: int, t: Tracker, seqs: seq<u16>)
    requires t.last == v % U32 && t.lostBits == U32 - 1 && t.packetsLost == prior % U32
    requires Gentle(v, seqs)
    ensures var last, r := LastAfter(v, seqs), Run(t, seqs);
      && r.packetsLost == (prior + |set k: int | v < k <= last - 32 && !Noted(v, seqs, k)|) % U32
      && r.last == last % U32
      && (forall i :: 0 <= i < 32 ==> (Bit(r.lostBits, i) <==> last - i <= v || Noted(v, seqs, last - i)))
  {
    hide Noted, Run, SpecRun, Gentle, Bit, Refines, LossCount;
    RestartRefines(prior, v, t);
    RunRefines(t, Restart(prior, v), seqs);
    var g, r := SpecRun(Restart(prior, v), seqs), Run(t, seqs);
    SeenMeaning(Restart(prior, v), seqs, v);
    forall k ensures k in g.seen <==> k == v || Noted(v, seqs, k) { SeenMeaning(Restart(prior, v), seqs, k); }
    LossCountIs(g, v, seqs);
    RefinesLast(r, g);
    forall i | 0 <= i < WINDOW ensures Bit(r.lostBits, i) <==> g.last - i <= v || Noted(v, seqs, g.last - i) {
      RefinesBit(r, g, i);
    }
  }

  lemma StepIs(t: Tracker, seqNum: u16)
    ensures Step(t, seqNum) == Mark(Advanced(t, seqNum), seqNum)
  {
  }

  lemma AllOnesStay(i: nat)
    requires i < 32
    ensures SetBit(U32 - 1, i) == U32 - 1
  {
    Pow2Values();
    AllOnes(32, i);
  }

  /** 32 to 0x100 ahead: 32 packets are counted as lost, the whole window counts as seen, and the last number
      moves up by the distance. */
  lemma JumpMeaning(t: Tracker, seqNum: u16)
    requires 32 <= (seqNum - t.last) % 0x1_0000 <= 0x100
    ensures var r := Step(t, seqNum);
      && r.packetsLost == (t.packetsLost + 32) % 0x1_0000_0000 && r.lostBits == 0xffff_ffff
      && r.last == (t.last + (seqNum - t.last) % 0x1_0000) % 0x1_0000_0000
  {
    hide SetBit;
    var back := (Advanced(t, seqNum).last - seqNum) % U16;
    if back < 32 { AllOnesStay(back); }
  }

  /** 0x101 to 0xfefe ahead: a new stream, tracked from the packet's own number with no loss counted. */
  lemma ResetMeaning(t: Tracker, seqNum: u16)
    requires 0x101 <= (seqNum - t.last) % 0x1_0000 <= 0xfefe
    ensures Step(t, seqNum) == Tracker(seqNum, 0xffff_ffff, t.packetsLost)
  {
    hide SetBit;
    var back := (Advanced(t, seqNum).last - seqNum) % U16;
    if back < 32 { AllOnesStay(back); }
  }

  /** A repeated packet, or one up to 0x101 behind: nothing is counted, and one bit is set if the packet is
      less than 32 behind. */
  lemma OldMeaning(t: Tracker, seqNum: u16, i: nat)
    requires i < 32 && ((seqNum - t.last) % 0x1_0000 == 0 || (seqNum - t.last) % 0x1_0000 >= 0xfeff)
    ensures var r := Step(t, seqNum);
      && r.last == t.last && r.packetsLost == t.packetsLost
      && (Bit(r.lostBits, i) <==> Bit(t.lostBits, i) || (t.last - seqNum) % 0x1_0000 == i)
  {
    hide Bit, SetBit;
  }

  lemma Residue(r: u16, c: int, d: u16, x: int)
    requires x == r + c * U16 && d == x % U16
    ensures d == r
  {
  }

  /** The number put into the last one's 16-bit cycle, or into the next cycle. */
  lemma ExtendCases(lastSeq: u32, seqNum: u16, d: u16)
    requires d == (seqNum - lastSeq) % U16
    ensures var n := lastSeq - lastSeq % U16 + seqNum;
      && n < U32
      && (n >= lastSeq ==> n == lastSeq + d)
      && (n < lastSeq ==> n + U16 == lastSeq + d)
      && (n + U16 >= U32 ==> (n + U16 - U32) / U16 == 0)
      && (n + U16 < U32 ==> (n + U16) / U16 != 0)
  {
    var low, cycle := lastSeq % U16, lastSeq / U16;
    assert lastSeq == cycle * U16 + low && cycle < U16;
    if seqNum >= low {
      Residue(seqNum - low, -cycle, d, seqNum - lastSeq);
    } else {
      Residue(seqNum - low + U16, -cycle - 1, d, seqNum - lastSeq);
    }
  }

  /** The sequence-wrap loop: extend a 16-bit number that lies at most 0x100 ahead. */
  method ExtendSeq(lastSeq: u32, seqNum: u16) returns (newSeq: u32)
    requires 1 <= (seqNum - lastSeq) % U16 <= 0x100
    ensures newSeq == (lastSeq + (seqNum - lastSeq) % U16) % U32
  {
    ghost var d: u16 := (seqNum - lastSeq) % U16;
    ExtendCases(lastSeq, seqNum, d);
    newSeq := lastSeq - lastSeq % U16 + seqNum;
    ghost var n := newSeq;
    while newSeq < lastSeq
      invariant newSeq < lastSeq ==> newSeq == n
      invariant newSeq >= lastSeq ==> newSeq == lastSeq + d
    {
      newSeq := (newSeq + U16) % U32;
      if newSeq / U16 == 0 {
        break;
      }
    }
  }

  lemma BackToDistance(last: u32, d: u16)
    ensures ((last + d) % U32 - last) % U16 == d
  {
    assert (last + d) % U32 == last + d || (last + d) % U32 == last + d - U32;
  }

  // ----- the code itself -----

  class SsrcEntry {
    var lastSeqTracked: u32
    var lostBits: u32
    var packetsLost: u32

    function View(): Tracker
      reads this
    {
      Tracker(lastSeqTracked, lostBits, packetsLost)
    }

    constructor ()
      ensures View() == INITIAL
    {
      lastSeqTracked, lostBits, packetsLost := 0, U32 - 1, 0;
    }

    /** Shift the window by n numbers, counting those that leave it unseen. */
    method CountLosses(n: nat)
      modifies this`lostBits, this`packetsLost
      ensures View() == ShiftN(old(View()), n)
    {
      var seqDiff := n;
      while seqDiff > 0
        invariant 0 <= seqDiff <= n
        invariant ShiftN(View(), seqDiff) == ShiftN(old(View()), n)
      {
        ghost var t := View();
        if !Bit(lostBits, 31) {
          packetsLost := (packetsLost + 1) % U32;
        }
        lostBits := ShiftLeft1(lostBits);
        assert View() == Shift(t);
        seqDiff := seqDiff - 1;
      }
    }

    /** codec_calc_lost up to the marking: move the window up to a packet that is ahead. */
    method Advance(seqNum: u16)
      modifies this
      ensures View() == Advanced(old(View()), seqNum)
      ensures lastSeqTracked ==
        var ahead := (seqNum - old(lastSeqTracked)) % 0x1_0000;
        if ahead == 0 || ahead >= 0xfeff then old(lastSeqTracked)
        else if ahead > 0x100 then seqNum
        else (old(lastSeqTracked) + ahead) % 0x1_0000_0000
    {
      hide ShiftN;
      ghost var t := View();
      var lastSeq := lastSeqTracked;
      var seqDiff: u16 := (seqNum - lastSeq % U16) % U16;
      SubMod16(seqNum, lastSeq);
      assert seqDiff == Distance(t.last, seqNum);
      if seqDiff == 0 || seqDiff >= 0xfeff {
      } else if seqDiff > 0x100 {
        lastSeqTracked := seqNum;
        lostBits := U32 - 1;
      } else {
        var newSeq := ExtendSeq(lastSeq, seqNum);
        seqDiff := (newSeq - lastSeq) % U16;
        BackToDistance(lastSeq, Distance(t.last, seqNum));
        lastSeqTracked := newSeq;
        if seqDiff >= WINDOW {
          packetsLost := (packetsLost + WINDOW) % U32;
          lostBits := U32 - 1;
        } else {
          ShiftNIgnoresLast(t, newSeq, seqDiff);
          CountLosses(seqDiff);
        }
      }
    }

    method CalcLost(seqNum: u16)
      modifies this
      ensures View() == Step(old(View()), seqNum)
      ensures 32 <= (seqNum - old(lastSeqTracked)) % 0x1_0000 <= 0x100 ==>
        packetsLost == (old(packetsLost) + 32) % 0x1_0000_0000 && lostBits == 0xffff_ffff
      ensures 0x101 <= (seqNum - old(lastSeqTracked)) % 0x1_0000 <= 0xfefe ==>
        packetsLost == old(packetsLost) && lostBits == 0xffff_ffff && lastSeqTracked == seqNum
    {
      hide Advanced, Step;
      ghost var t := View();
      StepIs(t, seqNum);
      if 32 <= (seqNum - t.last) % 0x1_0000 <= 0x100 { JumpMeaning(t, seqNum); }
      if 0x101 <= (seqNum - t.last) % 0x1_0000 <= 0xfefe { ResetMeaning(t, seqNum); }
      Advance(seqNum);
      var seqDiff: u16 := (lastSeqTracked % U16 - seqNum) % U16;
      SubMod16(lastSeqTracked, seqNum);
      if seqDiff < WINDOW {
        lostBits := SetBit(lostBits, seqDiff);
      }
    }
  }
}
