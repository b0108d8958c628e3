/** The send-time scheduler of codec_output_rtp: wrapping timestamps, an anchor that maps them to
    wall-clock time, and skew correction. Times are in microseconds. */
module SendScheduler {
  import opened Words

  const SECOND := 1_000_000

  /** The scheduling part of struct codec_scheduler. */
  datatype Sched = Sched(firstSend: int, firstSendTs: u64, outputSkew: int, skewSamples: nat, isMediaPlayback: bool)

  const ZEROED := Sched(0, 0, 0, 0, false)

  /** One packet: its timestamp, the extra timestamp delay, the clock rate and the time of the call. */
  datatype Packet = Packet(ts: u64, tsDelay: u64, clockRate: u32, now: int)

  /** The timestamp distance from the anchor, on 32 bits. */
  function TsDiff(c: Sched, p: Packet): (d: u32) {
    ((p.ts % U32 - c.firstSendTs % U32) % U32 + p.tsDelay) % U32
  }

  /** The send time the anchor gives a packet. */
  function AnchorTime(c: Sched, p: Packet): (t: int)
    requires p.clockRate > 0
  {
    c.firstSend + TsDiff(c, p) * SECOND / p.clockRate
  }

  predicate Implausible(c: Sched, p: Packet)
    requires p.clockRate > 0
  {
    AnchorTime(c, p) - p.now > SECOND || AnchorTime(c, p) - p.now < -SECOND
  }

  /** The anchor is unusable: the stream is (re)started at this packet, to be sent now. */
  predicate Restarts(c: Sched, p: Packet) {
    c.firstSend == 0 || p.clockRate == 0 || Implausible(c, p) || AnchorTime(c, p) == 0
  }

  datatype Outcome = Outcome(sched: Sched, when: int)

  function Anchored(c: Sched, p: Packet): (r: Outcome)
    ensures -SECOND <= r.when - p.now <= SECOND
  {
    if Restarts(c, p) then Outcome(c.(firstSend := p.now, firstSendTs := p.ts), p.now)
    else Outcome(c, AnchorTime(c, p))
  }

  function CountSample(c: Sched, ahead: int): (r: Sched) {
    if !c.isMediaPlayback && ahead >= 0
    then c.(skewSamples := c.skewSamples + 1, outputSkew := if ahead < c.outputSkew then ahead else c.outputSkew)
    else c
  }

  function Correct(c: Sched, p: Packet, when: int): (r: Outcome) {
    var ahead := when - p.now;
    if c.skewSamples >= 25 then
      var c' := c.(skewSamples := 0, outputSkew := 0);
      if c.outputSkew > 50_000
      then Outcome(c'.(firstSendTs := (c.firstSendTs + p.clockRate / 100) % U64), when - 10_000)
      else Outcome(c', when)
    else if ahead < 0 then
      Outcome(c.(skewSamples := 0, outputSkew := 0,
                 firstSendTs := (c.firstSendTs - p.clockRate * -ahead / SECOND) % U64), p.now)
    else Outcome(c, when)
  }

  /** Scheduling of one packet sent without a supplied sequence number. */
  function Schedule(c: Sched, p: Packet): (r: Outcome) {
    var a := Anchored(c, p);
    Correct(CountSample(a.sched, a.when - p.now), p, a.when)
  }

  // ----- what holds in every run -----

  /** Fewer than 25 samples are ever pending, and from a zeroed state the skew minimum never leaves zero. */
  predicate Inv(c: Sched) {
    c.skewSamples < 25 && c.outputSkew == 0
  }

  lemma ScheduleBound(c: Sched, p: Packet)
    requires c.skewSamples < 25
    ensures p.now <= Schedule(c, p).when <= p.now + SECOND
    ensures Schedule(c, p).sched.skewSamples < 25
    ensures c.outputSkew == 0 ==> Schedule(c, p).sched.outputSkew == 0
  {
  }

  function Run(c: Sched, ps: seq<Packet>): (r: seq<Outcome>)
    ensures |r| == |ps|
    decreases |ps|
  {
    if ps == [] then []
    else [Schedule(c, ps[0])] + Run(Schedule(c, ps[0]).sched, ps[1..])
  }

  /** The branch that shifts the send timer back by 10 ms. */
  predicate SteadySkewFires(c: Sched, p: Packet) {
    var a := Anchored(c, p);
    var counted := CountSample(a.sched, a.when - p.now);
    counted.skewSamples >= 25 && counted.outputSkew > 50_000
  }

  /** Whatever the clock and the timestamps do: every packet of every run from a zeroed scheduler is
      sent no earlier than now and within a second. The steady-skew shift never happens, because the
      skew minimum starts at zero. */
  lemma {:induction false} EverySendIsTimely(c: Sched, ps: seq<Packet>, i: nat)
    requires Inv(c) && i < |ps|
    ensures ps[i].now <= Run(c, ps)[i].when <= ps[i].now + SECOND
    ensures Inv(Run(c, ps)[i].sched)
    ensures !SteadySkewFires(if i == 0 then c else Run(c, ps)[i - 1].sched, ps[i])
    decreases i
  {
    ScheduleBound(c, ps[0]);
    if i > 0 { EverySendIsTimely(Schedule(c, ps[0]).sched, ps[1..], i - 1); }
  }

  // ----- the correction moves the anchor, not just one packet -----

  lemma TsDiffPlain(ts: int, anchor: int, delay: int)
    ensures ((ts - anchor % U32) % U32 + delay) % U32 == (ts - anchor + delay) % U32
  {
    SubMod32(ts, anchor);
    AddMod32(ts - anchor, delay);
  }

  lemma ShiftAnchorTs(ts: int, anchor: int, delay: int, k: nat)
    ensures ((ts - (anchor - k) % U64 % U32) % U32 + delay) % U32
         == (((ts - anchor % U32) % U32 + delay) % U32 + k) % U32
  {
    Mod64To32(anchor - k);
    TsDiffPlain(ts, anchor - k, delay);
    TsDiffPlain(ts, anchor, delay);
    AddMod32(ts - anchor + delay, k);
  }

  lemma DivBounds(n: nat, r: nat)
    requires r > 0
    ensures n / r * r <= n < (n / r + 1) * r
  {
    assert n == n / r * r + n % r;
  }

  lemma DivBelow(n: nat, r: nat, b: int)
    requires r > 0 && n < b * r
    ensures n / r < b
  {
    DivBounds(n, r);
  }

  lemma DivAbove(n: nat, r: nat, b: int)
    requires r > 0 && n >= b * r
    ensures n / r >= b
  {
    DivBounds(n, r);
  }

  lemma DivisionShift(d: nat, k: nat, r: nat, late: nat)
    requires r > 0 && k == r * late / SECOND
    ensures d * SECOND / r + late - SECOND / r - 1 <= (d + k) * SECOND / r <= d * SECOND / r + late
  {
    var q := d * SECOND / r;
    assert q * r <= d * SECOND < (q + 1) * r by { DivBounds(d * SECOND, r); }
    assert k * SECOND <= r * late < (k + 1) * SECOND;
    var n := (d + k) * SECOND;
    assert n < (q + 1 + late) * r;
    DivBelow(n, r, q + 1 + late);
    var w := SECOND / r;
    assert SECOND < (w + 1) * r by { DivBounds(SECOND, r); }
    assert n >= (q + late) * r - SECOND;
    assert n >= (q + late - w - 1) * r;
    DivAbove(n, r, q + late - w - 1);
  }

  lemma TicksNonNegative(rate: nat, late: nat)
    ensures rate * late / SECOND >= 0
  {
    assert rate * late >= 0;
  }

  /** How many timestamp units a delay comes to. */
  function Ticks(rate: nat, late: nat): (k: nat) {
    TicksNonNegative(rate, late);
    rate * late / SECOND
  }

  /** What happens to a late packet, before any arithmetic. */
  lemma LateOutcome(c: Sched, p: Packet)
    requires c.skewSamples < 25 && !Restarts(c, p) && AnchorTime(c, p) < p.now
    ensures var k := Ticks(p.clockRate, p.now - AnchorTime(c, p));
      var sched := c.(skewSamples := 0, outputSkew := 0, firstSendTs := (c.firstSendTs - k) % U64);
      Schedule(c, p) == Outcome(sched, p.now)
  {
    hide AnchorTime, Implausible;
  }

  lemma LateTsDiff(c: Sched, c': Sched, p: Packet, k: nat)
    requires c'.firstSendTs == (c.firstSendTs - k) % U64
    ensures TsDiff(c', p) == (TsDiff(c, p) + k) % U32
  {
    ShiftAnchorTs(p.ts % U32, c.firstSendTs, p.tsDelay, k);
  }

  lemma LateAnchorTime(c: Sched, c': Sched, p: Packet, late: nat)
    requires p.clockRate > 0 && c'.firstSend == c.firstSend
    requires TsDiff(c', p) == TsDiff(c, p) + Ticks(p.clockRate, late)
    ensures AnchorTime(c, p) + late - SECOND / p.clockRate - 1 <= AnchorTime(c', p) <= AnchorTime(c, p) + late
  {
    hide TsDiff;
    DivisionShift(TsDiff(c, p), Ticks(p.clockRate, late), p.clockRate, late);
  }

  /** A whole cycle of timestamps lasts longer than one clock tick and a bit. */
  lemma CycleIsLong(r: nat)
    requires 0 < r < U32
    ensures U32 * SECOND / r >= SECOND / r + 2
  {
    var w := SECOND / r;
    assert w * r <= SECOND by { DivBounds(SECOND, r); }
    assert (w + 2) * r == w * r + 2 * r;
    DivAbove(U32 * SECOND, r, w + 2);
  }

  lemma DivSplit(a: nat, b: nat, r: nat)
    requires r > 0 && a >= b
    ensures (a - b) / r + b / r <= a / r
  {
    var p, q := (a - b) / r, b / r;
    assert p * r <= a - b by { DivBounds(a - b, r); }
    assert q * r <= b by { DivBounds(b, r); }
    assert (p + q) * r == p * r + q * r;
    DivAbove(a, r, p + q);
  }

  lemma TicksAre(rate: nat, late: nat)
    ensures Ticks(rate, late) == rate * late / SECOND
  {
  }

  lemma WrappedAnchorTime(c: Sched, c': Sched, p: Packet, late: nat)
    requires p.clockRate > 0 && c'.firstSend == c.firstSend && TsDiff(c, p) + Ticks(p.clockRate, late) >= U32
    requires TsDiff(c', p) == TsDiff(c, p) + Ticks(p.clockRate, late) - U32
    ensures AnchorTime(c', p) < AnchorTime(c, p) + late - SECOND / p.clockRate - 1
  {
    hide TsDiff, Ticks;
    var d, k, r := TsDiff(c, p), Ticks(p.clockRate, late), p.clockRate;
    assert k == r * late / SECOND by { TicksAre(r, late); }
    DivisionShift(d, k, r, late);
    CycleIsLong(r);
    DivSplit((d + k) * SECOND, U32 * SECOND, r);
    assert (d + k - U32) * SECOND == (d + k) * SECOND - U32 * SECOND;
  }

  /** A plausible delay comes to less than a second's worth of timestamps. */
  lemma FewTicks(rate: nat, late: nat)
    requires late <= SECOND
    ensures Ticks(rate, late) <= rate
  {
    assert rate * late <= rate * SECOND;
    DivBelow(rate * late, SECOND, rate + 1);
  }

  lemma NotTooLate(c: Sched, p: Packet)
    requires !Restarts(c, p)
    ensures p.clockRate > 0 && p.now - AnchorTime(c, p) <= SECOND
  {
    hide AnchorTime;
  }

  /** A packet that is already late is sent now, and the anchor is moved. The new anchor agrees with that, it
      gives this very timestamp a send time at most one clock tick before now, if and only if the 32-bit
      distance from the anchor does not wrap; if it wraps, the anchor is left a whole cycle too early. */
  lemma LatePacketMovesAnchor(c: Sched, p: Packet)
    requires c.skewSamples < 25 && !Restarts(c, p) && AnchorTime(c, p) < p.now
    ensures Schedule(c, p).when == p.now
    ensures p.now - SECOND / p.clockRate - 1 <= AnchorTime(Schedule(c, p).sched, p) <= p.now
       <==> TsDiff(c, p) + Ticks(p.clockRate, p.now - AnchorTime(c, p)) < U32
  {
    hide AnchorTime, TsDiff, Schedule, Ticks, Restarts;
    NotTooLate(c, p);
    var late := p.now - AnchorTime(c, p);
    var k, c' := Ticks(p.clockRate, late), Schedule(c, p).sched;
    LateOutcome(c, p);
    LateTsDiff(c, c', p, k);
    FewTicks(p.clockRate, late);
    if TsDiff(c, p) + k < U32 {
      LateAnchorTime(c, c', p, late);
    } else {
      WrappedAnchorTime(c, c', p, late);
    }
  }

  // ----- what a send time means -----

  /** The timestamp distance from the anchor, and the time at which a packet is due: the anchor's time plus
      the duration of that distance. */
  function Distance(c: Sched, p: Packet): (d: nat) {
    (p.ts - c.firstSendTs + p.tsDelay) % 0x1_0000_0000
  }

  function DueTime(c: Sched, p: Packet): (t: int)
    requires p.clockRate > 0
  {
    c.firstSend + Distance(c, p) * 1_000_000 / p.clockRate
  }

  lemma DistanceIsTsDiff(c: Sched, p: Packet)
    ensures TsDiff(c, p) == Distance(c, p)
  {
    TsDiffPlain(p.ts % U32, c.firstSendTs, p.tsDelay);
    AddMod32(p.ts, p.tsDelay - c.firstSendTs);
  }

  lemma DueTimeIsAnchorTime(c: Sched, p: Packet)
    requires p.clockRate > 0
    ensures AnchorTime(c, p) == DueTime(c, p)
  {
    DistanceIsTsDiff(c, p);
    hide TsDiff, Distance;
  }

  /** No steady skew has built up; so it is in every run from a zeroed scheduler. */
  predicate Settled(c: Sched) {
    c.outputSkew <= 50_000 && c.skewSamples < 25
  }

  /** The anchor can be used for the packet and gives it a time from now to a second ahead. */
  predicate OnTime(c: Sched, p: Packet) {
    c.firstSend != 0 && p.clockRate > 0 && DueTime(c, p) != 0 && 0 <= DueTime(c, p) - p.now <= 1_000_000
  }

  /** The anchor can be used for the packet, whose time has passed by up to a second. */
  predicate Late(c: Sched, p: Packet) {
    c.firstSend != 0 && p.clockRate > 0 && DueTime(c, p) != 0 && -1_000_000 <= DueTime(c, p) - p.now < 0
  }

  /** A packet that is on time is sent exactly when it is due, a late one now, and when there is no usable
      anchor the packet is sent now and becomes the anchor itself. Only a late packet or a restart moves
      the anchor: the former by the timestamps that correspond to the delay. */
  lemma SendTimeMeaning(c: Sched, p: Packet)
    requires Settled(c)
    ensures var r := Schedule(c, p);
      && (OnTime(c, p) ==>
            r.when == DueTime(c, p) && r.sched.firstSend == c.firstSend && r.sched.firstSendTs == c.firstSendTs)
      && (Late(c, p) ==>
            && r.when == p.now && r.sched.firstSend == c.firstSend
            && r.sched.firstSendTs == (c.firstSendTs - p.clockRate * (p.now - DueTime(c, p)) / 1_000_000) % U64)
      && (!OnTime(c, p) && !Late(c, p) ==>
            r.when == p.now && r.sched.firstSend == p.now && r.sched.firstSendTs == p.ts)
      && Settled(r.sched)
  {
    hide AnchorTime, DueTime;
    if p.clockRate > 0 {
      DueTimeIsAnchorTime(c, p);
    }
  }

  /** Skew accounting for a packet that is on time: each is a sample, the skew is the least distance ahead
      of now among up to 25 samples, and only a 25th sample with more than 50 ms of skew shifts the send
      time, and the anchor with it, back by 10 ms. */
  lemma SkewMeaning(c: Sched, p: Packet)
    requires c.skewSamples < 25 && OnTime(c, p)
    ensures var r, ahead := Schedule(c, p), DueTime(c, p) - p.now;
      var skew := if c.outputSkew < ahead then c.outputSkew else ahead;
      var shift := !c.isMediaPlayback && c.skewSamples == 24 && skew > 50_000;
      && r.when == p.now + ahead - (if shift then 10_000 else 0)
      && r.sched.firstSend == c.firstSend
      && r.sched.firstSendTs == (if shift then (c.firstSendTs + p.clockRate / 100) % U64 else c.firstSendTs)
      && r.sched.skewSamples == (if c.isMediaPlayback then c.skewSamples else (c.skewSamples + 1) % 25)
      && r.sched.outputSkew == (if c.isMediaPlayback then c.outputSkew else if c.skewSamples == 24 then 0 else skew)
  {
    hide AnchorTime, DueTime;
    DueTimeIsAnchorTime(c, p);
  }

  lemma SameAnchorSameDue(c: Sched, c': Sched, p: Packet)
    requires c'.firstSend == c.firstSend && c'.firstSendTs == c.firstSendTs
    ensures OnTime(c', p) <==> OnTime(c, p)
    ensures p.clockRate > 0 ==> DueTime(c', p) == DueTime(c, p)
  {
  }

  lemma OnTimeRate(c: Sched, p: Packet)
    requires OnTime(c, p)
    ensures p.clockRate > 0
  {
  }

  /** Over a run of packets that are all on time the anchor stays, and each is sent exactly when due. */
  lemma {:induction false} OnTimeRun(c: Sched, ps: seq<Packet>, i: nat)
    requires Settled(c) && i < |ps|
    requires forall k :: 0 <= k <= i ==> OnTime(c, ps[k])
    ensures ps[i].clockRate > 0 && Run(c, ps)[i].when == DueTime(c, ps[i])
    ensures var s := Run(c, ps)[i].sched; s.firstSend == c.firstSend && s.firstSendTs == c.firstSendTs
    decreases i
  {
    hide DueTime, Schedule, OnTime, Late;
    assert OnTime(c, ps[0]) && OnTime(c, ps[i]);
    OnTimeRate(c, ps[i]);
    SendTimeMeaning(c, ps[0]);
    if i > 0 {
      var c' := Schedule(c, ps[0]).sched;
      forall k | 0 <= k <= i - 1 ensures OnTime(c', ps[1..][k]) { SameAnchorSameDue(c, c', ps[k + 1]); }
      OnTimeRun(c', ps[1..], i - 1);
      SameAnchorSameDue(c, c', ps[i]);
    }
  }

  lemma DivSplitAbove(a: nat, b: nat, r: nat)
    requires r > 0
    ensures (a + b) / r <= a / r + b / r + 1
  {
    var p, q := a / r, b / r;
    assert a < (p + 1) * r by { DivBounds(a, r); }
    assert b < (q + 1) * r by { DivBounds(b, r); }
    assert (p + q + 2) * r == (p + 1) * r + (q + 1) * r;
    DivBelow(a + b, r, p + q + 2);
  }

  lemma SpacedDueTimes(c: Sched, p: Packet, q: Packet, n: nat)
    requires p.clockRate == q.clockRate > 0 && Distance(c, q) == Distance(c, p) + n
    ensures n * 1_000_000 / p.clockRate <= DueTime(c, q) - DueTime(c, p) <= n * 1_000_000 / p.clockRate + 1
  {
    hide Distance;
    var a, b, r := Distance(c, p) * 1_000_000, n * 1_000_000, p.clockRate;
    assert Distance(c, q) * 1_000_000 == a + b;
    DivSplit(a + b, a, r);
    DivSplitAbove(a, b, r);
  }

  lemma DistanceAhead(c: Sched, p: Packet, q: Packet, n: nat)
    requires (q.ts + q.tsDelay) - (p.ts + p.tsDelay) == n && Distance(c, p) + n < 0x1_0000_0000
    ensures Distance(c, q) == Distance(c, p) + n
  {
    AddMod32(p.ts - c.firstSendTs + p.tsDelay, n);
  }

  /** Two packets n timestamps apart, in a run of packets that are all on time, are sent apart by the
      duration of n timestamps to within a microsecond, whenever they arrived. */
  lemma PacedByTimestamps(c: Sched, ps: seq<Packet>, i: nat, j: nat, n: nat)
    requires Settled(c) && i < |ps| && j < |ps|
    requires forall k :: 0 <= k < |ps| ==> OnTime(c, ps[k])
    requires ps[i].clockRate == ps[j].clockRate
    requires (ps[j].ts + ps[j].tsDelay) - (ps[i].ts + ps[i].tsDelay) == n
    requires Distance(c, ps[i]) + n < 0x1_0000_0000
    ensures ps[i].clockRate > 0
    ensures var apart := n * 1_000_000 / ps[i].clockRate;
      apart <= Run(c, ps)[j].when - Run(c, ps)[i].when <= apart + 1
  {
    hide OnTime, DueTime, Distance, Run;
    OnTimeRun(c, ps, i);
    OnTimeRun(c, ps, j);
    DistanceAhead(c, ps[i], ps[j], n);
    SpacedDueTimes(c, ps[i], ps[j], n);
  }

  /** At 48 kHz, when the distance runs full after about 25 hours, a packet half a second late. */
  lemma WrapLeavesAnchorEarly()
    ensures var p := Packet(U32 - 1, 0, 48_000, 89_479_985_312);
      var c := Sched(1_000_000, 0, 0, 0, false);
      && !Restarts(c, p) && AnchorTime(c, p) < p.now && Schedule(c, p).when == p.now
      && AnchorTime(Schedule(c, p).sched, p) < p.now - 89_478_000_000
  {
  }

  // ----- the code itself -----

  class CodecScheduler {
    var firstSend: int
    var firstSendTs: u64
    var outputSkew: int
    var skewSamples: nat
    var isMediaPlayback: bool

    function View(): Sched
      reads this
    {
      Sched(firstSend, firstSendTs, outputSkew, skewSamples, isMediaPlayback)
    }

    constructor ()
      ensures View() == ZEROED
    {
      firstSend, firstSendTs, outputSkew, skewSamples, isMediaPlayback := 0, 0, 0, 0, false;
    }

    /** The scheduling half of codec_output_rtp. */
    method ScheduleSend(seqSupplied: bool, p: Packet) returns (when: int)
      modifies this
      ensures seqSupplied ==> when == p.now && View() == old(View())
      ensures !seqSupplied ==> Outcome(View(), when) == Schedule(old(View()), p)
      ensures !seqSupplied && old(Settled(View()) && OnTime(View(), p)) ==>
        p.clockRate > 0 && when == old(DueTime(View(), p)) && unchanged(`firstSend) && unchanged(`firstSendTs)
      ensures !seqSupplied && old(Settled(View()) && !OnTime(View(), p) && !Late(View(), p)) ==>
        when == p.now && firstSend == p.now && firstSendTs == p.ts
    {
      hide DueTime;
      if Settled(View()) {
        SendTimeMeaning(View(), p);
      }
      if seqSupplied {
        return p.now;
      }
      when := 0;
      if firstSend != 0 && p.clockRate != 0 {
        when := firstSend;
        var tsDiff: u32 := (p.ts % U32 - firstSendTs % U32) % U32;
        tsDiff := (tsDiff + p.tsDelay) % U32;
        when := when + tsDiff * SECOND / p.clockRate;
        if when - p.now > SECOND || when - p.now < -SECOND {
          firstSend := 0;
        }
      }
      if firstSend == 0 || when == 0 {
        when := p.now;
        firstSend := p.now;
        firstSendTs := p.ts;
      }
      assert Outcome(View(), when) == Anchored(old(View()), p);
      when := CorrectSkew(p, when);
    }

    /** Skew accounting and correction, after the anchor has given a send time. */
    method CorrectSkew(p: Packet, planned: int) returns (when: int)
      modifies this
      ensures Outcome(View(), when) == Correct(CountSample(old(View()), planned - p.now), p, planned)
    {
      when := planned;
      var ahead := when - p.now;
      if !isMediaPlayback {
        if ahead >= 0 {
          skewSamples := skewSamples + 1;
          outputSkew := if outputSkew < ahead then outputSkew else ahead;
        }
      }
      if skewSamples >= 25 {
        if outputSkew > 50_000 {
          when := when - 10_000;
          firstSendTs := (firstSendTs + p.clockRate / 100) % U64;
        }
        skewSamples := 0;
        outputSkew := 0;
      } else if ahead < 0 {
        ahead := -ahead;
        when := when + ahead;
        outputSkew := 0;
        skewSamples := 0;
        firstSendTs := (firstSendTs - p.clockRate * ahead / SECOND) % U64;
      }
    }
  }
}
