/** Silence detection: a queue of silence runs found in decoded frames, queried per output packet to
    decide whether comfort noise (RFC 3389) replaces the audio. */
module SilenceDetector {

  /** A run of silent samples [start, end); end is 0 while the run is still going on. */
  datatype Event = Event(start: nat, end: nat)

  predicate Silent(sample: int, thres: int) {
    sample <= thres && sample >= -thres
  }

  // ----- detection -----

  predicate Ongoing(q: seq<Event>) {
    q != [] && q[|q| - 1].end == 0
  }

  function DetectSample(q: seq<Event>, pos: nat, silent: bool): (r: seq<Event>) {
    if silent then
      if Ongoing(q) then q else q + [Event(pos, 0)]
    else
      if Ongoing(q) then q[|q| - 1 := q[|q| - 1].(end := pos)] else q
  }

  function Detect(q: seq<Event>, pts: nat, samples: seq<int>, thres: int): (r: seq<Event>) {
    if samples == [] then q
    else DetectSample(Detect(q, pts, samples[..|samples| - 1], thres),
                      pts + |samples| - 1, Silent(samples[|samples| - 1], thres))
  }

  /** The scan of a frame as the code does it: `open` says whether it holds a pointer to an open event. */
  datatype Scan = Scan(events: seq<Event>, open: bool)

  function ScanSample(s: Scan, pos: nat, silent: bool): (r: Scan) {
    var n := |s.events| - 1;
    if silent then
      if s.open then s else Scan(s.events + [Event(pos, 0)], true)
    else
      if s.open && n >= 0 then Scan(s.events[n := s.events[n].(end := pos)], false) else s
  }

  function ScanFrame(q: seq<Event>, pts: nat, samples: seq<int>, thres: int): (r: Scan) {
    if samples == [] then Scan(q, Ongoing(q))
    else ScanSample(ScanFrame(q, pts, samples[..|samples| - 1], thres),
                    pts + |samples| - 1, Silent(samples[|samples| - 1], thres))
  }

  /** The pointer is needed in one case only, when an open event would be closed at position 0: its end
      would read as open. */
  lemma {:induction false} ScanIsDetect(q: seq<Event>, pts: nat, samples: seq<int>, thres: int)
    requires Ongoing(q) ==> pts > 0
    ensures var d := Detect(q, pts, samples, thres); ScanFrame(q, pts, samples, thres) == Scan(d, Ongoing(d))
  {
    if samples != [] { ScanIsDetect(q, pts, samples[..|samples| - 1], thres); }
  }

  // ----- the query -----

  datatype Answer = Answer(yes: bool, events: seq<Event>)

  function Query(q: seq<Event>, pts: nat, end: nat): (a: Answer) {
    if q == [] || q[0].start > pts then Answer(false, q)
    else if q[0].end == 0 || q[0].end > end then Answer(true, q)
    else if q[0].end == end then Answer(true, q[1..])
    else Query(q[1..], pts, end)
  }

  // ----- the simple form: the set of silent positions -----

  /** silent: every silent position seen; detected: the next position to be seen; consumed: the end
      of the last packet queried. */
  datatype History = History(silent: set<nat>, consumed: nat, detected: nat)

  function End(e: Event, detected: nat): (n: nat) {
    if e.end == 0 then detected else e.end
  }

  predicate Covers(e: Event, detected: nat, p: nat) {
    e.start <= p < End(e, detected)
  }

  /** The event is a silent run that ends before a position that is not silent, or has not ended yet. */
  ghost predicate RunOk(e: Event, h: History) {
    && e.start < End(e, h.detected) <= h.detected
    && (e.end != 0 ==> e.end < h.detected && e.end !in h.silent)
    && (forall p :: Covers(e, h.detected, p) ==> p in h.silent)
  }

  /** The queue holds silent runs, in order and apart; only the last may be going on. */
  ghost predicate Runs(q: seq<Event>, h: History) {
    && (forall i :: 0 <= i < |q| ==> RunOk(q[i], h))
    && (forall i :: 0 <= i < |q| - 1 ==> q[i].end > 0)
    && (forall i, j :: 0 <= i < j < |q| ==> q[i].end < q[j].start)
  }

  ghost predicate Covered(q: seq<Event>, detected: nat, p: nat) {
    exists i :: 0 <= i < |q| && Covers(q[i], detected, p)
  }

  /** The queue misses no silent position that is not yet consumed. */
  ghost predicate Complete(q: seq<Event>, h: History) {
    forall p :: p in h.silent && h.consumed <= p ==> Covered(q, h.detected, p)
  }

  ghost predicate Inv(q: seq<Event>, h: History) {
    && h.consumed <= h.detected
    && (forall p :: p in h.silent ==> p < h.detected)
    && Runs(q, h) && Complete(q, h)
  }

  function See(h: History, silent: bool): (r: History) {
    h.(silent := if silent then h.silent + {h.detected} else h.silent, detected := h.detected + 1)
  }

  /** The event queue changes in its last place only, by one of four rules. */
  lemma DetectSampleAt(q: seq<Event>, pos: nat, silent: bool, i: nat)
    requires i < |DetectSample(q, pos, silent)|
    ensures var q' := DetectSample(q, pos, silent);
      if i == |q| then silent && q'[i] == Event(pos, 0)
      else i < |q| && q'[i] == if !silent && Ongoing(q) && i == |q| - 1 then q[i].(end := pos) else q[i]
  {
  }

  lemma RunAt(q: seq<Event>, h: History, i: nat)
    requires Inv(q, h) && i < |q|
    ensures RunOk(q[i], h)
    ensures i < |q| - 1 ==> q[i].end != 0
  {
  }

  lemma NotYetSeen(q: seq<Event>, h: History)
    requires Inv(q, h)
    ensures h.detected !in h.silent
  {
  }

  lemma DetectSampleRun(q: seq<Event>, h: History, silent: bool, i: nat)
    requires Inv(q, h) && i < |DetectSample(q, h.detected, silent)|
    ensures RunOk(DetectSample(q, h.detected, silent)[i], See(h, silent))
  {
    DetectSampleAt(q, h.detected, silent, i);
    NotYetSeen(q, h);
    if i < |q| { RunAt(q, h, i); }
    hide Inv, DetectSample;
    var e, h' := DetectSample(q, h.detected, silent)[i], See(h, silent);
    forall p | Covers(e, h'.detected, p) ensures p in h'.silent {
      if p != h.detected { assert i < |q| && Covers(q[i], h.detected, p); }
    }
  }

  lemma DetectSampleOrder(q: seq<Event>, h: History, silent: bool, i: nat, j: nat)
    requires Inv(q, h) && i < j < |DetectSample(q, h.detected, silent)|
    ensures var q' := DetectSample(q, h.detected, silent); q'[i].end > 0 && q'[i].end < q'[j].start
  {
    DetectSampleAt(q, h.detected, silent, i);
    DetectSampleAt(q, h.detected, silent, j);
    RunAt(q, h, i);
    if j < |q| { assert q[i].end < q[j].start; }
    hide Inv;
  }

  lemma DetectSampleRuns(q: seq<Event>, h: History, silent: bool)
    requires Inv(q, h)
    ensures Runs(DetectSample(q, h.detected, silent), See(h, silent))
  {
    hide Inv, RunOk, See;
    var q', h' := DetectSample(q, h.detected, silent), See(h, silent);
    forall i | 0 <= i < |q'| ensures RunOk(q'[i], h') { DetectSampleRun(q, h, silent, i); }
    forall i | 0 <= i < |q'| - 1 ensures q'[i].end > 0 { DetectSampleOrder(q, h, silent, i, i + 1); }
    forall i, j | 0 <= i < j < |q'| ensures q'[i].end < q'[j].start { DetectSampleOrder(q, h, silent, i, j); }
  }

  lemma LastCovers(q: seq<Event>, h: History)
    requires Inv(q, h)
    ensures Ongoing(q) ==> q[|q| - 1].start < h.detected
  {
  }

  lemma DetectSampleComplete(q: seq<Event>, h: History, silent: bool)
    requires Inv(q, h)
    ensures Complete(DetectSample(q, h.detected, silent), See(h, silent))
  {
    hide Runs;
    var q', h' := DetectSample(q, h.detected, silent), See(h, silent);
    forall p | p in h'.silent && h'.consumed <= p
      ensures Covered(q', h'.detected, p)
    {
      if p == h.detected {
        assert silent;
        LastCovers(q, h);
        assert Covers(q'[|q'| - 1], h'.detected, p);
      } else {
        assert Covered(q, h.detected, p);
        var i :| 0 <= i < |q| && Covers(q[i], h.detected, p);
        assert Covers(q'[i], h'.detected, p);
      }
    }
  }

  lemma DetectSampleInv(q: seq<Event>, h: History, silent: bool)
    requires Inv(q, h)
    ensures Inv(DetectSample(q, h.detected, silent), See(h, silent))
  {
    DetectSampleRuns(q, h, silent);
    DetectSampleComplete(q, h, silent);
    hide Runs, Complete, DetectSample;
  }

  /** What a frame adds to the history. */
  function SeeAll(h: History, samples: seq<int>, thres: int): (r: History)
    ensures r.consumed == h.consumed && r.detected == h.detected + |samples|
  {
    if samples == [] then h
    else See(SeeAll(h, samples[..|samples| - 1], thres), Silent(samples[|samples| - 1], thres))
  }

  /** The history holds exactly the positions whose samples were within the threshold. */
  lemma {:induction false} SeeAllMeaning(h: History, samples: seq<int>, thres: int, p: nat)
    ensures p in SeeAll(h, samples, thres).silent <==>
      p in h.silent || (h.detected <= p < h.detected + |samples| && -thres <= samples[p - h.detected] <= thres)
  {
    if samples != [] { SeeAllMeaning(h, samples[..|samples| - 1], thres, p); }
  }

  /** A frame that follows on directly from the last one keeps the queue exact. */
  lemma {:induction false} DetectInv(q: seq<Event>, h: History, samples: seq<int>, thres: int)
    requires Inv(q, h)
    ensures Inv(Detect(q, h.detected, samples, thres), SeeAll(h, samples, thres))
  {
    hide Inv, DetectSample, See;
    if samples != [] {
      var p := samples[..|samples| - 1];
      DetectInv(q, h, p, thres);
      DetectSampleInv(Detect(q, h.detected, p, thres), SeeAll(h, p, thres), Silent(samples[|samples| - 1], thres));
    }
  }

  /** The same for the scan itself. */
  lemma ScanInv(q: seq<Event>, h: History, samples: seq<int>, thres: int)
    requires Inv(q, h)
    ensures Inv(ScanFrame(q, h.detected, samples, thres).events, SeeAll(h, samples, thres))
  {
    LastCovers(q, h);
    hide Inv;
    DetectInv(q, h, samples, thres);
    ScanIsDetect(q, h.detected, samples, thres);
  }

  // ----- the query is exact -----

  ghost predicate AllSilent(h: History, pts: nat, end: nat) {
    forall p :: pts <= p < end ==> p in h.silent
  }

  lemma DropFirstComplete(q: seq<Event>, h: History, end: nat)
    requires Inv(q, h) && q != [] && q[0].end != 0 && h.consumed <= end <= h.detected && q[0].end <= end
    ensures Complete(q[1..], h.(consumed := end))
  {
    hide Runs;
    forall p | p in h.silent && end <= p ensures Covered(q[1..], h.detected, p) {
      assert Covered(q, h.detected, p);
      var i :| 0 <= i < |q| && Covers(q[i], h.detected, p);
      assert i > 0 && q[1..][i - 1] == q[i];
    }
  }

  lemma Apart(q: seq<Event>, h: History, i: nat, j: nat)
    requires Runs(q, h) && i < j < |q|
    ensures 0 < q[i].end < q[j].start
  {
  }

  lemma SameRun(e: Event, h: History, h': History)
    requires RunOk(e, h) && h'.silent == h.silent && h'.detected == h.detected
    ensures RunOk(e, h')
  {
  }

  lemma DropFirstRuns(q: seq<Event>, h: History, end: nat)
    requires Runs(q, h) && q != []
    ensures Runs(q[1..], h.(consumed := end))
  {
    hide RunOk;
    var q', h' := q[1..], h.(consumed := end);
    forall i | 0 <= i < |q'| ensures RunOk(q'[i], h') {
      assert RunOk(q[i + 1], h);
      SameRun(q[i + 1], h, h');
    }
    forall i | 0 <= i < |q'| - 1 ensures q'[i].end > 0 { Apart(q, h, i + 1, i + 2); }
    forall i, j | 0 <= i < j < |q'| ensures q'[i].end < q'[j].start { Apart(q, h, i + 1, j + 1); }
  }

  /** Dropping a finished run costs nothing once a packet ending at or after it has been queried. */
  lemma DropFirst(q: seq<Event>, h: History, end: nat)
    requires Inv(q, h) && q != [] && q[0].end != 0 && h.consumed <= end <= h.detected && q[0].end <= end
    ensures Inv(q[1..], h.(consumed := end))
  {
    DropFirstRuns(q, h, end);
    DropFirstComplete(q, h, end);
    hide Runs, Complete;
  }

  lemma NotBeforeFirst(q: seq<Event>, h: History, p: nat)
    requires Inv(q, h) && q != [] && p < q[0].start && h.consumed <= p
    ensures p !in h.silent
  {
    forall i | 0 <= i < |q| ensures !Covers(q[i], h.detected, p) {
      if i > 0 { assert RunOk(q[0], h) && q[0].end < q[i].start; }
    }
  }

  lemma ConsumeMore(q: seq<Event>, h: History, end: nat)
    requires Inv(q, h) && h.consumed <= end <= h.detected
    ensures Inv(q, h.(consumed := end))
  {
    var h' := h.(consumed := end);
    forall p | p in h'.silent && h'.consumed <= p
      ensures Covered(q, h'.detected, p)
    {
      assert Covered(q, h.detected, p);
    }
  }

  /** The answer is yes exactly when every sample of the packet is silent, and the queue stays exact
      for every later packet even though finished runs are discarded. */
  lemma {:induction false} QueryExact(q: seq<Event>, h: History, pts: nat, end: nat)
    requires Inv(q, h) && h.consumed <= pts < end <= h.detected
    ensures Query(q, pts, end).yes <==> AllSilent(h, pts, end)
    ensures Inv(Query(q, pts, end).events, h.(consumed := end))
    decreases |q|
  {
    assert Inv(q, h.(consumed := end)) by { ConsumeMore(q, h, end); }
    if q == [] {
      assert pts !in h.silent;
    } else if q[0].start > pts {
      assert pts !in h.silent by { NotBeforeFirst(q, h, pts); }
    } else if q[0].end == 0 || q[0].end > end {
      assert forall p :: pts <= p < end ==> Covers(q[0], h.detected, p);
    } else {
      DropFirst(q, h, end);
      if q[0].end == end {
        assert forall p :: pts <= p < end ==> Covers(q[0], h.detected, p);
      } else if q[0].end <= pts {
        DropFirst(q, h, pts);
        QueryExact(q[1..], h.(consumed := pts), pts, end);
      } else {
        assert q[0].end !in h.silent;
        if |q| > 1 {
          assert q[1].start > q[0].end;
        }
      }
    }
  }

  /** An empty packet is the one case left out: it holds no sample that is not silent, yet before the
      first run the answer is no. */
  lemma EmptyPacketIsNotSilent()
    ensures var q, h := [Event(5, 0)], History({5}, 0, 6);
      Inv(q, h) && AllSilent(h, 3, 3) && !Query(q, 3, 3).yes
  {
    var q, h := [Event(5, 0)], History({5}, 0, 6);
    assert Covers(q[0], h.detected, 5);
  }

  /** Exactly when an empty packet gets the answer it should: when it lies within a queued run or at its
      very end. */
  lemma {:induction false} EmptyPacketExactly(q: seq<Event>, h: History, p: nat)
    requires Inv(q, h) && h.consumed <= p <= h.detected
    ensures AllSilent(h, p, p)
    ensures Query(q, p, p).yes <==> exists i :: 0 <= i < |q| && q[i].start <= p <= End(q[i], h.detected)
    decreases |q|
  {
    if q != [] && q[0].start <= p {
      if q[0].end != 0 && q[0].end < p {
        DropFirst(q, h, p);
        EmptyPacketExactly(q[1..], h.(consumed := p), p);
        if i :| 0 <= i < |q| && q[i].start <= p <= End(q[i], h.detected) {
          assert q[1..][i - 1] == q[i];
        }
        if i :| 0 <= i < |q| - 1 && q[1..][i].start <= p <= End(q[1..][i], h.detected) {
          assert q[1..][i] == q[i + 1];
        }
      }
    } else if q != [] {
      forall i | 0 <= i < |q| ensures q[i].start > p {
        if i > 0 { assert RunOk(q[0], h) && q[0].end < q[i].start; }
      }
    }
  }

  // ----- whole runs -----

  datatype Op = Frame(samples: seq<int>) | Packet(skip: nat, duration: nat)

  datatype State = State(events: seq<Event>, history: History)

  /** Packets are non-empty, do not overlap and do not run ahead of detection. */
  predicate Allowed(s: State, op: Op) {
    op.Packet? ==> op.duration > 0 && s.history.consumed + op.skip + op.duration <= s.history.detected
  }

  function Do(s: State, op: Op, thres: int): (r: State) {
    match op
    case Frame(samples) =>
      State(ScanFrame(s.events, s.history.detected, samples, thres).events, SeeAll(s.history, samples, thres))
    case Packet(skip, duration) =>
      var pts := s.history.consumed + skip;
      State(Query(s.events, pts, pts + duration).events, s.history.(consumed := pts + duration))
  }

  predicate ValidRun(s: State, ops: seq<Op>, thres: int)
    decreases |ops|
  {
    ops == [] || (Allowed(s, ops[0]) && ValidRun(Do(s, ops[0], thres), ops[1..], thres))
  }

  function Run(s: State, ops: seq<Op>, thres: int): (r: State)
    decreases |ops|
  {
    if ops == [] then s else Run(Do(s, ops[0], thres), ops[1..], thres)
  }

  lemma {:induction false} RunInv(s: State, ops: seq<Op>, thres: int)
    requires Inv(s.events, s.history) && ValidRun(s, ops, thres)
    ensures Inv(Run(s, ops, thres).events, Run(s, ops, thres).history)
    decreases |ops|
  {
    hide Inv;
    if ops != [] {
      match ops[0] {
        case Frame(samples) => ScanInv(s.events, s.history, samples, thres);
        case Packet(skip, duration) =>
          var pts := s.history.consumed + skip;
          QueryExact(s.events, s.history, pts, pts + duration);
      }
      RunInv(Do(s, ops[0], thres), ops[1..], thres);
    }
  }

  /** All samples of the frames of a run. */
  function Fed(ops: seq<Op>): (r: seq<int>) {
    if ops == [] then [] else (if ops[0].Frame? then ops[0].samples else []) + Fed(ops[1..])
  }

  lemma DoMeaning(s: State, op: Op, thres: int, p: nat)
    ensures var r, samples := Do(s, op, thres).history, Fed([op]);
      && r.consumed >= s.history.consumed && r.detected == s.history.detected + |samples|
      && (p in r.silent <==>
            p in s.history.silent || (s.history.detected <= p < r.detected
                                      && -thres <= samples[p - s.history.detected] <= thres))
  {
    hide ScanFrame, Query, SeeAll;
    if op.Frame? {
      SeeAllMeaning(s.history, op.samples, thres, p);
      assert Fed([op]) == op.samples;
    }
  }

  /** The history of a run holds exactly the positions whose samples were within the threshold. */
  lemma {:induction false} RunMeaning(s: State, ops: seq<Op>, thres: int, p: nat)
    ensures var r, h, samples := Run(s, ops, thres).history, s.history, Fed(ops);
      && r.consumed >= h.consumed && r.detected == h.detected + |samples|
      && (p in r.silent <==>
            p in h.silent || (h.detected <= p < r.detected && -thres <= samples[p - h.detected] <= thres))
    decreases |ops|
  {
    if ops != [] {
      DoMeaning(s, ops[0], thres, p);
      assert Fed(ops) == Fed([ops[0]]) + Fed(ops[1..]);
      hide Do;
      RunMeaning(Do(s, ops[0], thres), ops[1..], thres, p);
    }
  }

  lemma InitInv(start: nat)
    ensures Inv([], History({}, start, start))
  {
  }

  predicate Within(samples: seq<int>, from: nat, to: nat, thres: int)
    requires from <= to <= |samples|
  {
    forall i :: from <= i < to ==> -thres <= samples[i] <= thres
  }

  lemma SilentIsWithin(h: History, samples: seq<int>, start: nat, pts: nat, end: nat, thres: int)
    requires start <= pts <= end <= start + |samples|
    requires forall p :: pts <= p < end ==> (p in h.silent <==> -thres <= samples[p - start] <= thres)
    ensures AllSilent(h, pts, end) <==> Within(samples, pts - start, end - start, thres)
  {
    if AllSilent(h, pts, end) {
      forall i | pts - start <= i < end - start ensures -thres <= samples[i] <= thres {
        assert start + i in h.silent;
      }
    }
    if Within(samples, pts - start, end - start, thres) {
      forall p | pts <= p < end ensures p in h.silent { assert -thres <= samples[p - start] <= thres; }
    }
  }

  /** After any run of frames and packets, the next packet is reported silent exactly when all of its
      samples are within the threshold. */
  lemma EveryAnswerIsExact(start: nat, ops: seq<Op>, thres: int, skip: nat, duration: nat)
    requires var init := State([], History({}, start, start));
      ValidRun(init, ops, thres) && Allowed(Run(init, ops, thres), Packet(skip, duration))
    ensures var s := Run(State([], History({}, start, start)), ops, thres);
      var pts := s.history.consumed + skip;
      && start <= pts && pts + duration <= start + |Fed(ops)|
      && (Query(s.events, pts, pts + duration).yes <==>
            Within(Fed(ops), pts - start, pts - start + duration, thres))
  {
    hide ValidRun, Run, Fed, Inv, AllSilent, Within, Query;
    InitInv(start);
    var init := State([], History({}, start, start));
    RunInv(init, ops, thres);
    var s := Run(init, ops, thres);
    var pts := s.history.consumed + skip;
    QueryExact(s.events, s.history, pts, pts + duration);
    RunMeaning(init, ops, thres, pts);
    forall p | pts <= p < pts + duration
      ensures p in s.history.silent <==> -thres <= Fed(ops)[p - start] <= thres
    {
      RunMeaning(init, ops, thres, p);
    }
    SilentIsWithin(s.history, Fed(ops), start, pts, pts + duration, thres);
  }

  // ----- the code itself -----

  class SilenceEvents {
    var events: seq<Event>

    constructor ()
      ensures events == []
    {
      events := [];
    }

    /** __silence_detect for one frame. The index `last` stands for the pointer to the open event. */
    method SilenceDetect(pts: nat, samples: seq<int>, thres: int)
      modifies this
      ensures events == ScanFrame(old(events), pts, samples, thres).events
    {
      var last := if |events| > 0 && events[|events| - 1].end == 0 then |events| - 1 else -1;
      for i := 0 to |samples|
        invariant last == -1 || last == |events| - 1
        invariant Scan(events, last != -1) == ScanFrame(old(events), pts, samples[..i], thres)
      {
        assert samples[..i + 1][..i] == samples[..i];
        if samples[i] <= thres && samples[i] >= -thres {
          if last == -1 {
            events := events + [Event(pts + i, 0)];
            last := |events| - 1;
          }
        } else {
          if last != -1 {
            events := events[last := events[last].(end := pts + i)];
            last := -1;
          }
        }
      }
      assert samples[..|samples|] == samples;
    }

    /** is_silence_event. */
    method IsSilenceEvent(pts: nat, duration: nat) returns (yes: bool)
      modifies this
      ensures Answer(yes, events) == Query(old(events), pts, pts + duration)
    {
      var end := pts + duration;
      while |events| > 0
        invariant Query(events, pts, end) == Query(old(events), pts, end)
        decreases |events|
      {
        var first := events[0];
        if first.start > pts {
          return false;
        }
        if first.end == 0 {
          return true;
        }
        if first.end > end {
          return true;
        }
        events := events[1..];
        if first.end == end {
          return true;
        }
      }
      return false;
    }
  }
}
