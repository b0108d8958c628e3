/** The delay buffer: frames held back by a fixed delay, newest first, released one at a time by a
    timer. Each locked section is a step; the packet threads, the timer and the clock interleave.
    Times are in microseconds. */
module DelayBuffer {

  /** tv: receive time; serial: position in the order of insertion. */
  datatype Frame<T> = Frame(tv: nat, serial: nat, body: T)

  /** t_queue_insert_sorted with delay_frame_cmp: in front of the first frame that is not newer. */
  function InsertSorted<T>(q: seq<Frame<T>>, f: Frame<T>): (r: seq<Frame<T>>)
    ensures |r| == |q| + 1
  {
    if q == [] || q[0].tv <= f.tv then [f] + q else [q[0]] + InsertSorted(q[1..], f)
  }

  function Last<T>(q: seq<T>): (x: T)
    requires q != []
  {
    q[|q| - 1]
  }

  function Most<T>(q: seq<T>): (p: seq<T>)
    requires q != []
  {
    q[..|q| - 1]
  }

  /** next: the due time in the timer object, 0 if unset; armed: the timer is set to fire then;
      inFlight: a timer run has taken a frame and not yet rescheduled. */
  datatype State<T> = State(
    frames: seq<Frame<T>>, delay: nat, next: int, armed: bool, inFlight: bool,
    now: int, inserted: nat, departed: seq<(Frame<T>, int)>)

  datatype Event<T> = Tick(d: nat) | Insert(tv: nat, body: T) | Fire | Reschedule

  /** __delay_buffer_schedule. */
  function Schedule<T>(s: State<T>): (r: State<T>) {
    if s.next != 0 || s.frames == [] then s
    else s.(next := Last(s.frames).tv + s.delay, armed := true)
  }

  /** The timer does not fire early. */
  predicate Enabled<T>(s: State<T>, e: Event<T>) {
    match e
    case Tick(_) => true
    case Insert(_, _) => true
    case Fire => s.armed && s.now >= s.next
    case Reschedule => s.inFlight
  }

  function Step<T>(s: State<T>, e: Event<T>): (r: State<T>)
    requires Enabled(s, e)
  {
    match e
    case Tick(d) => s.(now := s.now + d)
    case Insert(tv, body) =>
      Schedule(s.(frames := InsertSorted(s.frames, Frame(tv, s.inserted, body)), inserted := s.inserted + 1))
    case Fire =>
      if s.frames == [] then s.(armed := false)
      else
        s.(frames := Most(s.frames), departed := s.departed + [(Last(s.frames), s.now)],
           armed := false, inFlight := true)
    case Reschedule =>
      Schedule(s.(next := 0, inFlight := false))
  }

  // ----- invariants -----

  /** Leaves the buffer before: older, or equally old and inserted first. */
  predicate Precedes<T>(a: Frame<T>, b: Frame<T>) {
    a.tv < b.tv || (a.tv == b.tv && a.serial < b.serial)
  }

  ghost predicate NewestFirst<T>(q: seq<Frame<T>>) {
    forall i, j :: 0 <= i < j < |q| ==> Precedes(q[j], q[i])
  }

  ghost predicate TimerInv<T>(s: State<T>) {
    && s.delay > 0
    && (s.armed ==> !s.inFlight && s.frames != [] && s.next >= Last(s.frames).tv + s.delay)
    && (s.inFlight ==> s.next != 0)
    && (!s.armed && !s.inFlight ==> s.next == 0 && s.frames == [])
  }

  /** The timer, when set, is set for the due time of a frame that is still queued. */
  ghost predicate SetForQueued<T>(s: State<T>) {
    s.armed ==> exists i :: 0 <= i < |s.frames| && s.next == s.frames[i].tv + s.delay
  }

  /** No frame has left before its receive time plus the delay. */
  ghost predicate NoneEarly<T>(s: State<T>) {
    forall i :: 0 <= i < |s.departed| ==> s.departed[i].0.tv + s.delay <= s.departed[i].1 <= s.now
  }

  ghost predicate Inv<T>(s: State<T>) {
    && NewestFirst(s.frames) && TimerInv(s) && SetForQueued(s) && NoneEarly(s)
    && (forall i :: 0 <= i < |s.frames| ==> s.frames[i].serial < s.inserted)
    && (forall i :: 0 <= i < |s.departed| ==> s.departed[i].0.serial < s.inserted)
  }

  /** Where a frame goes: behind every newer frame, in front of the equally old and older ones. */
  lemma {:induction false} InsertPlace<T>(q: seq<Frame<T>>, f: Frame<T>) returns (at: nat)
    requires NewestFirst(q)
    ensures at <= |q| && InsertSorted(q, f) == q[..at] + [f] + q[at..]
    ensures forall i :: 0 <= i < at ==> q[i].tv > f.tv
    ensures forall i :: at <= i < |q| ==> q[i].tv <= f.tv
  {
    if q == [] || q[0].tv <= f.tv {
      at := 0;
      forall i | 0 <= i < |q| ensures q[i].tv <= f.tv {
        assert i > 0 ==> Precedes(q[i], q[0]);
      }
    } else {
      at := InsertPlace(q[1..], f);
      at := at + 1;
    }
  }

  lemma InsertSortedSpec<T>(q: seq<Frame<T>>, f: Frame<T>)
    requires NewestFirst(q) && forall i :: 0 <= i < |q| ==> q[i].serial < f.serial
    ensures var r := InsertSorted(q, f);
      && NewestFirst(r)
      && (forall i :: 0 <= i < |r| ==> r[i].serial <= f.serial)
      && (if q != [] && Last(q).tv <= f.tv then Last(r) == Last(q) else Last(r) == f)
  {
    hide InsertSorted;
    var at := InsertPlace(q, f);
    var r := InsertSorted(q, f);
    forall i, j | 0 <= i < j < |r| ensures Precedes(r[j], r[i]) {
      if i != at && j != at {
        assert r[i] == q[if i < at then i else i - 1] && r[j] == q[if j < at then j else j - 1];
      }
    }
  }

  lemma InsertedStays<T>(q: seq<Frame<T>>, f: Frame<T>, i: nat) returns (j: nat)
    requires NewestFirst(q) && i < |q|
    ensures j < |q| + 1 && InsertSorted(q, f)[j] == q[i]
  {
    var at := InsertPlace(q, f);
    hide InsertSorted;
    j := if i < at then i else i + 1;
  }

  lemma InsertSetForQueued<T>(s: State<T>, tv: nat, body: T)
    requires NewestFirst(s.frames) && SetForQueued(s)
    ensures SetForQueued(Step(s, Insert(tv, body)))
  {
    hide InsertSorted, NewestFirst;
    var r := Step(s, Insert(tv, body));
    if s.armed && s.next != 0 {
      var i :| 0 <= i < |s.frames| && s.next == s.frames[i].tv + s.delay;
      var j := InsertedStays(s.frames, Frame(tv, s.inserted, body), i);
      assert r.frames[j] == s.frames[i];
    } else if r.armed {
      assert r.next == r.frames[|r.frames| - 1].tv + r.delay;
    }
  }

  lemma InsertInv<T>(s: State<T>, tv: nat, body: T)
    requires Inv(s)
    ensures Inv(Step(s, Insert(tv, body)))
  {
    InsertSortedSpec(s.frames, Frame(tv, s.inserted, body));
    InsertSetForQueued(s, tv, body);
    hide InsertSorted, NewestFirst, SetForQueued;
  }

  lemma StepInv<T>(s: State<T>, e: Event<T>)
    requires Inv(s) && Enabled(s, e)
    ensures Inv(Step(s, e))
  {
    match e
    case Insert(tv, body) => InsertInv(s, tv, body);
    case _ =>
  }

  // ----- order of departure -----

  function Departed<T>(s: State<T>): (r: seq<Frame<T>>) {
    seq(|s.departed|, i requires 0 <= i < |s.departed| => s.departed[i].0)
  }

  ghost predicate OldestFirst<T>(q: seq<Frame<T>>) {
    forall i, j :: 0 <= i < j < |q| ==> Precedes(q[i], q[j])
  }

  /** Frames have left in order, and everything still queued comes later. */
  ghost predicate InOrder<T>(s: State<T>) {
    && OldestFirst(Departed(s))
    && (forall i, j :: 0 <= i < |s.departed| && 0 <= j < |s.frames| ==> Precedes(s.departed[i].0, s.frames[j]))
  }

  /** Not older than the frame that left last. */
  predicate NotOvertaken<T>(s: State<T>, tv: nat) {
    s.departed == [] || tv >= Last(s.departed).0.tv
  }

  lemma FireKeepsOrder<T>(s: State<T>)
    requires Inv(s) && InOrder(s) && Enabled(s, Fire)
    ensures InOrder(Step(s, Fire))
  {
    var s' := Step(s, Fire);
    var f := Last(s.frames);
    assert Departed(s') == Departed(s) + [f];
    forall j | 0 <= j < |s'.frames| ensures Precedes(f, s'.frames[j]) {
      assert Precedes(s.frames[|s.frames| - 1], s.frames[j]);
    }
  }

  lemma InsertKeepsOrder<T>(s: State<T>, tv: nat, body: T)
    requires Inv(s) && InOrder(s)
    ensures InOrder(Step(s, Insert(tv, body))) <==> NotOvertaken(s, tv)
  {
    var f := Frame(tv, s.inserted, body);
    var at := InsertPlace(s.frames, f);
    var s' := Step(s, Insert(tv, body));
    var q := s'.frames;
    assert q == s.frames[..at] + [f] + s.frames[at..];
    assert Departed(s') == Departed(s);
    if NotOvertaken(s, tv) {
      forall i, j | 0 <= i < |s'.departed| && 0 <= j < |q| ensures Precedes(s'.departed[i].0, q[j]) {
        if j == at {
          var n := |s.departed| - 1;
          assert Departed(s)[i] == s.departed[i].0 && Departed(s)[n] == s.departed[n].0;
          assert i < n ==> Precedes(Departed(s)[i], Departed(s)[n]);
        } else {
          assert q[j] == s.frames[if j < at then j else j - 1];
        }
      }
    } else {
      assert q[at] == f;
      assert !Precedes(s'.departed[|s.departed| - 1].0, q[at]);
    }
  }

  /** The order of departure by receive time, ties by insertion, is kept by every step exactly unless
      a frame is inserted that is older than one that has already left. */
  lemma OrderKeptExactly<T>(s: State<T>, e: Event<T>)
    requires Inv(s) && InOrder(s) && Enabled(s, e)
    ensures InOrder(Step(s, e)) <==> (e.Insert? ==> NotOvertaken(s, e.tv))
  {
    match e
    case Tick(_) => assert Departed(Step(s, e)) == Departed(s);
    case Reschedule => assert Departed(Step(s, e)) == Departed(s);
    case Fire => FireKeepsOrder(s);
    case Insert(tv, body) => InsertKeepsOrder(s, tv, body);
  }

  lemma DepartedGrows<T>(s: State<T>, e: Event<T>)
    requires Enabled(s, e)
    ensures Departed(s) <= Departed(Step(s, e))
  {
    hide InsertSorted;
  }

  lemma PrefixBroken<T>(q: seq<Frame<T>>, r: seq<Frame<T>>)
    requires q <= r && !OldestFirst(q)
    ensures !OldestFirst(r)
  {
    var i, j :| 0 <= i < j < |q| && !Precedes(q[i], q[j]);
    assert r[i] == q[i] && r[j] == q[j];
  }

  /** A queued frame that should have left before one that is gone stays queued or leaves too late. */
  lemma PairStaysBroken<T>(s: State<T>, e: Event<T>, i: nat, j: nat)
    requires Inv(s) && Enabled(s, e)
    requires i < |s.departed| && j < |s.frames| && !Precedes(s.departed[i].0, s.frames[j])
    ensures !InOrder(Step(s, e))
  {
    hide SetForQueued, NoneEarly;
    var s' := Step(s, e);
    match e
    case Tick(_) => assert s'.frames[j] == s.frames[j];
    case Reschedule => assert s'.frames[j] == s.frames[j];
    case Fire =>
      if j < |s.frames| - 1 {
        assert s'.frames[j] == s.frames[j] && s'.departed[i] == s.departed[i];
      } else {
        var d := Departed(s');
        assert d[i] == s.departed[i].0 && d[|s.departed|] == s.frames[j];
      }
    case Insert(tv, body) =>
      var at := InsertPlace(s.frames, Frame(tv, s.inserted, body));
      assert s'.frames[if j < at then j else j + 1] == s.frames[j] && s'.departed == s.departed;
  }

  /** Once the order is lost, no later step restores it. */
  lemma BrokenStays<T>(s: State<T>, e: Event<T>)
    requires Inv(s) && Enabled(s, e) && !InOrder(s)
    ensures !InOrder(Step(s, e))
  {
    if !OldestFirst(Departed(s)) {
      DepartedGrows(s, e);
      PrefixBroken(Departed(s), Departed(Step(s, e)));
    } else {
      var i, j :| 0 <= i < |s.departed| && 0 <= j < |s.frames| && !Precedes(s.departed[i].0, s.frames[j]);
      PairStaysBroken(s, e, i, j);
    }
  }

  /** A frame inserted before it is due cannot have been overtaken. */
  lemma TimelyIsNotOvertaken<T>(s: State<T>, tv: nat)
    requires Inv(s) && s.now <= tv + s.delay
    ensures NotOvertaken(s, tv)
  {
  }

  // ----- whole runs -----

  function Init<T>(delay: nat, now: int): (s: State<T>) {
    State([], delay, 0, false, false, now, 0, [])
  }

  predicate ValidRun<T>(s: State<T>, es: seq<Event<T>>)
    decreases |es|
  {
    es == [] || (Enabled(s, es[0]) && ValidRun(Step(s, es[0]), es[1..]))
  }

  function Run<T>(s: State<T>, es: seq<Event<T>>): (r: State<T>)
    requires ValidRun(s, es)
    decreases |es|
  {
    if es == [] then s else Run(Step(s, es[0]), es[1..])
  }

  /** No frame is older than the last one that has left by the time it is inserted. */
  predicate NeverOvertaken<T>(s: State<T>, es: seq<Event<T>>)
    requires ValidRun(s, es)
    decreases |es|
  {
    es == [] || ((es[0].Insert? ==> NotOvertaken(s, es[0].tv)) && NeverOvertaken(Step(s, es[0]), es[1..]))
  }

  /** Every frame is inserted no later than it is due. */
  predicate Timely<T>(s: State<T>, es: seq<Event<T>>)
    requires ValidRun(s, es)
    decreases |es|
  {
    es == [] || ((es[0].Insert? ==> s.now <= es[0].tv + s.delay) && Timely(Step(s, es[0]), es[1..]))
  }

  lemma {:induction false} RunInv<T>(s: State<T>, es: seq<Event<T>>)
    requires Inv(s) && ValidRun(s, es)
    ensures Inv(Run(s, es))
    decreases |es|
  {
    hide Inv, Step, Enabled;
    if es != [] {
      StepInv(s, es[0]);
      RunInv(Step(s, es[0]), es[1..]);
    }
  }

  lemma {:induction false} RunStaysBroken<T>(s: State<T>, es: seq<Event<T>>)
    requires Inv(s) && ValidRun(s, es) && !InOrder(s)
    ensures !InOrder(Run(s, es))
    decreases |es|
  {
    hide Inv, InOrder, Step, Enabled;
    if es != [] {
      StepInv(s, es[0]);
      BrokenStays(s, es[0]);
      RunStaysBroken(Step(s, es[0]), es[1..]);
    }
  }

  /** A run that starts in order ends in order if and only if no frame is ever inserted too late. */
  lemma {:induction false} RunOrderExactly<T>(s: State<T>, es: seq<Event<T>>)
    requires Inv(s) && InOrder(s) && ValidRun(s, es)
    ensures InOrder(Run(s, es)) <==> NeverOvertaken(s, es)
    decreases |es|
  {
    hide Inv, InOrder, Step, Enabled, NotOvertaken;
    if es != [] {
      StepInv(s, es[0]);
      OrderKeptExactly(s, es[0]);
      if es[0].Insert? && !NotOvertaken(s, es[0].tv) {
        RunStaysBroken(Step(s, es[0]), es[1..]);
      } else {
        RunOrderExactly(Step(s, es[0]), es[1..]);
      }
    }
  }

  lemma {:induction false} TimelyNeverOvertaken<T>(s: State<T>, es: seq<Event<T>>)
    requires Inv(s) && ValidRun(s, es) && Timely(s, es)
    ensures NeverOvertaken(s, es)
    decreases |es|
  {
    hide Inv, Step, Enabled, NotOvertaken;
    if es != [] {
      StepInv(s, es[0]);
      if es[0].Insert? { TimelyIsNotOvertaken(s, es[0].tv); }
      TimelyNeverOvertaken(Step(s, es[0]), es[1..]);
    }
  }

  // ----- no frame is lost -----

  /** What was inserted, in order. */
  function Inserts<T>(es: seq<Event<T>>): (r: seq<(nat, T)>) {
    if es == [] then [] else (if es[0].Insert? then [(es[0].tv, es[0].body)] else []) + Inserts(es[1..])
  }

  /** The frame is one that was inserted, unchanged. */
  predicate Genuine<T(==)>(f: Frame<T>, ins: seq<(nat, T)>) {
    f.serial < |ins| && f.tv == ins[f.serial].0 && f.body == ins[f.serial].1
  }

  ghost predicate Queued<T>(s: State<T>, n: nat) {
    exists i :: 0 <= i < |s.frames| && s.frames[i].serial == n
  }

  ghost predicate Gone<T>(s: State<T>, n: nat) {
    exists i :: 0 <= i < |s.departed| && s.departed[i].0.serial == n
  }

  /** Each frame that was inserted is either queued or gone, once, and unchanged. */
  ghost predicate Accounted<T>(s: State<T>, ins: seq<(nat, T)>) {
    && |s.frames| + |s.departed| == s.inserted == |ins|
    && (forall i :: 0 <= i < |s.frames| ==> Genuine(s.frames[i], ins))
    && (forall i :: 0 <= i < |s.departed| ==> Genuine(s.departed[i].0, ins))
    && (forall n: nat :: n < |ins| ==> Queued(s, n) || Gone(s, n))
  }

  lemma StaysGenuine<T>(f: Frame<T>, ins: seq<(nat, T)>, next: (nat, T))
    requires Genuine(f, ins)
    ensures Genuine(f, ins + [next])
  {
  }

  lemma InsertedIsGenuine<T>(f: Frame<T>, ins: seq<(nat, T)>)
    requires f.serial == |ins|
    ensures Genuine(f, ins + [(f.tv, f.body)])
  {
  }

  lemma StaysAccounted<T>(s: State<T>, r: State<T>, f: Frame<T>, at: nat, n: nat)
    requires at <= |s.frames| && r.frames == s.frames[..at] + [f] + s.frames[at..] && r.departed == s.departed
    requires Queued(s, n) || Gone(s, n)
    ensures Queued(r, n) || Gone(r, n)
  {
    if Queued(s, n) {
      var i :| 0 <= i < |s.frames| && s.frames[i].serial == n;
      assert r.frames[if i < at then i else i + 1] == s.frames[i];
    }
  }

  lemma InsertAccounted<T>(s: State<T>, tv: nat, body: T, ins: seq<(nat, T)>)
    requires Inv(s) && Accounted(s, ins)
    ensures Accounted(Step(s, Insert(tv, body)), ins + [(tv, body)])
  {
    var f, r := Frame(tv, s.inserted, body), Step(s, Insert(tv, body));
    var at := InsertPlace(s.frames, f);
    hide InsertSorted, Inv, Genuine, Gone;
    assert r.frames == s.frames[..at] + [f] + s.frames[at..] && r.departed == s.departed && r.inserted == |ins| + 1;
    hide Step;
    InsertedIsGenuine(f, ins);
    forall i | 0 <= i < |r.frames| ensures Genuine(r.frames[i], ins + [(tv, body)]) {
      if i != at { StaysGenuine(s.frames[if i < at then i else i - 1], ins, (tv, body)); }
    }
    forall i | 0 <= i < |r.departed| ensures Genuine(r.departed[i].0, ins + [(tv, body)]) {
      StaysGenuine(s.departed[i].0, ins, (tv, body));
    }
    forall n: nat | n < |ins| + 1 ensures Queued(r, n) || Gone(r, n) {
      if n == |ins| {
        assert r.frames[at].serial == n;
      } else {
        StaysAccounted(s, r, f, at, n);
      }
    }
  }

  lemma FireAccounted<T>(s: State<T>, ins: seq<(nat, T)>)
    requires Inv(s) && Enabled(s, Fire) && Accounted(s, ins)
    ensures Accounted(Step(s, Fire), ins)
  {
    hide NewestFirst, NoneEarly, SetForQueued;
    var r := Step(s, Fire);
    forall n: nat | n < |ins| ensures Queued(r, n) || Gone(r, n) {
      if Queued(s, n) {
        var i :| 0 <= i < |s.frames| && s.frames[i].serial == n;
        if i < |s.frames| - 1 {
          assert r.frames[i].serial == n;
        } else {
          assert r.departed[|s.departed|].0.serial == n;
        }
      } else {
        var i :| 0 <= i < |s.departed| && s.departed[i].0.serial == n;
        assert r.departed[i] == s.departed[i];
      }
    }
  }

  lemma StepAccounted<T>(s: State<T>, e: Event<T>, ins: seq<(nat, T)>)
    requires Inv(s) && Enabled(s, e) && Accounted(s, ins)
    ensures Accounted(Step(s, e), ins + Inserts([e]))
  {
    match e
    case Insert(tv, body) =>
      assert Inserts([e]) == [(tv, body)];
      InsertAccounted(s, tv, body, ins);
    case Fire =>
      assert ins + Inserts([e]) == ins;
      FireAccounted(s, ins);
    case _ =>
      assert ins + Inserts([e]) == ins;
      var r := Step(s, e);
      assert r.frames == s.frames && r.departed == s.departed;
      assert forall n: nat :: Queued(s, n) ==> Queued(r, n);
      assert forall n: nat :: Gone(s, n) ==> Gone(r, n);
  }

  lemma {:induction false} RunAccounted<T>(s: State<T>, es: seq<Event<T>>, ins: seq<(nat, T)>)
    requires Inv(s) && ValidRun(s, es) && Accounted(s, ins)
    ensures Accounted(Run(s, es), ins + Inserts(es))
    decreases |es|
  {
    hide Inv, Step, Enabled, Accounted;
    if es == [] {
      assert ins + Inserts(es) == ins;
    } else {
      StepInv(s, es[0]);
      StepAccounted(s, es[0], ins);
      assert Inserts(es) == Inserts([es[0]]) + Inserts(es[1..]);
      assert ins + Inserts(es) == ins + Inserts([es[0]]) + Inserts(es[1..]);
      RunAccounted(Step(s, es[0]), es[1..], ins + Inserts([es[0]]));
    }
  }

  /** In every run each inserted frame is either still queued or has left, exactly once and unchanged. */
  lemma NoneLost<T>(delay: nat, now: int, es: seq<Event<T>>)
    requires delay > 0 && ValidRun(Init(delay, now), es)
    ensures Accounted(Run(Init(delay, now), es), Inserts(es))
  {
    RunAccounted(Init(delay, now), es, []);
    assert [] + Inserts(es) == Inserts(es);
  }

  /** In every run no frame leaves before its receive time plus the delay, whatever is inserted while
      the timer is set, and a queued frame always has a timer run pending. */
  lemma NeverEarlyNeverStuck<T>(delay: nat, now: int, es: seq<Event<T>>)
    requires delay > 0 && ValidRun(Init(delay, now), es)
    ensures var s := Run(Init(delay, now), es);
      && (forall i :: 0 <= i < |s.departed| ==> s.departed[i].0.tv + s.delay <= s.departed[i].1)
      && (s.frames != [] ==> s.armed || s.inFlight)
  {
    RunInv(Init(delay, now), es);
  }

  /** In every run the timer, when set, is set for exactly the due time of a queued frame, and not before
      that of the oldest. */
  lemma TimerIsSetExactly<T>(delay: nat, now: int, es: seq<Event<T>>)
    requires delay > 0 && ValidRun(Init(delay, now), es)
    ensures var s := Run(Init(delay, now), es);
      s.armed ==>
        && s.frames != [] && s.next >= s.frames[|s.frames| - 1].tv + s.delay
        && exists i :: 0 <= i < |s.frames| && s.next == s.frames[i].tv + s.delay
  {
    RunInv(Init(delay, now), es);
  }

  /** The timer, when set, is set for the oldest frame. */
  predicate Prompt<T>(s: State<T>) {
    s.armed ==> s.frames != [] && s.next == Last(s.frames).tv + s.delay
  }

  /** The timer stays set for the oldest frame unless an even older one is inserted while it is set. */
  lemma PromptKeptExactly<T>(s: State<T>, e: Event<T>)
    requires Inv(s) && Enabled(s, e) && Prompt(s)
    ensures Prompt(Step(s, e)) <==> !(e.Insert? && s.armed && e.tv < Last(s.frames).tv)
  {
    if e.Insert? {
      InsertSortedSpec(s.frames, Frame(e.tv, s.inserted, e.body));
      hide InsertSorted, NewestFirst;
    }
  }

  /** No frame older than all queued ones is inserted while the timer is set. */
  predicate NeverOldest<T>(s: State<T>, es: seq<Event<T>>)
    requires ValidRun(s, es)
    decreases |es|
  {
    es == [] ||
    (!(es[0].Insert? && s.armed && s.frames != [] && es[0].tv < s.frames[|s.frames| - 1].tv)
     && NeverOldest(Step(s, es[0]), es[1..]))
  }

  lemma {:induction false} RunStaysPrompt<T>(s: State<T>, es: seq<Event<T>>)
    requires Inv(s) && ValidRun(s, es) && NeverOldest(s, es) && Prompt(s)
    ensures Prompt(Run(s, es))
    decreases |es|
  {
    if es != [] {
      StepInv(s, es[0]);
      PromptKeptExactly(s, es[0]);
      hide Inv, Step, Enabled, Prompt;
      RunStaysPrompt(Step(s, es[0]), es[1..]);
    }
  }

  /** In every run in which that does not happen, the timer, when set, is set for exactly the moment at
      which the oldest frame is due, so a timer that fires at its time releases it neither early nor late. */
  lemma LeaveWhenDue<T>(delay: nat, now: int, es: seq<Event<T>>)
    requires delay > 0 && ValidRun(Init(delay, now), es) && NeverOldest(Init(delay, now), es)
    ensures var s := Run(Init(delay, now), es);
      s.armed ==> s.frames != [] && s.next == s.frames[|s.frames| - 1].tv + s.delay
  {
    RunStaysPrompt(Init(delay, now), es);
  }

  /** Over every run that ends with an empty queue, frames have left in order of receive time, ties in
      order of insertion, if and only if no frame was inserted after a newer one had left. */
  lemma LeaveInOrderExactly<T>(delay: nat, now: int, es: seq<Event<T>>)
    requires delay > 0 && ValidRun(Init(delay, now), es) && Run(Init(delay, now), es).frames == []
    ensures OldestFirst(Departed(Run(Init(delay, now), es))) <==> NeverOvertaken(Init(delay, now), es)
  {
    RunOrderExactly(Init(delay, now), es);
  }

  /** In every run whose frames are inserted before they are due, frames leave in order of receive
      time, ties in order of insertion. */
  lemma LeaveInOrder<T>(delay: nat, now: int, es: seq<Event<T>>)
    requires delay > 0 && ValidRun(Init(delay, now), es) && Timely(Init(delay, now), es)
    ensures OldestFirst(Departed(Run(Init(delay, now), es)))
    ensures var d := Run(Init(delay, now), es).departed;
      forall i, j :: 0 <= i < j < |d| ==>
        d[i].0.tv < d[j].0.tv || (d[i].0.tv == d[j].0.tv && d[i].0.serial < d[j].0.serial)
  {
    var d, q := Run(Init(delay, now), es).departed, Departed(Run(Init(delay, now), es));
    assert forall i :: 0 <= i < |d| ==> q[i] == d[i].0;
    TimelyNeverOvertaken(Init(delay, now), es);
    RunOrderExactly(Init(delay, now), es);
  }

  /** Without that, the order can break: a frame that turns up after a newer one has left. */
  lemma LateFrameLeavesOutOfOrder()
    ensures var es := [Insert(100, 'a'), Tick(200), Fire, Reschedule, Insert(50, 'b'), Fire];
      && ValidRun(Init<char>(20, 100), es)
      && !OldestFirst(Departed(Run(Init<char>(20, 100), es)))
  {
    var s0 := Init<char>(20, 100);
    var s1 := Step(s0, Insert(100, 'a'));
    assert s1.frames == [Frame(100, 0, 'a')] && s1.next == 120;
    var s2 := Step(s1, Tick(200));
    var s3 := Step(s2, Fire);
    assert s3.frames == [] && s3.departed == [(Frame(100, 0, 'a'), 300)];
    var s4 := Step(s3, Reschedule);
    var s5 := Step(s4, Insert(50, 'b'));
    assert s5.frames == [Frame(50, 1, 'b')] && s5.next == 70;
    var s6 := Step(s5, Fire);
    assert s6.departed == [(Frame(100, 0, 'a'), 300), (Frame(50, 1, 'b'), 300)];
    var es := [Insert(100, 'a'), Tick(200), Fire, Reschedule, Insert(50, 'b'), Fire];
    assert es[1..] == [Tick(200), Fire, Reschedule, Insert(50, 'b'), Fire];
    assert es[1..][1..] == [Fire, Reschedule, Insert(50, 'b'), Fire];
    assert es[1..][1..][1..] == [Reschedule, Insert(50, 'b'), Fire];
    assert es[1..][1..][1..][1..] == [Insert(50, 'b'), Fire];
    assert es[1..][1..][1..][1..][1..] == [Fire];
    assert Run(s0, es) == s6;
    var d := Departed(s6);
    assert !Precedes(d[0], d[1]);
  }

  // ----- the code itself -----

  lemma InsertHere<T>(q: seq<Frame<T>>, f: Frame<T>)
    requires q == [] || q[0].tv <= f.tv
    ensures InsertSorted(q, f) == [f] + q
  {
  }

  lemma InsertPast<T>(q: seq<Frame<T>>, f: Frame<T>, at: nat)
    requires at < |q| && q[at].tv > f.tv
    ensures q[..at] + InsertSorted(q[at..], f) == q[..at + 1] + InsertSorted(q[at + 1..], f)
  {
    assert InsertSorted(q[at..], f) == [q[at]] + InsertSorted(q[at + 1..], f) by { assert q[at..][1..] == q[at + 1..]; }
    assert q[..at + 1] == q[..at] + [q[at]];
    hide InsertSorted;
    var rest := InsertSorted(q[at + 1..], f);
    assert q[..at] + ([q[at]] + rest) == (q[..at] + [q[at]]) + rest;
  }

  /** The search of g_queue_insert_sorted. */
  method FindPlace<T>(q: seq<Frame<T>>, f: Frame<T>) returns (at: nat)
    ensures at <= |q| && InsertSorted(q, f) == q[..at] + [f] + q[at..]
    ensures (forall i :: 0 <= i < at ==> q[i].tv > f.tv) && (at < |q| ==> q[at].tv <= f.tv)
  {
    hide InsertSorted;
    at := 0;
    assert q[0..] == q && q[..0] == [];
    while at < |q| && q[at].tv > f.tv
      invariant 0 <= at <= |q| && forall i :: 0 <= i < at ==> q[i].tv > f.tv
      invariant InsertSorted(q, f) == q[..at] + InsertSorted(q[at..], f)
    {
      InsertPast(q, f, at);
      at := at + 1;
    }
    InsertHere(q[at..], f);
    assert q[..at] + ([f] + q[at..]) == q[..at] + [f] + q[at..];
  }

  class Buffer<T(==)> {
    var frames: seq<Frame<T>>
    var delay: nat
    var next: int
    var armed: bool
    var inFlight: bool
    var now: int
    var inserted: nat
    var departed: seq<(Frame<T>, int)>

    function Snapshot(): State<T>
      reads this
    {
      State(frames, delay, next, armed, inFlight, now, inserted, departed)
    }

    constructor (delay: nat, now: int)
      requires delay > 0
      ensures Snapshot() == Init(delay, now) && Inv(Snapshot())
    {
      frames, this.delay, next, armed, inFlight := [], delay, 0, false, false;
      this.now, inserted, departed := now, 0, [];
    }

    method ScheduleTimer()
      modifies this`next, this`armed
      ensures Snapshot() == Schedule(old(Snapshot()))
      ensures old(next) == 0 && frames != [] ==> armed && next == frames[|frames| - 1].tv + delay
      ensures old(next) != 0 || frames == [] ==> next == old(next) && armed == old(armed)
    {
      if next != 0 {
        return;
      }
      if |frames| == 0 {
        return;
      }
      next := frames[|frames| - 1].tv + delay;
      armed := true;
    }

    /** The locked section of __buffer_delay_frame, __buffer_delay_raw and __buffer_delay_packet. */
    method AddFrame(tv: nat, body: T) returns (ghost at: nat)
      requires Inv(Snapshot())
      modifies this
      ensures Snapshot() == Step(old(Snapshot()), Insert(tv, body)) && Inv(Snapshot())
      ensures inserted == old(inserted) + 1 && at <= |old(frames)|
      ensures frames == old(frames)[..at] + [Frame(tv, old(inserted), body)] + old(frames)[at..]
      ensures forall i :: 0 <= i < at ==> old(frames)[i].tv > tv
      ensures at < |old(frames)| ==> old(frames)[at].tv <= tv
    {
      hide Inv, InsertSorted;
      StepInv(Snapshot(), Insert(tv, body));
      var f := Frame(tv, inserted, body);
      var place := FindPlace(frames, f);
      at := place;
      frames := frames[..place] + [f] + frames[place..];
      inserted := inserted + 1;
      ScheduleTimer();
    }

    /** __delay_send_later, first locked section: take the oldest frame. */
    method TakeFrame() returns (f: Frame<T>)
      requires Inv(Snapshot()) && Enabled(Snapshot(), Fire)
      modifies this
      ensures Snapshot() == Step(old(Snapshot()), Fire) && Inv(Snapshot())
      ensures old(frames) != [] && f == Last(old(frames)) && f.tv + delay <= now
    {
      StepInv(Snapshot(), Fire);
      assert frames != [];
      f := frames[|frames| - 1];
      assert f.tv + delay <= now;
      hide Inv;
      frames := frames[..|frames| - 1];
      departed := departed + [(f, now)];
      armed := false;
      inFlight := true;
    }

    /** __delay_send_later, last locked section. */
    method ScheduleNext()
      requires Inv(Snapshot()) && Enabled(Snapshot(), Reschedule)
      modifies this
      ensures Snapshot() == Step(old(Snapshot()), Reschedule) && Inv(Snapshot())
    {
      StepInv(Snapshot(), Reschedule);
      hide Inv;
      next := 0;
      inFlight := false;
      ScheduleTimer();
    }
  }
}
