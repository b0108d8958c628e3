/** The hand-off of transcoding jobs from packet threads to worker threads. Packet threads append to
    a per-SSRC-handler list and put only the first job on the global queue; a worker that takes it
    drains the list, dropping the handler's lock while each job runs. Every critical section is one
    step; any number of packet threads and workers interleave. */
module AsyncJobs {
  import opened Options

  type Handler = nat
  type Worker = nat

  /** A job belongs to one SSRC handler; the id is its position in the overall arrival order. */
  datatype Job = Job(handler: Handler, id: nat)

  /** Where a worker is: about to look at the queue; asleep on the condition variable; holding a job it
      took from the queue; about to run the list entry at `cursor`; or having run it and about to retake
      the lock. */
  datatype Pc = Idle | Sleeping | Claimed(ref: Job) | AtJob(ref: Job, cursor: nat) | Ran(ref: Job, cursor: nat)

  predicate Busy(pc: Pc) {
    !pc.Idle? && !pc.Sleeping?
  }

  /** announcing: handlers whose lock is held by a packet thread that has just appended the first job
      and is about to put it on the queue. arrived and decoded record the history. */
  datatype State = State(
    asyncJobs: map<Handler, seq<Job>>,
    announcing: map<Handler, Job>,
    transcodeJobs: seq<Job>,
    workers: map<Worker, Pc>,
    arrived: seq<Job>,
    decoded: seq<Job>)

  datatype Event =
    | Append(h: Handler) | Announce(h: Handler, woken: Option<Worker>)
    | Sleep(w: Worker) | Wake(w: Worker)
    | Pop(w: Worker) | Enter(w: Worker) | Decode(w: Worker) | Advance(w: Worker)

  function Jobs(s: State, h: Handler): (js: seq<Job>) {
    if h in s.asyncJobs then s.asyncJobs[h] else []
  }

  predicate Unlocked(s: State, h: Handler) {
    h !in s.announcing
  }

  predicate Asleep(s: State, w: Worker) {
    w in s.workers && s.workers[w].Sleeping?
  }

  /** A step is possible when its thread is at that point and the lock it needs is free. The signal that
      goes with an announcement wakes a sleeping worker if there is one. A worker falls asleep only on an
      empty queue, and may wake up on its own. */
  predicate Enabled(s: State, e: Event) {
    match e
    case Append(h) => Unlocked(s, h)
    case Announce(h, woken) =>
      h in s.announcing && if woken.Some? then Asleep(s, woken.value) else forall w :: w in s.workers ==> !Asleep(s, w)
    case Sleep(w) => w in s.workers && s.workers[w].Idle? && s.transcodeJobs == []
    case Wake(w) => Asleep(s, w)
    case Pop(w) => w in s.workers && s.workers[w].Idle? && s.transcodeJobs != []
    case Enter(w) => w in s.workers && s.workers[w].Claimed? && Unlocked(s, s.workers[w].ref.handler)
    case Decode(w) => w in s.workers && s.workers[w].AtJob? && Unlocked(s, s.workers[w].ref.handler)
    case Advance(w) => w in s.workers && s.workers[w].Ran? && Unlocked(s, s.workers[w].ref.handler)
  }

  function Step(s: State, e: Event): (r: State)
    requires Enabled(s, e)
  {
    match e
    case Append(h) =>
      var j := Job(h, |s.arrived|);
      var s' := s.(asyncJobs := s.asyncJobs[h := Jobs(s, h) + [j]], arrived := s.arrived + [j]);
      if Jobs(s, h) == [] then s'.(announcing := s.announcing[h := j]) else s'
    case Announce(h, woken) =>
      s.(announcing := s.announcing - {h}, transcodeJobs := s.transcodeJobs + [s.announcing[h]],
         workers := if woken.Some? then s.workers[woken.value := Idle] else s.workers)
    case Sleep(w) => s.(workers := s.workers[w := Sleeping])
    case Wake(w) => s.(workers := s.workers[w := Idle])
    case Pop(w) =>
      s.(transcodeJobs := s.transcodeJobs[1..], workers := s.workers[w := Claimed(s.transcodeJobs[0])])
    case Enter(w) =>
      s.(workers := s.workers[w := AtJob(s.workers[w].ref, 0)])
    case Decode(w) =>
      var pc := s.workers[w];
      var js := Jobs(s, pc.ref.handler);
      s.(workers := s.workers[w := Ran(pc.ref, pc.cursor)],
         decoded := s.decoded + if pc.cursor < |js| then [js[pc.cursor]] else [])
    case Advance(w) =>
      var pc := s.workers[w];
      var h := pc.ref.handler;
      if pc.cursor + 1 < |Jobs(s, h)|
      then s.(workers := s.workers[w := AtJob(pc.ref, pc.cursor + 1)])
      else s.(workers := s.workers[w := Idle], asyncJobs := s.asyncJobs[h := []])
  }

  // ----- what one handler sees -----

  function OfHandler(js: seq<Job>, h: Handler): (r: seq<Job>) {
    if js == [] then [] else (if js[0].handler == h then [js[0]] else []) + OfHandler(js[1..], h)
  }

  function BusyOn(workers: map<Worker, Pc>, h: Handler): (b: map<Worker, Pc>) {
    map w | w in workers && Busy(workers[w]) && workers[w].ref.handler == h :: workers[w]
  }

  datatype Local = Local(jobs: seq<Job>, announcing: Option<Job>, queued: seq<Job>, busy: map<Worker, Pc>,
                         arrived: seq<Job>, decoded: seq<Job>)

  function View(s: State, h: Handler): (l: Local) {
    Local(Jobs(s, h), if h in s.announcing then Some(s.announcing[h]) else None,
          OfHandler(s.transcodeJobs, h), BusyOn(s.workers, h), OfHandler(s.arrived, h), OfHandler(s.decoded, h))
  }

  /** A token is the right to run a handler's jobs: an announcement under way, a queue entry, or a
      worker that took one. */
  function Tokens(l: Local): (n: nat) {
    (if l.announcing.Some? then 1 else 0) + |l.queued| + |l.busy|
  }

  /** How many entries of the list the worker has run. */
  function Progress(pc: Pc): (n: nat) {
    match pc case Idle => 0 case Sleeping => 0 case Claimed(_) => 0 case AtJob(_, c) => c case Ran(_, c) => c + 1
  }

  /** The token, wherever it is, is the head job of the list. */
  ghost predicate HeadIsToken(l: Local) {
    && (l.announcing.Some? ==> l.jobs != [] && l.announcing.value == l.jobs[0])
    && (forall j :: j in l.queued ==> l.jobs != [] && j == l.jobs[0])
    && (forall w :: w in l.busy ==> Busy(l.busy[w]) && l.jobs != [] && l.busy[w].ref == l.jobs[0])
  }

  /** A list cursor held across an unlocked section still points into the list. */
  ghost predicate CursorsLive(l: Local) {
    forall w :: w in l.busy && Busy(l.busy[w]) && !l.busy[w].Claimed? ==> l.busy[w].cursor < |l.jobs|
  }

  /** Decoded so far, then what is left of the list, is exactly what arrived. */
  ghost predicate NothingLost(l: Local) {
    && (l.busy == map[] ==> l.decoded + l.jobs == l.arrived)
    && (forall w :: w in l.busy ==>
          Progress(l.busy[w]) <= |l.jobs| && l.decoded + l.jobs[Progress(l.busy[w])..] == l.arrived)
  }

  ghost predicate LocalInv(l: Local, h: Handler) {
    && (forall j :: j in l.jobs ==> j.handler == h)
    && Tokens(l) == (if l.jobs == [] then 0 else 1)
    && HeadIsToken(l) && CursorsLive(l) && NothingLost(l)
  }

  /** A queued job never waits with every worker asleep. */
  ghost predicate Attended(jobs: seq<Job>, workers: map<Worker, Pc>) {
    jobs != [] && workers != map[] ==> exists w :: w in workers && !workers[w].Sleeping?
  }

  ghost predicate Inv(s: State) {
    && (forall h :: LocalInv(View(s, h), h))
    && Attended(s.transcodeJobs, s.workers)
    && (forall i :: 0 <= i < |s.arrived| ==> s.arrived[i].id == i)
  }

  // ----- filters and busy maps under the steps -----

  lemma {:induction false} OfHandlerConcat(a: seq<Job>, b: seq<Job>, h: Handler)
    ensures OfHandler(a + b, h) == OfHandler(a, h) + OfHandler(b, h)
  {
    if a == [] {
      assert a + b == b;
    } else {
      OfHandlerConcat(a[1..], b, h);
      var head := if a[0].handler == h then [a[0]] else [];
      assert OfHandler(a + b, h) == head + OfHandler(a[1..] + b, h) by { assert (a + b)[1..] == a[1..] + b; }
      assert head + (OfHandler(a[1..], h) + OfHandler(b, h)) == (head + OfHandler(a[1..], h)) + OfHandler(b, h);
    }
  }

  lemma OfHandlerOne(js: seq<Job>, j: Job, h: Handler)
    ensures OfHandler(js + [j], h) == OfHandler(js, h) + if j.handler == h then [j] else []
  {
    OfHandlerConcat(js, [j], h);
    assert OfHandler([j], h) == if j.handler == h then [j] else [];
  }

  lemma OfHandlerFirst(js: seq<Job>, h: Handler)
    requires js != []
    ensures OfHandler(js, h) == (if js[0].handler == h then [js[0]] else []) + OfHandler(js[1..], h)
  {
  }

  lemma BusyUpdate(ws: map<Worker, Pc>, w: Worker, pc: Pc, h: Handler)
    ensures BusyOn(ws[w := pc], h) ==
      if Busy(pc) && pc.ref.handler == h then BusyOn(ws, h)[w := pc] else BusyOn(ws, h) - {w}
  {
  }

  lemma NotBusyUnchanged(ws: map<Worker, Pc>, w: Worker, h: Handler)
    requires w in ws && (!Busy(ws[w]) || ws[w].ref.handler != h)
    ensures BusyOn(ws, h) - {w} == BusyOn(ws, h)
  {
  }

  /** Within a valid view, a busy worker holds the only token. */
  lemma SoleWorker(l: Local, h: Handler, w: Worker)
    requires LocalInv(l, h) && w in l.busy
    ensures l.jobs != [] && l.announcing == None && l.queued == [] && l.busy == map[w := l.busy[w]]
  {
    assert l.busy.Keys - {w} == {} by {
      assert |l.busy.Keys - {w}| == |l.busy.Keys| - 1;
    }
    forall x | x in l.busy ensures x == w {
      assert x !in l.busy.Keys - {w};
    }
  }

  // ----- each step keeps the invariant -----

  lemma LocalAppend(l: Local, h: Handler, j: Job)
    requires LocalInv(l, h) && l.announcing == None && j.handler == h
    ensures LocalInv(l.(jobs := l.jobs + [j], arrived := l.arrived + [j],
                        announcing := if l.jobs == [] then Some(j) else None), h)
  {
    if l.jobs == [] {
      assert l.busy == map[];
    } else {
      assert l.decoded + (l.jobs + [j]) == l.decoded + l.jobs + [j];
      forall w | w in l.busy
        ensures l.decoded + (l.jobs + [j])[Progress(l.busy[w])..] == l.arrived + [j]
      {
        var p := Progress(l.busy[w]);
        assert (l.jobs + [j])[p..] == l.jobs[p..] + [j];
      }
    }
  }

  lemma LocalAnnounce(l: Local, h: Handler)
    requires LocalInv(l, h) && l.announcing.Some?
    ensures LocalInv(l.(announcing := None, queued := l.queued + [l.announcing.value]), h)
  {
  }

  lemma LocalPop(l: Local, h: Handler, j: Job, w: Worker)
    requires LocalInv(l, h) && l.queued != [] && l.queued[0] == j
    ensures l.busy == map[] && l.queued == [j]
    ensures LocalInv(l.(queued := [], busy := map[w := Claimed(j)]), h)
  {
    assert j in l.queued;
    assert l.jobs[0..] == l.jobs;
  }

  predicate SoleHolder(l: Local, w: Worker, pc: Pc) {
    l.jobs != [] && l.busy == map[w := pc] && l.announcing == None && l.queued == []
  }

  lemma LocalEnter(l: Local, h: Handler, w: Worker, pc: Pc)
    requires LocalInv(l, h) && SoleHolder(l, w, pc) && pc.Claimed?
    ensures LocalInv(l.(busy := map[w := AtJob(pc.ref, 0)]), h)
  {
    assert w in l.busy;
  }

  lemma LocalDecode(l: Local, h: Handler, w: Worker, pc: Pc)
    requires LocalInv(l, h) && SoleHolder(l, w, pc) && pc.AtJob?
    ensures pc.cursor < |l.jobs|
    ensures LocalInv(l.(busy := map[w := Ran(pc.ref, pc.cursor)], decoded := l.decoded + [l.jobs[pc.cursor]]), h)
  {
    assert w in l.busy;
    assert l.jobs[pc.cursor..] == [l.jobs[pc.cursor]] + l.jobs[pc.cursor + 1..];
  }

  /** At the end of the list the worker lets go of it, and everything that arrived has been decoded. */
  lemma LocalAdvance(l: Local, h: Handler, w: Worker, pc: Pc)
    requires LocalInv(l, h) && SoleHolder(l, w, pc) && pc.Ran?
    ensures pc.cursor < |l.jobs|
    ensures pc.cursor + 1 < |l.jobs| ==> LocalInv(l.(busy := map[w := AtJob(pc.ref, pc.cursor + 1)]), h)
    ensures pc.cursor + 1 == |l.jobs| ==> l.decoded == l.arrived && LocalInv(l.(busy := map[], jobs := []), h)
  {
    assert w in l.busy;
  }

  lemma AppendInv(s: State, h: Handler)
    requires Inv(s) && Enabled(s, Append(h))
    ensures Inv(Step(s, Append(h)))
  {
    hide LocalInv, OfHandler, BusyOn;
    var s', j := Step(s, Append(h)), Job(h, |s.arrived|);
    forall k ensures LocalInv(View(s', k), k) {
      OfHandlerOne(s.arrived, j, k);
      assert LocalInv(View(s, k), k);
      var l := View(s, k);
      if k == h {
        LocalAppend(l, h, j);
        var first := if l.jobs == [] then Some(j) else None;
        assert View(s', k) == l.(jobs := l.jobs + [j], arrived := l.arrived + [j], announcing := first);
      } else {
        assert View(s', k) == l;
      }
    }
  }

  lemma AnnouncedIsOwn(s: State, h: Handler)
    requires Inv(s) && h in s.announcing
    ensures s.announcing[h].handler == h
  {
    assert LocalInv(View(s, h), h);
  }

  /** A worker without a job, asleep or not, does not count for any handler. */
  lemma RestingMoves(ws: map<Worker, Pc>, w: Worker, pc: Pc, k: Handler)
    requires w in ws && !Busy(ws[w]) && !Busy(pc)
    ensures BusyOn(ws[w := pc], k) == BusyOn(ws, k)
  {
    BusyUpdate(ws, w, pc, k);
    NotBusyUnchanged(ws, w, k);
  }

  /** A worker that is at a step is awake after it, unless it falls asleep. */
  lemma AwakeAttends(jobs: seq<Job>, workers: map<Worker, Pc>, w: Worker)
    requires w in workers && !workers[w].Sleeping?
    ensures Attended(jobs, workers)
  {
  }

  lemma AnnounceAttended(s: State, h: Handler, woken: Option<Worker>)
    requires Enabled(s, Announce(h, woken))
    ensures var s' := Step(s, Announce(h, woken)); Attended(s'.transcodeJobs, s'.workers)
  {
    var s' := Step(s, Announce(h, woken));
    if woken.Some? {
      AwakeAttends(s'.transcodeJobs, s'.workers, woken.value);
    } else if s.workers != map[] {
      var w :| w in s.workers;
      assert !Asleep(s, w);
      AwakeAttends(s'.transcodeJobs, s'.workers, w);
    }
  }

  lemma AnnounceInv(s: State, h: Handler, woken: Option<Worker>)
    requires Inv(s) && Enabled(s, Announce(h, woken))
    ensures Inv(Step(s, Announce(h, woken)))
  {
    hide LocalInv, OfHandler, BusyOn, Attended;
    var s' := Step(s, Announce(h, woken));
    AnnounceAttended(s, h, woken);
    forall k ensures LocalInv(View(s', k), k) {
      AnnouncedIsOwn(s, h);
      if woken.Some? { RestingMoves(s.workers, woken.value, Idle, k); }
      OfHandlerOne(s.transcodeJobs, s.announcing[h], k);
      assert LocalInv(View(s, k), k);
      var l := View(s, k);
      if k == h {
        LocalAnnounce(l, h);
        assert View(s', k) == l.(announcing := None, queued := l.queued + [l.announcing.value]);
      } else {
        assert View(s', k) == l;
      }
    }
  }

  lemma RestInv(s: State, e: Event)
    requires Inv(s) && Enabled(s, e) && (e.Sleep? || e.Wake?)
    ensures Inv(Step(s, e))
  {
    var s' := Step(s, e);
    if e.Wake? { AwakeAttends(s'.transcodeJobs, s'.workers, e.w); }
    hide LocalInv, OfHandler, BusyOn;
    forall k ensures LocalInv(View(s', k), k) {
      RestingMoves(s.workers, e.w, s'.workers[e.w], k);
      assert View(s', k) == View(s, k);
    }
  }

  lemma PopInv(s: State, w: Worker)
    requires Inv(s) && Enabled(s, Pop(w))
    ensures Inv(Step(s, Pop(w)))
  {
    hide LocalInv, OfHandler, BusyOn, Attended;
    var s', j := Step(s, Pop(w)), s.transcodeJobs[0];
    AwakeAttends(s'.transcodeJobs, s'.workers, w);
    forall k ensures LocalInv(View(s', k), k) {
      BusyUpdate(s.workers, w, Claimed(j), k);
      NotBusyUnchanged(s.workers, w, k);
      OfHandlerFirst(s.transcodeJobs, k);
      assert LocalInv(View(s, k), k);
      var l := View(s, k);
      if k == j.handler {
        LocalPop(l, k, j, w);
        assert |OfHandler(s'.transcodeJobs, k)| == 0;
        assert View(s', k) == l.(queued := [], busy := map[w := Claimed(j)]);
      } else {
        assert View(s', k) == l;
      }
    }
  }

  /** A step of a busy worker concerns its own handler only, where it is the sole token holder. */
  lemma WorkerMoves(s: State, w: Worker, pc: Pc, k: Handler)
    requires Inv(s) && w in s.workers && Busy(s.workers[w])
    requires !Busy(pc) || pc.ref.handler == s.workers[w].ref.handler
    ensures LocalInv(View(s, k), k)
    ensures k == s.workers[w].ref.handler ==>
      && SoleHolder(View(s, k), w, s.workers[w])
      && BusyOn(s.workers[w := pc], k) == if Busy(pc) then map[w := pc] else map[]
    ensures k != s.workers[w].ref.handler ==> BusyOn(s.workers[w := pc], k) == BusyOn(s.workers, k)
  {
    assert LocalInv(View(s, k), k);
    BusyUpdate(s.workers, w, pc, k);
    if k == s.workers[w].ref.handler {
      SoleWorker(View(s, k), k, w);
    } else {
      NotBusyUnchanged(s.workers, w, k);
    }
  }

  lemma EnterInv(s: State, w: Worker)
    requires Inv(s) && Enabled(s, Enter(w))
    ensures Inv(Step(s, Enter(w)))
  {
    hide LocalInv, OfHandler, BusyOn, Attended;
    var s', pc := Step(s, Enter(w)), s.workers[w];
    AwakeAttends(s'.transcodeJobs, s'.workers, w);
    forall k ensures LocalInv(View(s', k), k) {
      WorkerMoves(s, w, s'.workers[w], k);
      if k == pc.ref.handler {
        LocalEnter(View(s, k), k, w, pc);
        assert View(s', k) == View(s, k).(busy := map[w := AtJob(pc.ref, 0)]);
      } else {
        assert View(s', k) == View(s, k);
      }
    }
  }

  lemma OwnJob(l: Local, h: Handler, i: nat)
    requires LocalInv(l, h) && i < |l.jobs|
    ensures l.jobs[i].handler == h
  {
    assert l.jobs[i] in l.jobs;
  }

  lemma DecodeInv(s: State, w: Worker)
    requires Inv(s) && Enabled(s, Decode(w))
    ensures Inv(Step(s, Decode(w)))
  {
    hide LocalInv, OfHandler, BusyOn, Attended;
    var s', pc := Step(s, Decode(w)), s.workers[w];
    var h := pc.ref.handler;
    var own := View(s, h);
    WorkerMoves(s, w, pc, h);
    LocalDecode(own, h, w, pc);
    OwnJob(own, h, pc.cursor);
    var j := own.jobs[pc.cursor];
    AwakeAttends(s'.transcodeJobs, s'.workers, w);
    forall k ensures LocalInv(View(s', k), k) {
      WorkerMoves(s, w, s'.workers[w], k);
      OfHandlerOne(s.decoded, j, k);
      if k == h {
        assert View(s', k) == own.(busy := map[w := Ran(pc.ref, pc.cursor)], decoded := own.decoded + [j]);
      } else {
        assert View(s', k) == View(s, k);
      }
    }
  }

  lemma AdvanceInv(s: State, w: Worker)
    requires Inv(s) && Enabled(s, Advance(w))
    ensures Inv(Step(s, Advance(w)))
  {
    hide LocalInv, OfHandler, BusyOn, Attended;
    var s', pc := Step(s, Advance(w)), s.workers[w];
    AwakeAttends(s'.transcodeJobs, s'.workers, w);
    forall k ensures LocalInv(View(s', k), k) {
      WorkerMoves(s, w, s'.workers[w], k);
      if k == pc.ref.handler {
        LocalAdvance(View(s, k), k, w, pc);
        if pc.cursor + 1 < |Jobs(s, k)| {
          assert View(s', k) == View(s, k).(busy := map[w := AtJob(pc.ref, pc.cursor + 1)]);
        } else {
          assert View(s', k) == View(s, k).(busy := map[], jobs := []);
        }
      } else {
        assert View(s', k) == View(s, k);
      }
    }
  }

  lemma StepInv(s: State, e: Event)
    requires Inv(s) && Enabled(s, e)
    ensures Inv(Step(s, e))
  {
    hide Inv, Step, Enabled;
    match e
    case Append(h) => AppendInv(s, h);
    case Announce(h, woken) => AnnounceInv(s, h, woken);
    case Sleep(_) => RestInv(s, e);
    case Wake(_) => RestInv(s, e);
    case Pop(w) => PopInv(s, w);
    case Enter(w) => EnterInv(s, w);
    case Decode(w) => DecodeInv(s, w);
    case Advance(w) => AdvanceInv(s, w);
  }

  // ----- whole runs -----

  function Init(ws: set<Worker>): (s: State) {
    State(map[], map[], [], map w | w in ws :: Idle, [], [])
  }

  /** Every step of the schedule is possible when its turn comes. */
  predicate ValidRun(s: State, es: seq<Event>)
    decreases |es|
  {
    es == [] || (Enabled(s, es[0]) && ValidRun(Step(s, es[0]), es[1..]))
  }

  function Run(s: State, es: seq<Event>): (r: State)
    requires ValidRun(s, es)
    decreases |es|
  {
    if es == [] then s else Run(Step(s, es[0]), es[1..])
  }

  lemma InitInv(ws: set<Worker>)
    ensures Inv(Init(ws))
  {
    forall h ensures LocalInv(View(Init(ws), h), h) {
      assert BusyOn(Init(ws).workers, h) == map[];
    }
  }

  lemma {:induction false} RunInv(s: State, es: seq<Event>)
    requires Inv(s) && ValidRun(s, es)
    ensures Inv(Run(s, es))
    decreases |es|
  {
    hide Inv, Step, Enabled;
    if es != [] {
      StepInv(s, es[0]);
      RunInv(Step(s, es[0]), es[1..]);
    }
  }

  /** In every interleaving, a handler with jobs has exactly one token and that token is the head of
      its list; a handler without jobs has none; and no list cursor is left dangling. */
  lemma OneToken(ws: set<Worker>, es: seq<Event>, h: Handler)
    requires ValidRun(Init(ws), es)
    ensures var l := View(Run(Init(ws), es), h);
      Tokens(l) == (if l.jobs == [] then 0 else 1) && HeadIsToken(l) && CursorsLive(l)
  {
    InitInv(ws);
    RunInv(Init(ws), es);
    assert LocalInv(View(Run(Init(ws), es), h), h);
  }

  /** The handlers whose packets were handed over, in order. */
  function Appended(es: seq<Event>): (hs: seq<Handler>) {
    if es == [] then [] else (if es[0].Append? then [es[0].h] else []) + Appended(es[1..])
  }

  lemma StepArrives(s: State, e: Event)
    requires Enabled(s, e)
    ensures Step(s, e).arrived == if e.Append? then s.arrived + [Job(e.h, |s.arrived|)] else s.arrived
  {
  }

  function Numbered(hs: seq<Handler>, from: nat): (js: seq<Job>)
    ensures |js| == |hs|
  {
    if hs == [] then [] else [Job(hs[0], from)] + Numbered(hs[1..], from + 1)
  }

  lemma {:induction false} NumberedAt(hs: seq<Handler>, from: nat, i: nat)
    requires i < |hs|
    ensures Numbered(hs, from)[i] == Job(hs[i], from + i)
  {
    if i > 0 { NumberedAt(hs[1..], from + 1, i - 1); }
  }

  lemma AppendedNext(es: seq<Event>, from: nat)
    ensures Numbered(Appended(es), from) ==
      if es == [] then []
      else if es[0].Append? then [Job(es[0].h, from)] + Numbered(Appended(es[1..]), from + 1)
      else Numbered(Appended(es[1..]), from)
  {
    if es != [] {
      if es[0].Append? {
        assert Appended(es)[1..] == Appended(es[1..]);
      } else {
        assert Appended(es) == Appended(es[1..]);
      }
    }
  }

  /** Every packet handed over is a job that has arrived, in order, and nothing else is. */
  lemma {:induction false} ArrivedAre(s: State, es: seq<Event>)
    requires ValidRun(s, es)
    ensures Run(s, es).arrived == s.arrived + Numbered(Appended(es), |s.arrived|)
    decreases |es|
  {
    hide Step, Enabled, Appended, Numbered;
    AppendedNext(es, |s.arrived|);
    if es != [] {
      StepArrives(s, es[0]);
      ArrivedAre(Step(s, es[0]), es[1..]);
      if es[0].Append? {
        var j, rest := Job(es[0].h, |s.arrived|), Numbered(Appended(es[1..]), |s.arrived| + 1);
        assert (s.arrived + [j]) + rest == s.arrived + ([j] + rest);
      }
    }
  }

  lemma {:induction false} CountOfHandler(js: seq<Job>, j: Job)
    ensures multiset(OfHandler(js, j.handler))[j] == multiset(js)[j]
  {
    if js != [] {
      assert js == [js[0]] + js[1..];
      CountOfHandler(js[1..], j);
    }
  }

  lemma {:induction false} ArrivedOnce(js: seq<Job>, j: Job)
    requires forall i :: 0 <= i < |js| ==> js[i].id == i
    ensures multiset(js)[j] <= 1
  {
    if js != [] {
      var p, last := js[..|js| - 1], js[|js| - 1];
      assert js == p + [last];
      ArrivedOnce(p, j);
      assert forall i :: 0 <= i < |p| ==> p[i].id == i;
      assert last !in p;
    }
  }

  lemma PrefixCount(a: seq<Job>, b: seq<Job>, j: Job)
    requires a <= b
    ensures multiset(a)[j] <= multiset(b)[j]
  {
    assert b == a + b[|a|..];
  }

  lemma DecodedIsPrefix(s: State, h: Handler)
    requires Inv(s)
    ensures OfHandler(s.decoded, h) <= OfHandler(s.arrived, h)
  {
    var l := View(s, h);
    assert LocalInv(l, h);
    if l.busy != map[] {
      var w :| w in l.busy;
      assert l.decoded + l.jobs[Progress(l.busy[w])..] == l.arrived;
    }
  }

  lemma DecodedWithinArrived(s: State)
    requires Inv(s)
    ensures multiset(s.decoded) <= multiset(s.arrived)
    ensures forall j :: multiset(s.decoded)[j] <= 1
  {
    forall j ensures multiset(s.decoded)[j] <= multiset(s.arrived)[j] <= 1 {
      CountOfHandler(s.decoded, j);
      CountOfHandler(s.arrived, j);
      DecodedIsPrefix(s, j.handler);
      PrefixCount(OfHandler(s.decoded, j.handler), OfHandler(s.arrived, j.handler), j);
      ArrivedOnce(s.arrived, j);
    }
  }

  /** In every interleaving, each handler's jobs are decoded in arrival order, and no job twice. */
  lemma InOrderAndOnce(ws: set<Worker>, es: seq<Event>)
    requires ValidRun(Init(ws), es)
    ensures var s := Run(Init(ws), es);
      && (forall h :: OfHandler(s.decoded, h) <= OfHandler(s.arrived, h))
      && multiset(s.decoded) <= multiset(s.arrived)
      && (forall j :: multiset(s.decoded)[j] <= 1)
  {
    InitInv(ws);
    RunInv(Init(ws), es);
    var s := Run(Init(ws), es);
    forall h ensures OfHandler(s.decoded, h) <= OfHandler(s.arrived, h) { DecodedIsPrefix(s, h); }
    DecodedWithinArrived(s);
  }

  /** Whenever a worker lets go of a list, every job of that handler that has arrived has been decoded. */
  lemma DetachLeavesNothing(ws: set<Worker>, es: seq<Event>, w: Worker)
    requires ValidRun(Init(ws), es) && Enabled(Run(Init(ws), es), Advance(w))
    requires Step(Run(Init(ws), es), Advance(w)).workers[w].Idle?
    ensures var s := Run(Init(ws), es);
      var h := s.workers[w].ref.handler;
      OfHandler(s.decoded, h) == OfHandler(s.arrived, h) && Jobs(Step(s, Advance(w)), h) == []
  {
    InitInv(ws);
    RunInv(Init(ws), es);
    var s := Run(Init(ws), es);
    var pc := s.workers[w];
    hide LocalInv, OfHandler, BusyOn;
    WorkerMoves(s, w, pc, pc.ref.handler);
    LocalAdvance(View(s, pc.ref.handler), pc.ref.handler, w, pc);
  }

  // ----- once arrivals stop, everything gets decoded -----

  /** A step that is neither an arrival nor a wake-up for no reason. */
  predicate Internal(e: Event) {
    !e.Append? && !e.Wake?
  }

  lemma {:induction false} RunKeepsWorkers(s: State, es: seq<Event>)
    requires ValidRun(s, es)
    ensures Run(s, es).workers.Keys == s.workers.Keys
    decreases |es|
  {
    if es != [] {
      assert Step(s, es[0]).workers.Keys == s.workers.Keys;
      RunKeepsWorkers(Step(s, es[0]), es[1..]);
    }
  }

  /** In every interleaving, with at least one worker, a queued job finds a worker that is not asleep: no
      signal is lost. */
  lemma NoLostSignal(ws: set<Worker>, es: seq<Event>)
    requires ws != {} && ValidRun(Init(ws), es) && Run(Init(ws), es).transcodeJobs != []
    ensures var s := Run(Init(ws), es); exists w :: w in s.workers && !s.workers[w].Sleeping?
  {
    InitInv(ws);
    RunInv(Init(ws), es);
    RunKeepsWorkers(Init(ws), es);
    var w :| w in ws;
    assert w in Init(ws).workers;
  }

  /** A thread at the announcement can always make it: some worker sleeps, or none does. */
  lemma CanAnnounce(s: State, h: Handler)
    ensures h in s.announcing ==> exists woken :: Enabled(s, Announce(h, woken))
  {
    if w :| w in s.workers && Asleep(s, w) {
      assert h in s.announcing ==> Enabled(s, Announce(h, Some(w)));
    } else {
      assert h in s.announcing ==> Enabled(s, Announce(h, None));
    }
  }

  /** Where no worker has a job, one that is awake can take the next. */
  lemma CanPop(s: State)
    requires Attended(s.transcodeJobs, s.workers) && s.workers != map[]
    requires forall w :: w in s.workers ==> !Busy(s.workers[w])
    ensures s.transcodeJobs != [] ==> exists w :: Enabled(s, Pop(w))
  {
    if s.transcodeJobs != [] {
      var w :| w in s.workers && !s.workers[w].Sleeping?;
      assert Enabled(s, Pop(w));
    }
  }

  /** With at least one worker, a state in which no thread can move has every arrived job decoded. */
  lemma StuckMeansDone(s: State)
    requires Inv(s) && s.workers != map[]
    requires forall e :: Internal(e) ==> !Enabled(s, e)
    ensures forall h :: Jobs(s, h) == [] && OfHandler(s.decoded, h) == OfHandler(s.arrived, h)
    ensures multiset(s.decoded) == multiset(s.arrived)
  {
    forall h ensures h !in s.announcing {
      CanAnnounce(s, h);
      assert forall woken :: Internal(Announce(h, woken));
    }
    forall w | w in s.workers ensures !Busy(s.workers[w]) {
      assert !Enabled(s, Enter(w)) && !Enabled(s, Decode(w)) && !Enabled(s, Advance(w));
    }
    CanPop(s);
    assert forall w :: Internal(Pop(w));
    assert s.transcodeJobs == [];
    forall h ensures Jobs(s, h) == [] && OfHandler(s.decoded, h) == OfHandler(s.arrived, h) {
      assert LocalInv(View(s, h), h);
      assert BusyOn(s.workers, h) == map[];
    }
    forall j ensures multiset(s.decoded)[j] == multiset(s.arrived)[j] {
      CountOfHandler(s.decoded, j);
      CountOfHandler(s.arrived, j);
    }
  }

  function Between(ws: map<Worker, Pc>): (r: set<Worker>) {
    set w | w in ws && (ws[w].Claimed? || ws[w].Ran?)
  }

  function Running(ws: map<Worker, Pc>): (r: set<Worker>) {
    set w | w in ws && ws[w].AtJob?
  }

  function Idlers(ws: map<Worker, Pc>): (r: set<Worker>) {
    set w | w in ws && ws[w].Idle?
  }

  function Effort(ws: map<Worker, Pc>): (n: nat) {
    2 * |Between(ws)| + |Running(ws)| + |Idlers(ws)|
  }

  /** The work left: an upper bound on the internal steps still possible. */
  function Work(s: State): (n: int) {
    2 * (|s.arrived| - |s.decoded|) + 5 * |s.announcing| + 3 * |s.transcodeJobs| + Effort(s.workers)
  }

  function Weight(pc: Pc): (n: nat) {
    if pc.Claimed? || pc.Ran? then 2 else if pc.Sleeping? then 0 else 1
  }

  lemma SubMultisetSize(a: multiset<Job>, b: multiset<Job>)
    requires a <= b
    ensures |a| <= |b|
  {
    assert b == a + (b - a);
  }

  lemma WorkNonNegative(s: State)
    requires Inv(s)
    ensures Work(s) >= 0
  {
    DecodedWithinArrived(s);
    assert |multiset(s.decoded)| <= |multiset(s.arrived)| by {
      SubMultisetSize(multiset(s.decoded), multiset(s.arrived));
    }
  }

  lemma Replace(a: set<Worker>, w: Worker, keep: bool)
    ensures |(a - {w}) + (if keep then {w} else {})| == |a| - (if w in a then 1 else 0) + (if keep then 1 else 0)
  {
    if w in a { assert a == (a - {w}) + {w}; } else { assert a - {w} == a; }
  }

  lemma BetweenAfter(ws: map<Worker, Pc>, w: Worker, pc: Pc)
    requires w in ws
    ensures Between(ws[w := pc]) == (Between(ws) - {w}) + if pc.Claimed? || pc.Ran? then {w} else {}
  {
    if pc.Claimed? || pc.Ran? {
      assert Between(ws[w := pc]) == (Between(ws) - {w}) + {w};
    } else {
      assert Between(ws[w := pc]) == (Between(ws) - {w}) + {};
    }
  }

  lemma BetweenUpdate(ws: map<Worker, Pc>, w: Worker, pc: Pc)
    requires w in ws
    ensures |Between(ws[w := pc])| ==
      |Between(ws)| - (if w in Between(ws) then 1 else 0) + (if pc.Claimed? || pc.Ran? then 1 else 0)
  {
    hide Between;
    BetweenAfter(ws, w, pc);
    Replace(Between(ws), w, pc.Claimed? || pc.Ran?);
  }

  lemma RunningAfter(ws: map<Worker, Pc>, w: Worker, pc: Pc)
    requires w in ws
    ensures Running(ws[w := pc]) == (Running(ws) - {w}) + if pc.AtJob? then {w} else {}
  {
    if pc.AtJob? {
      assert Running(ws[w := pc]) == (Running(ws) - {w}) + {w};
    } else {
      assert Running(ws[w := pc]) == (Running(ws) - {w}) + {};
    }
  }

  lemma RunningUpdate(ws: map<Worker, Pc>, w: Worker, pc: Pc)
    requires w in ws
    ensures |Running(ws[w := pc])| == |Running(ws)| - (if w in Running(ws) then 1 else 0) + (if pc.AtJob? then 1 else 0)
  {
    hide Running;
    RunningAfter(ws, w, pc);
    Replace(Running(ws), w, pc.AtJob?);
  }

  lemma IdlersAfter(ws: map<Worker, Pc>, w: Worker, pc: Pc)
    requires w in ws
    ensures Idlers(ws[w := pc]) == (Idlers(ws) - {w}) + if pc.Idle? then {w} else {}
  {
    if pc.Idle? {
      assert Idlers(ws[w := pc]) == (Idlers(ws) - {w}) + {w};
    } else {
      assert Idlers(ws[w := pc]) == (Idlers(ws) - {w}) + {};
    }
  }

  lemma IdlersUpdate(ws: map<Worker, Pc>, w: Worker, pc: Pc)
    requires w in ws
    ensures |Idlers(ws[w := pc])| == |Idlers(ws)| - (if w in Idlers(ws) then 1 else 0) + (if pc.Idle? then 1 else 0)
  {
    hide Idlers;
    IdlersAfter(ws, w, pc);
    Replace(Idlers(ws), w, pc.Idle?);
  }

  lemma EffortUpdate(ws: map<Worker, Pc>, w: Worker, pc: Pc)
    requires w in ws
    ensures Effort(ws[w := pc]) == Effort(ws) - Weight(ws[w]) + Weight(pc)
  {
    BetweenUpdate(ws, w, pc);
    RunningUpdate(ws, w, pc);
    IdlersUpdate(ws, w, pc);
  }

  lemma DecodesOne(s: State, w: Worker)
    requires Inv(s) && Enabled(s, Decode(w))
    ensures |Step(s, Decode(w)).decoded| == |s.decoded| + 1
  {
    var h := s.workers[w].ref.handler;
    hide LocalInv, OfHandler, BusyOn;
    WorkerMoves(s, w, s.workers[w], h);
    LocalDecode(View(s, h), h, w, s.workers[w]);
  }

  lemma OneLess(m: map<Handler, Job>, h: Handler)
    requires h in m
    ensures |m - {h}| == |m| - 1
  {
    assert (m - {h}).Keys == m.Keys - {h};
    assert |(m - {h}).Keys| == |m.Keys| - 1;
  }

  lemma AnnounceDoesWork(s: State, h: Handler, woken: Option<Worker>)
    requires Enabled(s, Announce(h, woken))
    ensures Work(Step(s, Announce(h, woken))) < Work(s)
  {
    hide Effort;
    OneLess(s.announcing, h);
    if woken.Some? { EffortUpdate(s.workers, woken.value, Idle); }
  }

  lemma InternalStepDoesWork(s: State, e: Event)
    requires Inv(s) && Enabled(s, e) && Internal(e)
    ensures Work(Step(s, e)) < Work(s)
  {
    hide Inv, Effort;
    match e
    case Announce(h, woken) => AnnounceDoesWork(s, h, woken);
    case Decode(w) =>
      DecodesOne(s, w);
      EffortUpdate(s.workers, w, Step(s, e).workers[w]);
    case Sleep(w) => EffortUpdate(s.workers, w, Step(s, e).workers[w]);
    case Pop(w) => EffortUpdate(s.workers, w, Step(s, e).workers[w]);
    case Enter(w) => EffortUpdate(s.workers, w, Step(s, e).workers[w]);
    case Advance(w) => EffortUpdate(s.workers, w, Step(s, e).workers[w]);
  }

  /** Once packets stop arriving, every schedule of the remaining threads is finite, and when none of
      them can move any more all jobs have been decoded. */
  lemma {:induction false} DrainsCompletely(s: State, es: seq<Event>)
    requires Inv(s) && s.workers != map[] && ValidRun(s, es) && forall e :: e in es ==> Internal(e)
    ensures |es| <= Work(s)
    ensures (forall e :: Internal(e) ==> !Enabled(Run(s, es), e)) ==>
      multiset(Run(s, es).decoded) == multiset(s.arrived)
    decreases |es|
  {
    if es == [] {
      WorkNonNegative(s);
      if forall e :: Internal(e) ==> !Enabled(s, e) { StuckMeansDone(s); }
    } else {
      StepInv(s, es[0]);
      InternalStepDoesWork(s, es[0]);
      assert es[0] in es;
      assert Step(s, es[0]).arrived == s.arrived && Step(s, es[0]).workers != map[];
      DrainsCompletely(Step(s, es[0]), es[1..]);
    }
  }

  // ----- the code itself: one method per critical section -----

  lemma HeadOfBusy(s: State, w: Worker)
    requires Inv(s) && w in s.workers && Busy(s.workers[w])
    ensures var pc := s.workers[w];
      && pc.ref.handler in s.asyncJobs && s.asyncJobs[pc.ref.handler] != [] && s.asyncJobs[pc.ref.handler][0] == pc.ref
      && (pc.AtJob? || pc.Ran? ==> pc.cursor < |s.asyncJobs[pc.ref.handler]|)
  {
    var h := s.workers[w].ref.handler;
    assert LocalInv(View(s, h), h);
    assert w in View(s, h).busy;
  }

  class Transcoder {
    var asyncJobs: map<Handler, seq<Job>>
    var announcing: map<Handler, Job>
    var transcodeJobs: seq<Job>
    var workers: map<Worker, Pc>
    var arrived: seq<Job>
    var decoded: seq<Job>

    function Snapshot(): State
      reads this
    {
      State(asyncJobs, announcing, transcodeJobs, workers, arrived, decoded)
    }

    constructor (ws: set<Worker>)
      ensures Snapshot() == Init(ws) && Inv(Snapshot())
    {
      asyncJobs, announcing, transcodeJobs := map[], map[], [];
      workers := map w | w in ws :: Idle;
      arrived, decoded := [], [];
      InitInv(ws);
    }

    /** __rtp_decode_async up to the queue push: append under the SSRC lock. */
    method AppendJob(h: Handler) returns (first: bool)
      requires Inv(Snapshot()) && Enabled(Snapshot(), Append(h))
      modifies this
      ensures Snapshot() == Step(old(Snapshot()), Append(h)) && Inv(Snapshot())
      ensures first <==> h in announcing
      ensures var j := Job(h, |old(arrived)|);
        && arrived == old(arrived) + [j]
        && h in asyncJobs && asyncJobs[h] == (if h in old(asyncJobs) then old(asyncJobs)[h] else []) + [j]
        && (first ==> announcing[h] == j && asyncJobs[h] == [j])
    {
      StepInv(Snapshot(), Append(h));
      hide Inv;
      var j := Job(h, |arrived|);
      arrived := arrived + [j];
      asyncJobs := asyncJobs[h := (if h in asyncJobs then asyncJobs[h] else []) + [j]];
      first := |asyncJobs[h]| == 1;
      if first {
        announcing := announcing[h := j];
      }
    }

    /** The nested section that hands the first job to the workers. */
    method AnnounceJob(h: Handler, woken: Option<Worker>)
      requires Inv(Snapshot()) && Enabled(Snapshot(), Announce(h, woken))
      modifies this
      ensures Snapshot() == Step(old(Snapshot()), Announce(h, woken)) && Inv(Snapshot())
      ensures transcodeJobs == old(transcodeJobs + [announcing[h]]) && h !in announcing
    {
      StepInv(Snapshot(), Announce(h, woken));
      hide Inv;
      transcodeJobs := transcodeJobs + [announcing[h]];
      announcing := announcing - {h};
      if woken.Some? {
        workers := workers[woken.value := Idle];
      }
    }

    /** codec_worker: take the next job off the queue, or wait on the condition variable. */
    method TakeJob(w: Worker) returns (taken: bool)
      requires Inv(Snapshot()) && w in workers && workers[w].Idle?
      modifies this
      ensures taken <==> old(transcodeJobs) != []
      ensures Snapshot() == Step(old(Snapshot()), if taken then Pop(w) else Sleep(w)) && Inv(Snapshot())
      ensures taken ==> old(transcodeJobs) == [workers[w].ref] + transcodeJobs
    {
      taken := transcodeJobs != [];
      StepInv(Snapshot(), if taken then Pop(w) else Sleep(w));
      hide Inv;
      if taken {
        workers := workers[w := Claimed(transcodeJobs[0])];
        transcodeJobs := transcodeJobs[1..];
      } else {
        workers := workers[w := Sleeping];
      }
    }

    /** The wait returns without a signal; the worker looks at the queue again. */
    method WakeUp(w: Worker)
      requires Inv(Snapshot()) && Enabled(Snapshot(), Wake(w))
      modifies this
      ensures Snapshot() == Step(old(Snapshot()), Wake(w)) && Inv(Snapshot())
    {
      StepInv(Snapshot(), Wake(w));
      hide Inv;
      workers := workers[w := Idle];
    }

    /** transcode_job_do: look at the head of the list. It is the job that was handed over. */
    method EnterList(w: Worker)
      requires Inv(Snapshot()) && Enabled(Snapshot(), Enter(w))
      modifies this
      ensures Snapshot() == Step(old(Snapshot()), Enter(w)) && Inv(Snapshot())
      ensures var ref := workers[w].ref;
        ref.handler in asyncJobs && asyncJobs[ref.handler] != [] && asyncJobs[ref.handler][0] == ref
    {
      StepInv(Snapshot(), Enter(w));
      HeadOfBusy(Snapshot(), w);
      hide Inv;
      workers := workers[w := AtJob(workers[w].ref, 0)];
    }

    /** transcode_job_do: run the job under the cursor. */
    method RunJob(w: Worker) returns (j: Job)
      requires Inv(Snapshot()) && Enabled(Snapshot(), Decode(w))
      modifies this
      ensures Snapshot() == Step(old(Snapshot()), Decode(w)) && Inv(Snapshot())
      ensures decoded == old(decoded) + [j]
      ensures var h, n := old(workers[w]).ref.handler, old(workers[w]).cursor;
        h in asyncJobs && n < |asyncJobs[h]| && j == asyncJobs[h][n]
    {
      StepInv(Snapshot(), Decode(w));
      HeadOfBusy(Snapshot(), w);
      hide Inv;
      var pc := workers[w];
      j := asyncJobs[pc.ref.handler][pc.cursor];
      decoded := decoded + [j];
      workers := workers[w := Ran(pc.ref, pc.cursor)];
    }

    /** transcode_job_do: retake the lock, move on, or take over the finished list for cleanup. */
    method NextJob(w: Worker) returns (done: bool)
      requires Inv(Snapshot()) && Enabled(Snapshot(), Advance(w))
      modifies this
      ensures Snapshot() == Step(old(Snapshot()), Advance(w)) && Inv(Snapshot())
      ensures done <==> workers[w].Idle?
    {
      StepInv(Snapshot(), Advance(w));
      HeadOfBusy(Snapshot(), w);
      hide Inv;
      var pc := workers[w];
      var next := pc.cursor + 1;
      done := next >= |asyncJobs[pc.ref.handler]|;
      if done {
        asyncJobs := asyncJobs[pc.ref.handler := []];
        workers := workers[w := Idle];
      } else {
        workers := workers[w := AtJob(pc.ref, next)];
      }
    }
  }
}
