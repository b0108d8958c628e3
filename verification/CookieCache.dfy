/** The two-generation reply cache that suppresses duplicate control commands. All operations run
    under one lock, so each is a step; any number of threads interleave. Every thread reads the time
    from a clock of its own, which may lag behind. Times in microseconds. */
module CookieCache {

  const LIFETIME := 30_000_000

  type Cookie = string
  type Thread = nat
  datatype Entry = Entry(reply: string, command: int, callid: string)

  /** A cookie table slot. The key and the entry are copies allocated in the given buffers. */
  datatype Slot = Slot(entry: Entry, keyBuffer: nat, entryBuffer: nat)

  /** One generation: its reply table and the buffer its copies are allocated from. */
  datatype Generation = Generation(cookies: map<Cookie, Slot>, buffer: nat)

  /** What a client thread is doing; a working thread holds the key of its in-use mark. */
  datatype Client = Ready | Waiting(cookie: Cookie) | Woken(cookie: Cookie) | Working(cookie: Cookie)

  /** now: the true time. lag: how far a thread's clock may be behind it. buffers counts the buffers
      ever initialised. latest records, for every cookie, the reply most recently inserted and not
      removed since, with the true time of that. */
  datatype State = State(
    current: Generation, older: Generation,
    inUse: map<Cookie, Thread>, olderInUse: map<Cookie, Thread>,
    swapTime: int, now: int, lag: nat, buffers: nat,
    clients: map<Thread, Client>,
    latest: map<Cookie, (Entry, int)>)

  datatype Outcome = Hit(entry: Entry) | Wait | Miss

  /** A lookup comes with the reading of its thread's clock. */
  datatype Event =
    | Tick(d: nat)
    | Lookup(t: Thread, c: Cookie, clock: int)
    | Resume(t: Thread)
    | Insert(t: Thread, e: Entry)
    | Remove(t: Thread)

  // ----- the operations -----

  /** __cookie_cache_check_swap. */
  function CheckSwap(s: State, clock: int): (r: State) {
    if clock - s.swapTime >= LIFETIME then
      s.(older := s.current,
         current := Generation(map[], s.buffers),
         buffers := s.buffers + 1,
         swapTime := clock)
    else s
  }

  /** The body of cookie_cache_lookup from the restart label to the return or the wait. */
  function Outcomes(s: State, c: Cookie): (o: Outcome) {
    if c in s.current.cookies then Hit(s.current.cookies[c].entry)
    else if c in s.older.cookies then Hit(s.older.cookies[c].entry)
    else if c in s.inUse || c in s.olderInUse then Wait
    else Miss
  }

  function Attempt(s: State, t: Thread, c: Cookie): (r: State) {
    match Outcomes(s, c)
    case Hit(_) => s.(clients := s.clients[t := Ready])
    case Wait => s.(clients := s.clients[t := Waiting(c)])
    case Miss => s.(clients := s.clients[t := Working(c)], inUse := s.inUse[c := t])
  }

  /** cond_broadcast. */
  function WakeAll(clients: map<Thread, Client>): (r: map<Thread, Client>) {
    map t | t in clients :: if clients[t].Waiting? then Woken(clients[t].cookie) else clients[t]
  }

  lemma NoneWaits(clients: map<Thread, Client>)
    ensures forall t :: t in WakeAll(clients) ==> !WakeAll(clients)[t].Waiting?
  {
  }

  function Store(s: State, t: Thread, c: Cookie, e: Entry): (r: State) {
    s.(inUse := s.inUse - {c}, olderInUse := s.olderInUse - {c},
       current := s.current.(cookies := s.current.cookies[c := Slot(e, s.current.buffer, s.current.buffer)]),
       older := s.older.(cookies := s.older.cookies - {c}),
       clients := WakeAll(s.clients[t := Ready]),
       latest := s.latest[c := (e, s.now)])
  }

  function Discard(s: State, t: Thread, c: Cookie): (r: State) {
    s.(inUse := s.inUse - {c}, olderInUse := s.olderInUse - {c},
       current := s.current.(cookies := s.current.cookies - {c}),
       older := s.older.(cookies := s.older.cookies - {c}),
       clients := WakeAll(s.clients[t := Ready]),
       latest := s.latest - {c})
  }

  /** Clients follow the discipline: only the thread that got a miss stores or discards, once. A
      waiting thread may also wake up on its own. */
  predicate Enabled(s: State, e: Event) {
    match e
    case Tick(_) => true
    case Lookup(t, _, clock) => t in s.clients && s.clients[t].Ready? && s.now - s.lag <= clock <= s.now
    case Resume(t) => t in s.clients && (s.clients[t].Woken? || s.clients[t].Waiting?)
    case Insert(t, _) => t in s.clients && s.clients[t].Working?
    case Remove(t) => t in s.clients && s.clients[t].Working?
  }

  function Step(s: State, e: Event): (r: State)
    requires Enabled(s, e)
  {
    match e
    case Tick(d) => s.(now := s.now + d)
    case Lookup(t, c, clock) => Attempt(CheckSwap(s, clock), t, c)
    case Resume(t) => Attempt(s, t, s.clients[t].cookie)
    case Insert(t, e) => Store(s, t, s.clients[t].cookie, e)
    case Remove(t) => Discard(s, t, s.clients[t].cookie)
  }

  /** What a lookup or a resumed lookup answers. */
  function Answer(s: State, e: Event): (o: Outcome)
    requires Enabled(s, e) && (e.Lookup? || e.Resume?)
  {
    match e
    case Lookup(_, c, clock) => Outcomes(CheckSwap(s, clock), c)
    case Resume(t) => Outcomes(s, s.clients[t].cookie)
  }

  // ----- invariants -----

  ghost predicate InBuffer(g: Generation) {
    forall c :: c in g.cookies ==> g.cookies[c].keyBuffer == g.cookies[c].entryBuffer == g.buffer
  }

  ghost predicate Separate(current: Generation, older: Generation, buffers: nat) {
    && InBuffer(current) && InBuffer(older)
    && older.buffer < buffers && current.buffer < buffers && older.buffer != current.buffer
  }

  /** Every key and entry of a table lives in that table's own buffer; the two buffers differ. */
  ghost predicate OwnBuffers(s: State) {
    Separate(s.current, s.older, s.buffers)
  }

  predicate Marked(inUse: map<Cookie, Thread>, t: Thread, k: Client) {
    && (k.Working? ==> k.cookie in inUse && inUse[k.cookie] == t)
    && (k.Waiting? ==> k.cookie in inUse)
  }

  /** The in-use marks are exactly the working threads, one per cookie, and a thread only sleeps on a
      cookie that is in use. */
  ghost predicate Marks(inUse: map<Cookie, Thread>, clients: map<Thread, Client>) {
    && (forall c :: c in inUse ==> inUse[c] in clients && clients[inUse[c]] == Working(c))
    && (forall t :: t in clients ==> Marked(inUse, t, clients[t]))
  }

  ghost predicate Exclusive(s: State) {
    s.olderInUse == map[] && Marks(s.inUse, s.clients)
  }

  ghost predicate LatestOnly(g: Generation, latest: map<Cookie, (Entry, int)>) {
    forall c :: c in g.cookies ==> c in latest && latest[c].0 == g.cookies[c].entry
  }

  /** The reply is still held, or was inserted a lifetime, less the lag, before the last swap. */
  predicate Held(current: Generation, older: Generation, swapTime: int, lag: nat, c: Cookie, inserted: int) {
    || c in current.cookies
    || (c in older.cookies && inserted - lag <= swapTime)
    || inserted + 30_000_000 - lag <= swapTime
  }

  ghost predicate Kept(current: Generation, older: Generation, swapTime: int, now: int, lag: nat,
                       latest: map<Cookie, (Entry, int)>) {
    && swapTime <= now
    && current.cookies.Keys !! older.cookies.Keys
    && LatestOnly(current, latest) && LatestOnly(older, latest)
    && forall c :: c in latest ==> latest[c].1 <= now && Held(current, older, swapTime, lag, c, latest[c].1)
  }

  /** The tables hold latest replies only, and hold each of them for its lifetime. */
  ghost predicate Retained(s: State) {
    Kept(s.current, s.older, s.swapTime, s.now, s.lag, s.latest)
  }

  ghost predicate Inv(s: State) {
    OwnBuffers(s) && Exclusive(s) && Retained(s)
  }

  lemma CheckSwapInv(s: State, clock: int)
    requires Inv(s) && s.now - s.lag <= clock <= s.now
    ensures Inv(CheckSwap(s, clock))
  {
  }

  /** A thread that is not working may take any state that its marks allow. */
  lemma ClientMoves(inUse: map<Cookie, Thread>, clients: map<Thread, Client>, t: Thread, k: Client)
    requires Marks(inUse, clients) && t in clients && !clients[t].Working? && !k.Working? && Marked(inUse, t, k)
    ensures Marks(inUse, clients[t := k])
  {
  }

  lemma ClientTakes(inUse: map<Cookie, Thread>, clients: map<Thread, Client>, t: Thread, c: Cookie)
    requires Marks(inUse, clients) && t in clients && !clients[t].Working? && c !in inUse
    ensures Marks(inUse[c := t], clients[t := Working(c)])
  {
    var inUse', clients' := inUse[c := t], clients[t := Working(c)];
    forall x | x in clients' ensures Marked(inUse', x, clients'[x]) {
      if x != t { assert Marked(inUse, x, clients[x]); }
    }
  }

  lemma AttemptInv(s: State, t: Thread, c: Cookie)
    requires Inv(s) && t in s.clients && !s.clients[t].Working?
    ensures Inv(Attempt(s, t, c))
  {
    hide Separate, Kept, Marks;
    match Outcomes(s, c)
    case Miss => ClientTakes(s.inUse, s.clients, t, c);
    case _ => ClientMoves(s.inUse, s.clients, t, Attempt(s, t, c).clients[t]);
  }

  lemma StoreInv(s: State, t: Thread, e: Entry)
    requires Inv(s) && t in s.clients && s.clients[t].Working?
    ensures Inv(Store(s, t, s.clients[t].cookie, e))
  {
  }

  lemma DiscardInv(s: State, t: Thread)
    requires Inv(s) && t in s.clients && s.clients[t].Working?
    ensures Inv(Discard(s, t, s.clients[t].cookie))
  {
  }

  lemma StepInv(s: State, e: Event)
    requires Inv(s) && Enabled(s, e)
    ensures Inv(Step(s, e))
  {
    match e
    case Tick(_) =>
    case Lookup(t, c, clock) => CheckSwapInv(s, clock); AttemptInv(CheckSwap(s, clock), t, c);
    case Resume(t) => AttemptInv(s, t, s.clients[t].cookie);
    case Insert(t, e) => StoreInv(s, t, e);
    case Remove(t) => DiscardInv(s, t);
  }

  // ----- whole runs -----

  /** clock is what the thread that sets up the cache reads. */
  function Init(now: int, clock: int, lag: nat, threads: set<Thread>): (s: State) {
    State(Generation(map[], 0), Generation(map[], 1), map[], map[], clock, now, lag, 2,
          map t | t in threads :: Ready, map[])
  }

  predicate ValidRun(s: State, es: seq<Event>)
    decreases |es|
  {
    es == [] || (Enabled(s, es[0]) && ValidRun(Step(s, es[0]), es[1..]))
  }

  function Run(s: State, es: seq<Event>): (r: State)
    requires ValidRun(s, es)
    decreases |es|
  {
    if es == [] then s else Run(Step(s, es[0]), es[1..])
  }

  lemma {:induction false} RunInv(s: State, es: seq<Event>)
    requires Inv(s) && ValidRun(s, es)
    ensures Inv(Run(s, es))
    decreases |es|
  {
    hide Inv, Step, Enabled;
    if es != [] {
      StepInv(s, es[0]);
      RunInv(Step(s, es[0]), es[1..]);
    }
  }

  /** In every run, no two threads work on the same cookie, every sleeping thread waits for one that
      works on its cookie, and no table refers to a buffer other than its own. */
  lemma OneWorkerPerCookie(s0: State, es: seq<Event>)
    requires Inv(s0) && ValidRun(s0, es)
    ensures var clients := Run(s0, es).clients;
      forall t, u :: t in clients && u in clients && clients[t].Working? && clients[t] == clients[u] ==> t == u
    ensures var clients := Run(s0, es).clients;
      forall t :: t in clients && clients[t].Waiting? ==>
        exists w :: w in clients && clients[w] == Working(clients[t].cookie)
    ensures OwnBuffers(Run(s0, es))
  {
    RunInv(s0, es);
    var s := Run(s0, es);
    forall t | t in s.clients && s.clients[t].Waiting?
      ensures exists w :: w in s.clients && s.clients[w] == Working(s.clients[t].cookie)
    {
      var w := s.inUse[s.clients[t].cookie];
      assert w in s.clients && s.clients[w] == Working(s.clients[t].cookie);
    }
  }

  lemma InitInv(now: int, clock: int, lag: nat, threads: set<Thread>)
    requires clock <= now
    ensures Inv(Init(now, clock, lag, threads))
  {
  }

  // ----- how long a reply is held, exactly -----

  predicate SwapsAt(swapTime: int, e: Event) {
    e.Lookup? && e.clock - swapTime >= 30_000_000
  }

  /** How many of the lookups swap the generations; only their clock readings matter. */
  function Swaps(swapTime: int, es: seq<Event>): (n: nat)
    decreases |es|
  {
    if es == [] then 0
    else if SwapsAt(swapTime, es[0]) then 1 + Swaps(es[0].clock, es[1..])
    else Swaps(swapTime, es[1..])
  }

  /** The step stores or discards nothing under the cookie. */
  predicate Leaves(s: State, e: Event, c: Cookie)
    requires Enabled(s, e)
  {
    e.Insert? || e.Remove? ==> s.clients[e.t].cookie != c
  }

  predicate Untouched(s: State, es: seq<Event>, c: Cookie)
    requires ValidRun(s, es)
    decreases |es|
  {
    es == [] || (Leaves(s, es[0], c) && Untouched(Step(s, es[0]), es[1..], c))
  }

  /** The reply is in the current table, in the old one, or in neither. */
  predicate HeldAt(s: State, c: Cookie, x: Entry, age: nat) {
    && (c in s.current.cookies <==> age == 0) && (c in s.older.cookies <==> age == 1)
    && (age == 0 ==> s.current.cookies[c].entry == x) && (age == 1 ==> s.older.cookies[c].entry == x)
  }

  lemma StepAges(s: State, e: Event, c: Cookie, x: Entry, age: nat)
    requires Enabled(s, e) && Leaves(s, e, c) && HeldAt(s, c, x, age)
    ensures HeldAt(Step(s, e), c, x, if SwapsAt(s.swapTime, e) then age + 1 else age)
    ensures Step(s, e).swapTime == if SwapsAt(s.swapTime, e) then e.clock else s.swapTime
  {
    hide WakeAll;
  }

  /** Over any run that leaves the cookie alone, the reply ages by one generation per swap. */
  lemma {:induction false} RunAges(s: State, es: seq<Event>, c: Cookie, x: Entry, age: nat)
    requires ValidRun(s, es) && Untouched(s, es, c) && HeldAt(s, c, x, age)
    ensures HeldAt(Run(s, es), c, x, age + Swaps(s.swapTime, es))
    decreases |es|
  {
    hide Step, Enabled, Leaves, HeldAt;
    if es != [] {
      StepAges(s, es[0], c, x, age);
      RunAges(Step(s, es[0]), es[1..], c, x, if SwapsAt(s.swapTime, es[0]) then age + 1 else age);
    }
  }

  lemma {:induction false} OneStepMore(s: State, es: seq<Event>, e: Event, c: Cookie)
    requires ValidRun(s, es) && Enabled(Run(s, es), e) && Untouched(s, es, c) && Leaves(Run(s, es), e, c)
    ensures ValidRun(s, es + [e]) && Run(s, es + [e]) == Step(Run(s, es), e) && Untouched(s, es + [e], c)
    decreases |es|
  {
    hide Step, Enabled, Leaves;
    if es == [] {
      assert [e] == es + [e] && [e][1..] == [];
    } else {
      OneStepMore(Step(s, es[0]), es[1..], e, c);
      assert (es + [e])[0] == es[0] && (es + [e])[1..] == es[1..] + [e];
    }
  }

  lemma StoredIsCurrent(s: State, t: Thread, x: Entry)
    requires Enabled(s, Insert(t, x))
    ensures HeldAt(Step(s, Insert(t, x)), s.clients[t].cookie, x, 0) && Step(s, Insert(t, x)).swapTime == s.swapTime
  {
    hide WakeAll;
  }

  lemma AnswerByAge(s: State, e: Event, c: Cookie, x: Entry, age: nat)
    requires Enabled(s, e) && (e.Lookup? || e.Resume?) && c == (if e.Lookup? then e.c else s.clients[e.t].cookie)
    requires HeldAt(Step(s, e), c, x, age)
    ensures if age <= 1 then Answer(s, e) == Hit(x) else !Answer(s, e).Hit?
  {
  }

  /** After a reply is stored, and as long as it is neither replaced nor discarded, a lookup answers with it
      if and only if at most one of the lookups since, this one included, swapped the generations; it never
      answers with anything else. */
  lemma ReplyReturnedExactly(s: State, t: Thread, x: Entry, es: seq<Event>, e: Event)
    requires Enabled(s, Insert(t, x)) && ValidRun(Step(s, Insert(t, x)), es)
    requires Untouched(Step(s, Insert(t, x)), es, s.clients[t].cookie) && (e.Lookup? || e.Resume?)
    requires var r, c := Run(Step(s, Insert(t, x)), es), s.clients[t].cookie;
      Enabled(r, e) && c == (if e.Lookup? then e.c else r.clients[e.t].cookie)
    ensures var r := Run(Step(s, Insert(t, x)), es);
      && (Answer(r, e) == Hit(x) <==> Swaps(s.swapTime, es + [e]) <= 1)
      && (Answer(r, e).Hit? ==> Answer(r, e) == Hit(x))
  {
    var s1, c := Step(s, Insert(t, x)), s.clients[t].cookie;
    StoredIsCurrent(s, t, x);
    hide Step, HeldAt, Swaps, Answer;
    OneStepMore(s1, es, e, c);
    RunAges(s1, es + [e], c, x, 0);
    AnswerByAge(Run(s1, es), e, c, x, Swaps(s.swapTime, es + [e]));
  }

  lemma DiscardedIsNowhere(s: State, t: Thread, x: Entry)
    requires Enabled(s, Remove(t))
    ensures HeldAt(Step(s, Remove(t)), s.clients[t].cookie, x, 2)
  {
    hide WakeAll;
  }

  /** After a cookie is removed, and as long as no reply is stored for it, no lookup answers with a reply. */
  lemma RemovedIsNotReturned(s: State, t: Thread, es: seq<Event>, e: Event)
    requires Enabled(s, Remove(t)) && ValidRun(Step(s, Remove(t)), es)
    requires Untouched(Step(s, Remove(t)), es, s.clients[t].cookie) && (e.Lookup? || e.Resume?)
    requires var r, c := Run(Step(s, Remove(t)), es), s.clients[t].cookie;
      Enabled(r, e) && c == (if e.Lookup? then e.c else r.clients[e.t].cookie)
    ensures !Answer(Run(Step(s, Remove(t)), es), e).Hit?
  {
    var s1, c, x := Step(s, Remove(t)), s.clients[t].cookie, Entry("", 0, "");
    DiscardedIsNowhere(s, t, x);
    hide Step, HeldAt, Swaps, Answer;
    OneStepMore(s1, es, e, c);
    RunAges(s1, es + [e], c, x, 2);
    AnswerByAge(Run(s1, es), e, c, x, 2 + Swaps(s1.swapTime, es + [e]));
  }

  /** In every run, a lookup of a cookie answers with the reply most recently inserted for it whenever
      that has not been removed and the insertion is less than 30 seconds old, less the lag of the
      threads' clocks; and it never answers with anything else than the most recent reply. */
  lemma ReplyIsReturned(s0: State, es: seq<Event>, e: Event)
    requires Inv(s0) && ValidRun(s0, es) && (e.Lookup? || e.Resume?) && Enabled(Run(s0, es), e)
    ensures var s := Run(s0, es);
      var c := if e.Lookup? then e.c else s.clients[e.t].cookie;
      && (c in s.latest && s.now < s.latest[c].1 + 30_000_000 - s.lag ==> Answer(s, e) == Hit(s.latest[c].0))
      && (Answer(s, e).Hit? ==> c in s.latest && Answer(s, e).entry == s.latest[c].0)
  {
    RunInv(s0, es);
    if e.Lookup? { CheckSwapInv(Run(s0, es), e.clock); }
  }

  lemma RunOne(s: State, e: Event, es: seq<Event>)
    requires Enabled(s, e) && ValidRun(Step(s, e), es)
    ensures ValidRun(s, [e] + es) && Run(s, [e] + es) == Run(Step(s, e), es)
  {
    assert ([e] + es)[1..] == es;
  }

  /** A cache in which a reply was stored at 31 seconds; the clocks are at most 1.5 seconds late. */
  function OneReply(a: Cookie, e: Entry): (s: State) {
    State(Generation(map[a := Slot(e, 0, 0)], 0), Generation(map[], 1), map[], map[], 0, 31_000_000, 1_500_000, 2,
          map[1 := Ready], map[a := (e, 31_000_000)])
  }

  lemma OneReplyReached(a: Cookie, e: Entry)
    ensures var s0 := Init(0, 0, 1_500_000, {1});
      var es := [Tick(31_000_000), Lookup(1, a, 29_500_000), Insert(1, e)];
      Inv(s0) && ValidRun(s0, es) && Run(s0, es) == OneReply(a, e)
  {
    var s0 := Init(0, 0, 1_500_000, {1});
    InitInv(0, 0, 1_500_000, {1});
    hide Inv, Run, ValidRun;
    var s1 := Step(s0, Tick(31_000_000));
    assert s1.clients == map[1 := Ready];
    var s2 := Step(s1, Lookup(1, a, 29_500_000));
    assert s2 == s1.(clients := map[1 := Working(a)], inUse := map[a := 1]);
    assert Step(s2, Insert(1, e)) == OneReply(a, e) by {
      assert WakeAll(s2.clients[1 := Ready]) == map[1 := Ready];
      assert s2.inUse - {a} == map[] && s2.olderInUse - {a} == map[];
    }
    RunOne(s2, Insert(1, e), []);
    RunOne(s1, Lookup(1, a, 29_500_000), [Insert(1, e)]);
    RunOne(s0, Tick(31_000_000), [Lookup(1, a, 29_500_000), Insert(1, e)]);
    hide Run, ValidRun;
    assert [Tick(31_000_000)] + [Lookup(1, a, 29_500_000), Insert(1, e)]
        == [Tick(31_000_000), Lookup(1, a, 29_500_000), Insert(1, e)];
    assert [Lookup(1, a, 29_500_000)] + [Insert(1, e)] == [Lookup(1, a, 29_500_000), Insert(1, e)];
    assert [Insert(1, e)] + [] == [Insert(1, e)];
  }

  /** The lag does cost: after a swap by a thread whose clock says 30 seconds, the reply is gone at 60,
      although it is only 29 seconds old. */
  lemma LagShortensLifetime(a: Cookie, b: Cookie, e: Entry)
    requires a != b
    ensures var s, es := OneReply(a, e), [Lookup(1, b, 30_000_000), Remove(1), Tick(29_000_000)];
      && ValidRun(s, es)
      && a in Run(s, es).latest && Run(s, es).now == Run(s, es).latest[a].1 + 29_000_000
      && Enabled(Run(s, es), Lookup(1, a, 60_000_000)) && Answer(Run(s, es), Lookup(1, a, 60_000_000)) == Miss
  {
    var s := OneReply(a, e);
    var s1 := Step(s, Lookup(1, b, 30_000_000));
    assert s1 == s.(older := s.current, current := Generation(map[], 2), buffers := 3, swapTime := 30_000_000,
                    clients := map[1 := Working(b)], inUse := map[b := 1]);
    var s2 := Step(s1, Remove(1));
    assert s2 == s1.(clients := map[1 := Ready], inUse := map[]) by {
      assert WakeAll(s1.clients[1 := Ready]) == map[1 := Ready];
      assert s1.older.cookies - {b} == s1.older.cookies && s1.latest - {b} == s1.latest;
      assert s1.inUse - {b} == map[] && s1.olderInUse - {b} == map[] && s1.current.cookies - {b} == map[];
    }
    RunOne(s2, Tick(29_000_000), []);
    RunOne(s1, Remove(1), [Tick(29_000_000)]);
    RunOne(s, Lookup(1, b, 30_000_000), [Remove(1), Tick(29_000_000)]);
    hide Run, ValidRun;
    assert [Lookup(1, b, 30_000_000)] + [Remove(1), Tick(29_000_000)]
        == [Lookup(1, b, 30_000_000), Remove(1), Tick(29_000_000)];
    assert [Remove(1)] + [Tick(29_000_000)] == [Remove(1), Tick(29_000_000)];
    assert [Tick(29_000_000)] + [] == [Tick(29_000_000)];
  }

  // ----- the code itself -----

  class Cache {
    var currentCookies: map<Cookie, Slot>
    var oldCookies: map<Cookie, Slot>
    var currentBuffer: nat
    var oldBuffer: nat
    var currentInUse: map<Cookie, Thread>
    var oldInUse: map<Cookie, Thread>
    var swapTime: int
    var now: int
    var lag: nat
    var buffers: nat
    var clients: map<Thread, Client>
    var latest: map<Cookie, (Entry, int)>

    function Snapshot(): State
      reads this
    {
      State(Generation(currentCookies, currentBuffer), Generation(oldCookies, oldBuffer),
            currentInUse, oldInUse, swapTime, now, lag, buffers, clients, latest)
    }

    constructor (now: int, clock: int, lag: nat, threads: set<Thread>)
      ensures Snapshot() == Init(now, clock, lag, threads)
      ensures clock <= now ==> Inv(Snapshot())
    {
      currentCookies, oldCookies, currentBuffer, oldBuffer := map[], map[], 0, 1;
      currentInUse, oldInUse := map[], map[];
      swapTime, this.now, this.lag, buffers := clock, now, lag, 2;
      clients := map t | t in threads :: Ready;
      latest := map[];
    }

    method Swap(clock: int)
      modifies this
      ensures Snapshot() == CheckSwap(old(Snapshot()), clock)
      ensures clock - old(swapTime) >= 30_000_000 ==>
        oldCookies == old(currentCookies) && currentCookies == map[] && swapTime == clock
      ensures clock - old(swapTime) < 30_000_000 ==> Snapshot() == old(Snapshot())
    {
      if clock - swapTime >= LIFETIME {
        oldCookies := map[];
        oldCookies, currentCookies := currentCookies, oldCookies;
        oldBuffer := currentBuffer;
        currentBuffer := buffers;
        buffers := buffers + 1;
        swapTime := clock;
      }
    }

    /** cookie_cache_lookup from the restart label on, for thread t. */
    method Search(t: Thread, c: Cookie) returns (o: Outcome)
      requires Inv(Snapshot()) && t in clients && !clients[t].Working?
      modifies this
      ensures o == Outcomes(old(Snapshot()), c)
      ensures o.Hit? <==> c in old(currentCookies) || c in old(oldCookies)
      ensures t in clients && (o.Hit? ==> clients[t] == Ready) && (o.Wait? ==> clients[t] == Waiting(c))
      ensures o.Miss? ==> clients[t] == Working(c) && c in currentInUse && currentInUse[c] == t
      ensures o.Wait? <==> !o.Hit? && (c in old(currentInUse) || c in old(oldInUse))
      ensures Snapshot() == Attempt(old(Snapshot()), t, c) && Inv(Snapshot())
    {
      AttemptInv(Snapshot(), t, c);
      hide Inv;
      if c in currentCookies {
        o := Hit(currentCookies[c].entry);
        clients := clients[t := Ready];
        return;
      }
      if c in oldCookies {
        o := Hit(oldCookies[c].entry);
        clients := clients[t := Ready];
        return;
      }
      if c in currentInUse || c in oldInUse {
        o := Wait;
        clients := clients[t := Waiting(c)];
        return;
      }
      currentInUse := currentInUse[c := t];
      clients := clients[t := Working(c)];
      o := Miss;
    }

    method Find(t: Thread, c: Cookie, clock: int) returns (o: Outcome)
      requires Inv(Snapshot()) && Enabled(Snapshot(), Lookup(t, c, clock))
      modifies this
      ensures Snapshot() == Step(old(Snapshot()), Lookup(t, c, clock)) && Inv(Snapshot())
      ensures o == Answer(old(Snapshot()), Lookup(t, c, clock))
    {
      CheckSwapInv(Snapshot(), clock);
      hide Inv;
      Swap(clock);
      o := Search(t, c);
    }

    /** cookie_cache_insert, for any caller. From the thread that got the miss it keeps the invariant. */
    method InsertReply(t: Thread, c: Cookie, e: Entry)
      requires t in clients
      modifies this
      ensures Snapshot() == Store(old(Snapshot()), t, c, e)
      ensures c in currentCookies && currentCookies[c].entry == e && c !in oldCookies
      ensures c !in currentInUse && c !in oldInUse && forall k :: k in clients ==> !clients[k].Waiting?
      ensures old(Inv(Snapshot()) && clients[t] == Working(c)) ==> Inv(Snapshot())
    {
      hide Inv, WakeAll;
      NoneWaits(clients[t := Ready]);
      if Inv(Snapshot()) && clients[t] == Working(c) { StoreInv(Snapshot(), t, e); }
      currentInUse := currentInUse - {c};
      oldInUse := oldInUse - {c};
      currentCookies := currentCookies[c := Slot(e, currentBuffer, currentBuffer)];
      oldCookies := oldCookies - {c};
      clients := WakeAll(clients[t := Ready]);
      latest := latest[c := (e, now)];
    }

    /** cookie_cache_remove, likewise. */
    method RemoveCookie(t: Thread, c: Cookie)
      requires t in clients
      modifies this
      ensures Snapshot() == Discard(old(Snapshot()), t, c)
      ensures c !in currentCookies && c !in oldCookies
      ensures c !in currentInUse && c !in oldInUse && forall k :: k in clients ==> !clients[k].Waiting?
      ensures old(Inv(Snapshot()) && clients[t] == Working(c)) ==> Inv(Snapshot())
    {
      hide Inv, WakeAll;
      NoneWaits(clients[t := Ready]);
      if Inv(Snapshot()) && clients[t] == Working(c) { DiscardInv(Snapshot(), t); }
      currentInUse := currentInUse - {c};
      oldInUse := oldInUse - {c};
      currentCookies := currentCookies - {c};
      oldCookies := oldCookies - {c};
      clients := WakeAll(clients[t := Ready]);
      latest := latest - {c};
    }
  }
}
