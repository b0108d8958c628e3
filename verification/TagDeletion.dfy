/** Deletion of call branches: monologues are associated with each other by tag; deleting one cascades
    to those left without any other association, at once or after a delay, and a periodic sweep
    destroys what has become due. Times are in microseconds. */
module TagDeletion {

  type Monologue = nat

  /** associated: the tag association tables. deletedAt: deleted_us of every monologue, 0 if none is
      pending. nextSweep: ml_deleted_us of the call. destroyed: every monologue destroyed so far. */
  datatype Call = Call(
    monologues: seq<Monologue>,
    associated: map<Monologue, set<Monologue>>,
    deletedAt: map<Monologue, int>,
    nextSweep: int,
    now: int,
    destroyed: set<Monologue>)

  // ----- what the operations do -----

  /** No association with a remains. */
  function Unlink(assoc: map<Monologue, set<Monologue>>, a: Monologue): (r: map<Monologue, set<Monologue>>) {
    map x | x in assoc :: if x == a then {} else assoc[x] - {a}
  }

  function Destroy(c: Call, a: Monologue): (r: Call)
    requires a in c.deletedAt
  {
    c.(associated := Unlink(c.associated, a), deletedAt := c.deletedAt[a := 0], destroyed := c.destroyed + {a})
  }

  function Associate(c: Call, a: Monologue, b: Monologue): (r: Call)
    requires a in c.associated && b in c.associated
  {
    c.(associated := c.associated[a := c.associated[a] + {b}][b := c.associated[b] + {a}],
       deletedAt := c.deletedAt[a := 0][b := 0])
  }

  /** What a deletion reaches: the monologue itself and those associated with nothing else. */
  function Cascade(c: Call, a: Monologue): (r: set<Monologue>)
    requires a in c.associated
  {
    {a} + set b | b in c.associated[a] && b in c.associated && c.associated[b] == {a}
  }

  function SetAll(m: map<Monologue, int>, xs: set<Monologue>, t: int): (r: map<Monologue, int>) {
    map x | x in m :: if x in xs then t else m[x]
  }

  function Delete(c: Call, a: Monologue, delay: int): (r: Call)
    requires a in c.associated
  {
    var reach, due := Cascade(c, a), c.now + delay;
    if delay > 0 then
      c.(associated := Unlink(c.associated, a),
         deletedAt := SetAll(c.deletedAt, reach, due),
         nextSweep := if c.nextSweep == 0 || c.nextSweep > due then due else c.nextSweep)
    else
      c.(associated := Unlink(c.associated, a),
         deletedAt := SetAll(c.deletedAt, reach, 0),
         destroyed := c.destroyed + reach)
  }

  /** What is due for destruction now. */
  function Due(c: Call): (r: set<Monologue>) {
    set m | m in c.deletedAt && c.deletedAt[m] != 0 && c.deletedAt[m] <= c.now
  }

  // ----- invariants -----

  /** Associations are between monologues of the call, symmetric and irreflexive. */
  ghost predicate Symmetric(assoc: map<Monologue, set<Monologue>>) {
    && (forall a, b :: a in assoc && b in assoc[a] ==> b in assoc && a in assoc[b])
    && (forall a :: a in assoc ==> a !in assoc[a])
  }

  /** The sweep time is a nonzero lower bound on all pending deletions. */
  ghost predicate SweepInTime(c: Call) {
    forall m :: m in c.deletedAt && c.deletedAt[m] != 0 ==> c.nextSweep != 0 && c.nextSweep <= c.deletedAt[m]
  }

  ghost predicate Inv(c: Call) {
    && (forall m :: m in c.monologues <==> m in c.associated)
    && c.associated.Keys == c.deletedAt.Keys
    && Symmetric(c.associated) && SweepInTime(c) && c.now > 0
  }

  lemma UnlinkSymmetric(assoc: map<Monologue, set<Monologue>>, a: Monologue)
    requires Symmetric(assoc)
    ensures Symmetric(Unlink(assoc, a))
  {
  }

  lemma DestroyInv(c: Call, a: Monologue)
    requires Inv(c) && a in c.associated
    ensures Inv(Destroy(c, a))
  {
    UnlinkSymmetric(c.associated, a);
    hide Symmetric;
  }

  lemma DeleteInv(c: Call, a: Monologue, delay: int)
    requires Inv(c) && a in c.associated
    ensures Inv(Delete(c, a, delay))
  {
    UnlinkSymmetric(c.associated, a);
    hide Symmetric;
  }

  /** What a deletion does to each branch: a deletion later on is pending for a and for those associated
      with a alone, a deletion at once destroys exactly these, and none keeps an association with a. */
  lemma DeleteMeaning(c: Call, a: Monologue, delay: int, x: Monologue)
    requires Inv(c) && a in c.associated && x in c.associated
    ensures var r := Delete(c, a, delay);
      var reached := x == a || (x in c.associated[a] && c.associated[x] == {a});
      && x in r.associated && x in r.deletedAt
      && r.associated[x] == (if x == a then {} else c.associated[x] - {a})
      && (!reached ==> r.deletedAt[x] == c.deletedAt[x])
      && (reached ==> r.deletedAt[x] == if delay > 0 then c.now + delay else 0)
      && (x in r.destroyed <==> x in c.destroyed || (reached && delay <= 0))
      && (delay > 0 ==> 0 < r.nextSweep <= c.now + delay || r.nextSweep == c.nextSweep < 0)
  {
    assert x in c.deletedAt;
  }

  /** Destroying a branch at once cancels what is pending for it and cuts it off from all others. */
  lemma DestroyMeaning(c: Call, a: Monologue, x: Monologue)
    requires Inv(c) && a in c.associated && x in c.associated
    ensures var r := Destroy(c, a);
      && x in r.associated && x in r.deletedAt
      && r.associated[x] == (if x == a then {} else c.associated[x] - {a})
      && r.deletedAt[x] == (if x == a then 0 else c.deletedAt[x])
      && (x in r.destroyed <==> x in c.destroyed || x == a)
      && r.nextSweep == c.nextSweep
  {
    assert x in c.deletedAt;
  }

  lemma AssociateInv(c: Call, a: Monologue, b: Monologue)
    requires Inv(c) && a in c.associated && b in c.associated && a != b
    ensures Inv(Associate(c, a, b))
  {
  }

  /** Associating keeps the invariant if and only if the two monologues differ. */
  lemma AssociateInvExactly(c: Call, a: Monologue, b: Monologue)
    requires Inv(c) && a in c.associated && b in c.associated
    ensures Inv(Associate(c, a, b)) <==> a != b
  {
    if a == b {
      assert a in Associate(c, a, b).associated[a];
    } else {
      AssociateInv(c, a, b);
      hide Inv;
    }
  }

  // ----- the sweep, one monologue at a time -----

  function Earliest(c: Call, i: nat): (t: int)
    requires i <= |c.monologues|
  {
    if i == 0 then 0
    else
      var t, m := Earliest(c, i - 1), c.monologues[i - 1];
      if m in c.deletedAt && c.deletedAt[m] > c.now && (t == 0 || c.deletedAt[m] < t) then c.deletedAt[m] else t
  }

  function DestroyDue(c: Call, i: nat): (r: Call)
    requires i <= |c.monologues|
    ensures r.monologues == c.monologues && r.now == c.now && r.nextSweep == c.nextSweep
  {
    if i == 0 then c
    else
      var c', m := DestroyDue(c, i - 1), c.monologues[i - 1];
      if m in c'.deletedAt && c'.deletedAt[m] != 0 && c'.deletedAt[m] <= c'.now then Destroy(c', m) else c'
  }

  /** call_timer_delete_monologues. */
  function Sweep(c: Call): (r: Call) {
    DestroyDue(c, |c.monologues|).(nextSweep := Earliest(c, |c.monologues|))
  }

  /** The check in call_timer_iterator. */
  function Timer(c: Call): (r: Call) {
    if c.nextSweep != 0 && c.now >= c.nextSweep then Sweep(c) else c
  }

  function FirstOf(ms: seq<Monologue>, i: nat): (r: set<Monologue>)
    requires i <= |ms|
  {
    set k | 0 <= k < i :: ms[k]
  }

  /** All of xs destroyed, in whatever order. */
  function DestroyAll(c: Call, xs: set<Monologue>): (r: Call) {
    c.(associated := map x | x in c.associated :: if x in xs then {} else c.associated[x] - xs,
       deletedAt := SetAll(c.deletedAt, xs, 0),
       destroyed := c.destroyed + xs)
  }

  lemma DestroyOneMore(c: Call, xs: set<Monologue>, m: Monologue)
    requires m in c.deletedAt
    ensures Destroy(DestroyAll(c, xs), m) == DestroyAll(c, xs + {m})
  {
    var l, r := Destroy(DestroyAll(c, xs), m), DestroyAll(c, xs + {m});
    forall x | x in c.associated ensures l.associated[x] == r.associated[x] {
      assert c.associated[x] - xs - {m} == c.associated[x] - (xs + {m});
    }
    assert l.associated == r.associated;
    assert l.deletedAt == r.deletedAt;
    assert l.destroyed == r.destroyed;
  }

  lemma Listed(c: Call, m: Monologue)
    requires Inv(c) && m in c.monologues
    ensures m in c.deletedAt && m in c.associated
  {
  }

  lemma StillDue(c: Call, xs: set<Monologue>, m: Monologue)
    requires m in c.deletedAt
    ensures var r := DestroyAll(c, xs);
      m in r.deletedAt && (r.deletedAt[m] != 0 && r.deletedAt[m] <= r.now <==> m in Due(c) && m !in xs)
    ensures DestroyAll(c, xs).associated.Keys == c.associated.Keys
  {
  }

  lemma DestroyNone(c: Call)
    ensures DestroyAll(c, {}) == c && FirstOf(c.monologues, 0) == {}
  {
    forall x | x in c.associated ensures c.associated[x] - {} == c.associated[x] {}
    assert DestroyAll(c, {}).associated == c.associated;
    assert DestroyAll(c, {}).deletedAt == c.deletedAt;
  }

  lemma FirstOfNext(ms: seq<Monologue>, i: nat)
    requires i < |ms|
    ensures FirstOf(ms, i + 1) == FirstOf(ms, i) + {ms[i]}
  {
  }

  lemma {:induction false} DestroyDueSpec(c: Call, i: nat)
    requires Inv(c) && i <= |c.monologues|
    ensures DestroyDue(c, i) == DestroyAll(c, Due(c) * FirstOf(c.monologues, i))
    ensures Inv(DestroyDue(c, i))
  {
    hide Inv, FirstOf, DestroyAll, Destroy, Due;
    if i == 0 {
      DestroyNone(c);
      assert Due(c) * FirstOf(c.monologues, 0) == {};
    } else {
      var m, hit := c.monologues[i - 1], Due(c) * FirstOf(c.monologues, i - 1);
      Listed(c, m);
      DestroyDueSpec(c, i - 1);
      FirstOfNext(c.monologues, i - 1);
      StillDue(c, hit, m);
      if m in Due(c) && m !in hit {
        DestroyOneMore(c, hit, m);
        DestroyInv(DestroyDue(c, i - 1), m);
        assert Due(c) * FirstOf(c.monologues, i) == hit + {m};
      } else {
        assert Due(c) * FirstOf(c.monologues, i) == hit;
      }
    }
  }

  lemma {:induction false} EarliestSpec(c: Call, i: nat)
    requires Inv(c) && i <= |c.monologues|
    ensures forall k :: 0 <= k < i && c.deletedAt[c.monologues[k]] > c.now ==>
      Earliest(c, i) != 0 && Earliest(c, i) <= c.deletedAt[c.monologues[k]]
    ensures Earliest(c, i) == 0 || Earliest(c, i) > c.now
    ensures Earliest(c, i) == 0 || exists k :: 0 <= k < i && Earliest(c, i) == c.deletedAt[c.monologues[k]]
  {
    if i > 0 { EarliestSpec(c, i - 1); }
  }

  /** A timer run destroys exactly what is due, whether or not it sweeps, and leaves as its next sweep
      time a bound that again misses nothing. */
  lemma TimerDestroysExactlyDue(c: Call)
    requires Inv(c)
    ensures var r := Timer(c);
      && Inv(r)
      && r.destroyed == c.destroyed + Due(c)
      && r.deletedAt == SetAll(c.deletedAt, Due(c), 0)
      && Due(r) == {}
  {
    if c.nextSweep != 0 && c.now >= c.nextSweep {
      var n := |c.monologues|;
      DestroyDueSpec(c, n);
      EarliestSpec(c, n);
      assert Due(c) * FirstOf(c.monologues, n) == Due(c) by {
        forall m | m in Due(c) ensures m in FirstOf(c.monologues, n) { assert m in c.monologues; }
      }
      var r := Sweep(c);
      forall m | m in r.deletedAt && r.deletedAt[m] != 0
        ensures r.nextSweep != 0 && r.nextSweep <= r.deletedAt[m]
      {
        assert m in c.monologues;
      }
    } else {
      assert Due(c) == {};
      assert SetAll(c.deletedAt, {}, 0) == c.deletedAt;
    }
  }

  /** Before the sweep time nothing happens; a sweep leaves as sweep time the earliest deletion that is still
      pending, if any. */
  lemma SweepTimeIsEarliest(c: Call)
    requires Inv(c)
    ensures var r := Timer(c);
      && (c.nextSweep == 0 || c.now < c.nextSweep ==> r == c)
      && (c.nextSweep != 0 && c.now >= c.nextSweep && r.nextSweep != 0 ==>
            exists m :: m in r.deletedAt && r.deletedAt[m] == r.nextSweep > c.now)
  {
    if c.nextSweep != 0 && c.now >= c.nextSweep {
      TimerDestroysExactlyDue(c);
      EarliestSpec(c, |c.monologues|);
      var t := Earliest(c, |c.monologues|);
      if t != 0 {
        var k :| 0 <= k < |c.monologues| && t == c.deletedAt[c.monologues[k]];
        var m := c.monologues[k];
        assert m !in Due(c);
        assert Timer(c).deletedAt[m] == t;
      }
    }
  }

  // ----- whole runs -----

  datatype Op =
    | Tick(d: nat) | Create | RunTimer
    | Link(a: Monologue, b: Monologue) | Kill(a: Monologue) | Remove(a: Monologue, delay: int)

  predicate Enabled(c: Call, op: Op) {
    match op
    case Link(a, b) => a in c.associated && b in c.associated && a != b
    case Kill(a) => a in c.associated
    case Remove(a, _) => a in c.associated
    case _ => true
  }

  function Above(ms: seq<Monologue>): (m: Monologue)
    ensures forall x :: x in ms ==> x < m
  {
    if ms == [] then 0 else
      var t := Above(ms[1..]);
      assert forall x :: x in ms ==> x == ms[0] || x in ms[1..];
      if ms[0] >= t then ms[0] + 1 else t
  }

  function Fresh(c: Call): (m: Monologue)
    ensures m !in c.monologues
  {
    Above(c.monologues)
  }

  function Step(c: Call, op: Op): (r: Call)
    requires Inv(c) && Enabled(c, op)
  {
    match op
    case Tick(d) => c.(now := c.now + d)
    case Create =>
      var m := Fresh(c);
      c.(monologues := c.monologues + [m], associated := c.associated[m := {}], deletedAt := c.deletedAt[m := 0])
    case Link(a, b) => Associate(c, a, b)
    case Kill(a) => Destroy(c, a)
    case Remove(a, delay) => Delete(c, a, delay)
    case RunTimer => Timer(c)
  }

  lemma StepInv(c: Call, op: Op)
    requires Inv(c) && Enabled(c, op)
    ensures Inv(Step(c, op))
  {
    match op
    case Tick(_) =>
    case Create =>
    case Link(a, b) => AssociateInv(c, a, b);
    case Kill(a) => DestroyInv(c, a);
    case Remove(a, delay) => DeleteInv(c, a, delay);
    case RunTimer => TimerDestroysExactlyDue(c);
  }

  ghost predicate ValidRun(c: Call, ops: seq<Op>)
    requires Inv(c)
    decreases |ops|
  {
    ops == [] || (Enabled(c, ops[0]) && (StepInv(c, ops[0]); ValidRun(Step(c, ops[0]), ops[1..])))
  }

  ghost function Run(c: Call, ops: seq<Op>): (r: Call)
    requires Inv(c) && ValidRun(c, ops)
    ensures Inv(r)
    decreases |ops|
  {
    if ops == [] then c else (StepInv(c, ops[0]); Run(Step(c, ops[0]), ops[1..]))
  }

  /** The operation leaves a's pending deletion alone: it neither re-associates a nor destroys or
      deletes a or anything a could be cascaded from. */
  predicate Spares(c: Call, op: Op, a: Monologue)
    requires a in c.associated
  {
    match op
    case Link(x, y) => a != x && a != y
    case Kill(x) => a != x
    case Remove(x, _) => x in c.associated && a !in Cascade(c, x)
    case _ => true
  }

  ghost predicate SparedThroughout(c: Call, ops: seq<Op>, a: Monologue)
    requires Inv(c) && ValidRun(c, ops) && a in c.associated
    decreases |ops|
  {
    ops == [] || (Spares(c, ops[0], a) && (StepInv(c, ops[0]); SparedThroughout(Step(c, ops[0]), ops[1..], a)))
  }

  lemma StepSpares(c: Call, op: Op, a: Monologue)
    requires Inv(c) && Enabled(c, op) && a in c.associated && c.deletedAt[a] != 0 && Spares(c, op, a)
    ensures a in Step(c, op).associated && a in Step(c, op).deletedAt
    ensures Step(c, op).deletedAt[a] == (if op.RunTimer? && c.deletedAt[a] <= c.now then 0 else c.deletedAt[a])
    ensures a in Step(c, op).destroyed <==> a in c.destroyed || (op.RunTimer? && c.deletedAt[a] <= c.now)
    ensures Step(c, op).now >= c.now
  {
    StepInv(c, op);
    if op.RunTimer? { TimerDestroysExactlyDue(c); }
    if op.Create? { assert a in c.monologues; }
  }

  /** Some timer run of the schedule happens at time t or later. */
  ghost predicate TimerRanAt(c: Call, ops: seq<Op>, t: int)
    requires Inv(c) && ValidRun(c, ops)
    decreases |ops|
  {
    ops != [] && ((ops[0].RunTimer? && c.now >= t) || (StepInv(c, ops[0]); TimerRanAt(Step(c, ops[0]), ops[1..], t)))
  }

  lemma {:induction false} DestroyedForever(c: Call, ops: seq<Op>, a: Monologue)
    requires Inv(c) && ValidRun(c, ops) && a in c.destroyed
    ensures a in Run(c, ops).destroyed
    decreases |ops|
  {
    if ops != [] {
      StepInv(c, ops[0]);
      if ops[0].RunTimer? { TimerDestroysExactlyDue(c); }
      DestroyedForever(Step(c, ops[0]), ops[1..], a);
    }
  }

  /** A branch whose deletion is scheduled, and which is then left alone, is destroyed by the first
      timer run at or after its time and by none before. */
  lemma {:induction false} DestroyedOnTime(c: Call, ops: seq<Op>, a: Monologue)
    requires Inv(c) && ValidRun(c, ops) && a in c.associated && a !in c.destroyed && c.deletedAt[a] != 0
    requires SparedThroughout(c, ops, a)
    ensures a in Run(c, ops).destroyed <==> TimerRanAt(c, ops, c.deletedAt[a])
    decreases |ops|
  {
    if ops != [] {
      StepInv(c, ops[0]);
      StepSpares(c, ops[0], a);
      var c' := Step(c, ops[0]);
      if a in c'.destroyed {
        DestroyedForever(c', ops[1..], a);
      } else {
        DestroyedOnTime(c', ops[1..], a);
      }
    }
  }

  /** The operation neither destroys nor deletes a, by itself or through a neighbour whose deletion
      reaches a because a is associated with nothing else. */
  predicate NotDeleted(c: Call, op: Op, a: Monologue)
    requires Inv(c) && Enabled(c, op)
  {
    match op
    case Kill(x) => x != a
    case Remove(x, _) => x != a && !(x in c.associated && a in c.associated[x] && c.associated[a] == {x})
    case _ => true
  }

  ghost predicate NeverDeleted(c: Call, ops: seq<Op>, a: Monologue)
    requires Inv(c) && ValidRun(c, ops)
    decreases |ops|
  {
    ops == [] || (NotDeleted(c, ops[0], a) && (StepInv(c, ops[0]); NeverDeleted(Step(c, ops[0]), ops[1..], a)))
  }

  lemma StepStaysUnscheduled(c: Call, op: Op, a: Monologue)
    requires Inv(c) && Enabled(c, op) && NotDeleted(c, op, a)
    requires a in c.deletedAt && c.deletedAt[a] == 0 && a !in c.destroyed
    ensures var r := Step(c, op); a in r.deletedAt && r.deletedAt[a] == 0 && a !in r.destroyed
  {
    if op.RunTimer? { TimerDestroysExactlyDue(c); }
  }

  /** Over every run, a monologue without a pending deletion that is not deleted is not destroyed. */
  lemma {:induction false} UnscheduledSurvives(c: Call, ops: seq<Op>, a: Monologue)
    requires Inv(c) && ValidRun(c, ops) && NeverDeleted(c, ops, a)
    requires a in c.deletedAt && c.deletedAt[a] == 0 && a !in c.destroyed
    ensures var r := Run(c, ops); a in r.deletedAt && r.deletedAt[a] == 0 && a !in r.destroyed
    decreases |ops|
  {
    if ops != [] {
      StepInv(c, ops[0]);
      StepStaysUnscheduled(c, ops[0], a);
      hide Inv, Step, NotDeleted;
      UnscheduledSurvives(Step(c, ops[0]), ops[1..], a);
    }
  }

  /** Associating two branches cancels whatever deletion was pending for either: over every run that
      follows, neither is destroyed unless it is deleted again. */
  lemma AssociatedSurvives(c: Call, a: Monologue, b: Monologue, ops: seq<Op>, x: Monologue)
    requires Inv(c) && a in c.associated && b in c.associated && a != b && (x == a || x == b) && x !in c.destroyed
    requires ValidRun(c, [Link(a, b)] + ops) && NeverDeleted(c, [Link(a, b)] + ops, x)
    ensures x !in Run(c, [Link(a, b)] + ops).destroyed
  {
    var all := [Link(a, b)] + ops;
    assert all[0] == Link(a, b) && all[1..] == ops;
    StepInv(c, all[0]);
    UnscheduledSurvives(Step(c, all[0]), ops, x);
  }

  // ----- the cascade, one neighbour at a time -----

  /** __tags_unassociate. */
  function Unassociate(c: Call, a: Monologue, b: Monologue): (r: Call)
    requires a in c.associated && b in c.associated && a != b
  {
    c.(associated := c.associated[a := c.associated[a] - {b}][b := c.associated[b] - {a}])
  }

  /** The associations once the neighbours in `done` have been dealt with. */
  function PartialLinks(c: Call, a: Monologue, delay: int, done: set<Monologue>): (r: map<Monologue, set<Monologue>>)
    requires a in c.associated
  {
    if delay > 0 then
      map x | x in c.associated ::
        if x == a then c.associated[a] - done else if x in done then c.associated[x] - {a} else c.associated[x]
    else Unlink(c.associated, a)
  }

  function Reached(c: Call, a: Monologue, done: set<Monologue>): (r: set<Monologue>) {
    {a} + set b | b in done && b in c.associated && c.associated[b] == {a}
  }

  /** The deletion of a, with the neighbours in `done` dealt with. */
  function Partial(c: Call, a: Monologue, delay: int, done: set<Monologue>): (r: Call)
    requires a in c.associated
  {
    var reach, due := Reached(c, a, done), c.now + delay;
    if delay > 0 then
      c.(associated := PartialLinks(c, a, delay, done), deletedAt := SetAll(c.deletedAt, reach, due),
         nextSweep := if c.nextSweep == 0 || c.nextSweep > due then due else c.nextSweep)
    else
      c.(associated := PartialLinks(c, a, delay, done), deletedAt := SetAll(c.deletedAt, reach, 0),
         destroyed := c.destroyed + reach)
  }

  lemma PartialComplete(c: Call, a: Monologue, delay: int)
    requires Inv(c) && a in c.associated
    ensures Partial(c, a, delay, c.associated[a]) == Delete(c, a, delay)
  {
    assert Reached(c, a, c.associated[a]) == Cascade(c, a);
    forall x | x in c.associated && x != a && x !in c.associated[a]
      ensures c.associated[x] - {a} == c.associated[x]
    {
    }
    assert c.associated[a] - c.associated[a] == {};
    assert PartialLinks(c, a, delay, c.associated[a]) == Unlink(c.associated, a);
  }

  lemma PartialInv(c: Call, a: Monologue, delay: int, done: set<Monologue>)
    requires Inv(c) && a in c.associated && done <= c.associated[a]
    ensures Inv(Partial(c, a, delay, done))
  {
    assert Symmetric(PartialLinks(c, a, delay, done));
    hide Symmetric, PartialLinks;
  }

  lemma UnassociateInv(c: Call, a: Monologue, b: Monologue)
    requires Inv(c) && a in c.associated && b in c.associated && a != b
    ensures Inv(Unassociate(c, a, b))
  {
  }

  lemma UnlinkLoner(assoc: map<Monologue, set<Monologue>>, b: Monologue)
    requires Symmetric(assoc) && b in assoc && assoc[b] == {}
    ensures Unlink(assoc, b) == assoc
  {
    forall x | x in assoc ensures assoc[x] - {b} == assoc[x] {
      assert b !in assoc[x];
    }
  }

  /** Deleting a monologue without associations touches nothing else. */
  lemma DeleteLoner(c: Call, b: Monologue, delay: int)
    requires Inv(c) && b in c.associated && c.associated[b] == {}
    ensures Delete(c, b, delay).associated == c.associated
    ensures Cascade(c, b) == {b}
  {
    UnlinkLoner(c.associated, b);
  }

  lemma Neighbour(c: Call, a: Monologue, b: Monologue)
    requires Inv(c) && a in c.associated && b in c.associated[a]
    ensures b in c.associated && a != b && a in c.associated[b]
  {
  }

  lemma UnassociateLinks(c: Call, a: Monologue, delay: int, done: set<Monologue>, b: Monologue)
    requires Inv(c) && a in c.associated && done <= c.associated[a] && b in c.associated[a] && b !in done
    ensures b in c.associated && a != b
    ensures Unassociate(Partial(c, a, delay, done), a, b).associated == PartialLinks(c, a, delay, done + {b})
    ensures PartialLinks(c, a, delay, done + {b})[b] == c.associated[b] - {a}
  {
    hide Inv, Reached, SetAll;
    Neighbour(c, a, b);
    var l, r := Unassociate(Partial(c, a, delay, done), a, b).associated, PartialLinks(c, a, delay, done + {b});
    forall x | x in c.associated ensures l[x] == r[x] {
    }
  }

  lemma ReachedNext(c: Call, a: Monologue, done: set<Monologue>, b: Monologue)
    requires Inv(c) && a in c.associated && b in c.associated[a]
    ensures b in c.associated && (c.associated[b] == {a} <==> c.associated[b] - {a} == {})
    ensures c.associated[b] == {a} ==> Reached(c, a, done + {b}) == Reached(c, a, done) + {b}
    ensures c.associated[b] != {a} ==> Reached(c, a, done + {b}) == Reached(c, a, done)
  {
    assert a in c.associated[b];
  }

  lemma SetOneMore(m: map<Monologue, int>, xs: set<Monologue>, b: Monologue, t: int)
    ensures SetAll(SetAll(m, xs, t), {b}, t) == SetAll(m, xs + {b}, t)
  {
  }

  lemma PartialKeys(c: Call, a: Monologue, delay: int, done: set<Monologue>)
    requires a in c.associated
    ensures Partial(c, a, delay, done).associated.Keys == c.associated.Keys
  {
  }

  lemma PartialNext(c: Call, a: Monologue, delay: int, done: set<Monologue>, b: Monologue)
    requires Inv(c) && a in c.associated && done <= c.associated[a] && b in c.associated[a] && b !in done
    ensures b in c.associated && a != b
    ensures var q := Unassociate(Partial(c, a, delay, done), a, b);
      && Inv(q)
      && Partial(c, a, delay, done + {b}) == if q.associated[b] == {} then Delete(q, b, delay) else q
  {
    hide Inv, SetAll, Reached, PartialLinks, Unlink, Cascade;
    UnassociateLinks(c, a, delay, done, b);
    ReachedNext(c, a, done, b);
    PartialInv(c, a, delay, done);
    PartialKeys(c, a, delay, done);
    UnassociateInv(Partial(c, a, delay, done), a, b);
    var q := Unassociate(Partial(c, a, delay, done), a, b);
    if q.associated[b] == {} {
      DeleteLoner(q, b, delay);
      SetOneMore(c.deletedAt, Reached(c, a, done), b, if delay > 0 then c.now + delay else 0);
    }
  }

  /** The association table after some neighbours of a have dropped it. */
  function UnlinkSome(assoc: map<Monologue, set<Monologue>>, a: Monologue, done: set<Monologue>)
    : (r: map<Monologue, set<Monologue>>)
  {
    map x | x in assoc :: if x in done then assoc[x] - {a} else assoc[x]
  }

  lemma Linked(c: Call, a: Monologue)
    requires Inv(c) && a in c.associated
    ensures a in c.deletedAt && Symmetric(c.associated) && forall b :: b in c.associated[a] ==> b in c.associated
  {
  }

  lemma UnlinkNone(assoc: map<Monologue, set<Monologue>>, a: Monologue, done: set<Monologue>)
    requires done == {}
    ensures UnlinkSome(assoc, a, done) == assoc
  {
  }

  lemma UnlinkNext(assoc: map<Monologue, set<Monologue>>, a: Monologue, done: set<Monologue>, b: Monologue)
    requires b in assoc && b !in done
    ensures b in UnlinkSome(assoc, a, done)
    ensures var m := UnlinkSome(assoc, a, done); UnlinkSome(assoc, a, done + {b}) == m[b := m[b] - {a}]
  {
    var l, r := UnlinkSome(assoc, a, done + {b}), UnlinkSome(assoc, a, done)[b := assoc[b] - {a}];
    forall x | x in assoc ensures l[x] == r[x] {}
  }

  lemma UnlinkAll(assoc: map<Monologue, set<Monologue>>, a: Monologue)
    requires Symmetric(assoc) && a in assoc
    ensures UnlinkSome(assoc, a, assoc[a])[a := {}] == Unlink(assoc, a)
  {
    forall x | x in assoc && x !in assoc[a] ensures assoc[x] - {a} == assoc[x] {
    }
  }

  lemma PartialStart(c: Call, a: Monologue, delay: int)
    requires Inv(c) && a in c.associated
    ensures delay > 0 ==>
      Partial(c, a, delay, {}) == c.(
        deletedAt := c.deletedAt[a := c.now + delay],
        nextSweep := if c.nextSweep == 0 || c.nextSweep > c.now + delay then c.now + delay else c.nextSweep)
    ensures delay <= 0 ==> Partial(c, a, delay, {}) == Destroy(c, a)
  {
    assert Reached(c, a, {}) == {a};
    if delay > 0 {
      assert c.associated[a] - {} == c.associated[a];
      assert PartialLinks(c, a, delay, {}) == c.associated;
    }
  }

  lemma SweepGuard(c: Call, i: nat)
    requires Inv(c) && i < |c.monologues|
    ensures var m, p := c.monologues[i], DestroyDue(c, i);
      && m in c.deletedAt && m in p.deletedAt && m in p.associated
      && (p.deletedAt[m] == c.deletedAt[m] || (p.deletedAt[m] == 0 && c.deletedAt[m] <= c.now))
  {
    DestroyDueSpec(c, i);
    assert c.monologues[i] in c.monologues;
  }

  // ----- the code itself -----

  class CallTags {
    var monologues: seq<Monologue>
    var associated: map<Monologue, set<Monologue>>
    var deletedAt: map<Monologue, int>
    var nextSweep: int
    var now: int
    var destroyed: set<Monologue>

    function View(): Call
      reads this
    {
      Call(monologues, associated, deletedAt, nextSweep, now, destroyed)
    }

    constructor (now: int)
      requires now > 0
      ensures View() == Call([], map[], map[], 0, now, {}) && Inv(View())
    {
      monologues, associated, deletedAt, nextSweep, this.now, destroyed := [], map[], map[], 0, now, {};
    }

    method TagsAssociate(a: Monologue, b: Monologue)
      requires Inv(View()) && a in associated && b in associated
      modifies this
      ensures View() == Associate(old(View()), a, b)
      ensures a in deletedAt && b in deletedAt && deletedAt[a] == 0 && deletedAt[b] == 0
      ensures b in associated[a] && a in associated[b]
      ensures Inv(View()) <==> a != b
    {
      hide Inv;
      AssociateInvExactly(View(), a, b);
      Linked(View(), a);
      Linked(View(), b);
      deletedAt := deletedAt[a := 0];
      deletedAt := deletedAt[b := 0];
      associated := associated[a := associated[a] + {b}];
      associated := associated[b := associated[b] + {a}];
    }

    /** __tags_unassociate_all and the rest of monologue_destroy. */
    method MonologueDestroy(a: Monologue)
      requires Inv(View()) && a in associated
      modifies this
      ensures View() == Destroy(old(View()), a) && Inv(View())
    {
      hide Inv, UnlinkSome, Unlink;
      DestroyInv(View(), a);
      Linked(View(), a);
      ghost var before := associated;
      var todo := associated[a];
      UnlinkNone(before, a, before[a] - todo);
      while todo != {}
        invariant todo <= before[a] && View() == old(View()).(associated := associated)
        invariant associated == UnlinkSome(before, a, before[a] - todo)
        decreases |todo|
      {
        var b :| b in todo;
        UnlinkNext(before, a, before[a] - todo, b);
        assert before[a] - (todo - {b}) == before[a] - todo + {b};
        associated := associated[b := associated[b] - {a}];
        todo := todo - {b};
      }
      assert before[a] - todo == before[a];
      UnlinkAll(before, a);
      associated := associated[a := {}];
      deletedAt := deletedAt[a := 0];
      destroyed := destroyed + {a};
    }

    /** monologue_delete_iter up to its loop: schedule or destroy a itself. */
    method StartDeletion(a: Monologue, delay: int)
      requires Inv(View()) && a in associated
      modifies this
      ensures View() == Partial(old(View()), a, delay, {})
    {
      PartialStart(View(), a, delay);
      if delay > 0 {
        deletedAt := deletedAt[a := now + delay];
        if nextSweep == 0 || nextSweep > deletedAt[a] {
          nextSweep := deletedAt[a];
        }
      } else {
        MonologueDestroy(a);
      }
    }

    method MonologueDeleteIter(a: Monologue, delay: int)
      requires Inv(View()) && a in associated
      modifies this
      ensures View() == Delete(old(View()), a, delay) && Inv(View())
      decreases |associated[a]|
    {
      hide Inv, Partial, Delete;
      ghost var c := View();
      var todo := associated[a];
      StartDeletion(a, delay);
      assert c.associated[a] - todo == {};
      while todo != {}
        invariant todo <= c.associated[a]
        invariant View() == Partial(c, a, delay, c.associated[a] - todo)
        decreases |todo|
      {
        var b :| b in todo;
        ghost var done := c.associated[a] - todo;
        todo := todo - {b};
        assert done + {b} == c.associated[a] - todo;
        PartialNext(c, a, delay, done, b);
        PartialKeys(c, a, delay, done);
        associated := associated[a := associated[a] - {b}];
        associated := associated[b := associated[b] - {a}];
        assert View() == Unassociate(Partial(c, a, delay, done), a, b);
        if |associated[b]| == 0 {
          assert associated[b] == {};
          assert c.associated[a] != {};
          MonologueDeleteIter(b, delay);
        }
      }
      assert c.associated[a] - {} == c.associated[a];
      PartialComplete(c, a, delay);
      DeleteInv(c, a, delay);
    }

    method TimerDeleteMonologues()
      requires Inv(View())
      modifies this
      ensures View() == Sweep(old(View()))
    {
      ghost var c := View();
      var minDeleted := 0;
      for i := 0 to |monologues|
        invariant View() == DestroyDue(c, i)
        invariant minDeleted == Earliest(c, i)
      {
        DestroyDueSpec(c, i);
        SweepGuard(c, i);
        hide Inv;
        var ml := monologues[i];
        if deletedAt[ml] == 0 {
          continue;
        }
        if deletedAt[ml] > now {
          if minDeleted == 0 || deletedAt[ml] < minDeleted {
            minDeleted := deletedAt[ml];
          }
          continue;
        }
        MonologueDestroy(ml);
      }
      nextSweep := minDeleted;
    }

    method CallTimer()
      requires Inv(View())
      modifies this
      ensures View() == Timer(old(View())) && Inv(View())
      ensures nextSweep == 0 || now < nextSweep
    {
      TimerDestroysExactlyDue(View());
      SweepTimeIsEarliest(View());
      hide Inv;
      if nextSweep != 0 && now >= nextSweep {
        TimerDeleteMonologues();
      }
    }
  }
}
