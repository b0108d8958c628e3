/** The media subscription graph. Every subscription is a pair of objects, one in the subscriber's
    queue and one in the queue of the media subscribed to, pointing at each other and indexed by
    media in a hash table next to each queue. */
module Subscriptions {
  import opened Options

  type Media = nat
  type Id = nat

  /** The two queues of a media: what it subscribes to, and who subscribes to it. */
  datatype Side = Subscriptions | Subscribers

  datatype Key = Key(side: Side, media: Media)

  datatype Attrs = Attrs(offerAnswer: bool, egress: bool, rtcpOnly: bool, flags: int)

  const NO_ATTRS := Attrs(false, false, false, 0)

  /** A media_subscription object. `at` is the queue it is linked into. */
  datatype Sub = Sub(at: Key, media: Media, reverse: Id, attrs: Attrs)

  /** queues and tables: for every media and side, the subscription queue and its hash table.
      pool: the live subscription objects. */
  datatype Graph = Graph(medias: set<Media>, queues: map<Key, seq<Id>>, tables: map<Key, map<Media, Id>>,
                         pool: map<Id, Sub>, ids: nat)

  function Opposite(s: Side): (r: Side) {
    if s == Subscriptions then Subscribers else Subscriptions
  }

  // ----- the invariant -----

  ghost predicate NoRepeats(q: seq<Id>) {
    forall i, j :: 0 <= i < j < |q| ==> q[i] != q[j]
  }

  /** The queue holds only live objects linked into it, each once. */
  ghost predicate QueueOk(g: Graph, k: Key)
    requires k in g.queues
  {
    NoRepeats(g.queues[k]) && forall id :: id in g.queues[k] ==> id in g.pool && g.pool[id].at == k
  }

  predicate SlotOk(g: Graph, k: Key, m: Media)
    requires k in g.tables && m in g.tables[k]
  {
    g.tables[k][m] in g.pool && g.pool[g.tables[k][m]].at == k && g.pool[g.tables[k][m]].media == m
  }

  /** The table holds only live objects of its queue, under their media. */
  ghost predicate TableOk(g: Graph, k: Key)
    requires k in g.tables
  {
    forall m :: m in g.tables[k] ==> SlotOk(g, k, m)
  }

  /** The object points at its counterpart in the other media's other queue, which points back. */
  predicate Paired(pool: map<Id, Sub>, id: Id)
    requires id in pool
  {
    var s := pool[id];
    && s.reverse in pool
    && pool[s.reverse].at == Key(Opposite(s.at.side), s.media)
    && pool[s.reverse].media == s.at.media
    && pool[s.reverse].reverse == id
  }

  /** A live object is in its queue and in the table next to it, and is one of a pair. */
  ghost predicate ObjectOk(g: Graph, id: Id)
    requires id in g.pool
  {
    var s := g.pool[id];
    && s.at in g.queues && id in g.queues[s.at]
    && s.at in g.tables && s.media in g.tables[s.at] && g.tables[s.at][s.media] == id
    && Paired(g.pool, id) && id < g.ids && s.media in g.medias
  }

  predicate KeysComplete(g: Graph) {
    && (forall m :: m in g.medias ==> Key(Subscriptions, m) in g.queues && Key(Subscribers, m) in g.queues)
    && (forall k :: k in g.queues ==> k.media in g.medias)
    && g.tables.Keys == g.queues.Keys
  }

  ghost predicate Inv(g: Graph) {
    && KeysComplete(g)
    && (forall id :: id in g.pool ==> ObjectOk(g, id))
    && (forall k :: k in g.queues ==> QueueOk(g, k) && TableOk(g, k))
  }

  lemma HasKeys(g: Graph)
    requires Inv(g)
    ensures KeysComplete(g)
  {
  }

  predicate SubscribedTo(g: Graph, a: Media, b: Media) {
    Key(Subscriptions, a) in g.tables && b in g.tables[Key(Subscriptions, a)]
  }

  predicate ListsSubscriber(g: Graph, b: Media, a: Media) {
    Key(Subscribers, b) in g.tables && a in g.tables[Key(Subscribers, b)]
  }

  /** The link that a table slot stands for: both ends, pointing at each other. */
  lemma SlotPair(g: Graph, k: Key, m: Media)
    requires Inv(g) && k in g.tables && m in g.tables[k]
    ensures var id, k' := g.tables[k][m], Key(Opposite(k.side), m);
      && id in g.pool && g.pool[id].at == k && g.pool[id].media == m
      && k' in g.tables && k.media in g.tables[k'] && g.tables[k'][k.media] == g.pool[id].reverse
      && g.pool[id].reverse in g.pool && g.pool[g.pool[id].reverse].reverse == id
  {
    var id := g.tables[k][m];
    assert QueueOk(g, k) && TableOk(g, k);
    assert SlotOk(g, k, m);
    assert ObjectOk(g, id);
    assert ObjectOk(g, g.pool[id].reverse);
  }

  /** Every queue entry of a given media is the one in the table. */
  lemma OneLinkPerMedia(g: Graph, k: Key, id: Id)
    requires Inv(g) && k in g.queues && id in g.queues[k]
    ensures id in g.pool && k in g.tables && g.pool[id].media in g.tables[k] && g.tables[k][g.pool[id].media] == id
  {
    assert QueueOk(g, k);
    assert ObjectOk(g, id);
  }

  lemma AtMostOneLink(g: Graph, k: Key, id: Id, id': Id)
    requires Inv(g) && k in g.queues && id in g.queues[k] && id' in g.queues[k]
    ensures id in g.pool && id' in g.pool && (g.pool[id].media == g.pool[id'].media ==> id == id')
  {
    hide Inv;
    OneLinkPerMedia(g, k, id);
    OneLinkPerMedia(g, k, id');
  }

  /** In every valid graph, A subscribes to B exactly when B lists A, self-subscription included, and
      the two objects are mutual reverses. */
  lemma Mirrored(g: Graph, a: Media, b: Media)
    requires Inv(g)
    ensures SubscribedTo(g, a, b) <==> ListsSubscriber(g, b, a)
    ensures SubscribedTo(g, a, b) ==>
      (var s, r := g.tables[Key(Subscriptions, a)][b], g.tables[Key(Subscribers, b)][a];
       s in g.pool && r in g.pool && g.pool[s].reverse == r && g.pool[r].reverse == s)
  {
    hide Inv;
    if SubscribedTo(g, a, b) { SlotPair(g, Key(Subscriptions, a), b); }
    if ListsSubscriber(g, b, a) { SlotPair(g, Key(Subscribers, b), a); }
  }

  lemma ObjectOf(g: Graph, id: Id)
    requires Inv(g) && id in g.pool
    ensures ObjectOk(g, id)
  {
  }

  lemma KeyOf(g: Graph, k: Key)
    requires Inv(g) && k in g.queues
    ensures k in g.tables && QueueOk(g, k) && TableOk(g, k)
  {
  }

  // ----- adding a link -----

  function Push(q: seq<Id>, id: Id, front: bool): (r: seq<Id>)
    ensures |r| == |q| + 1 && forall x :: x in r <==> x == id || x in q
  {
    if front then [id] + q else q + [id]
  }

  function Put(t: map<Media, Id>, m: Media, id: Id): (r: map<Media, Id>) {
    t[m := id]
  }

  /** A new link from `which` to `to`; offer/answer subscriptions go first. */
  function Link(g: Graph, which: Media, to: Media, attrs: Attrs): (r: Graph)
    requires which in g.medias && to in g.medias && KeysComplete(g)
  {
    var s: Id, r: Id := g.ids, g.ids + 1;
    var ks, kr := Key(Subscriptions, which), Key(Subscribers, to);
    var front := attrs.offerAnswer;
    g.(queues := g.queues[ks := Push(g.queues[ks], s, front)][kr := Push(g.queues[kr], r, front)],
       tables := g.tables[ks := Put(g.tables[ks], to, s)][kr := Put(g.tables[kr], which, r)],
       pool := g.pool[s := Sub(ks, to, r, attrs)][r := Sub(kr, which, s, attrs)],
       ids := g.ids + 2)
  }

  lemma LinkOldObject(g: Graph, which: Media, to: Media, attrs: Attrs, id: Id)
    requires Inv(g) && KeysComplete(g) && which in g.medias && to in g.medias && id in g.pool
    requires !SubscribedTo(g, which, to)
    ensures id in Link(g, which, to, attrs).pool && ObjectOk(Link(g, which, to, attrs), id)
  {
    hide Inv, KeysComplete;
    ObjectOf(g, id);
    ObjectOf(g, g.pool[id].reverse);
    Mirrored(g, which, to);
  }

  lemma PushNoRepeats(q: seq<Id>, id: Id, front: bool)
    requires NoRepeats(q) && id !in q
    ensures NoRepeats(Push(q, id, front))
  {
    assert forall i :: 0 <= i < |q| ==> q[i] in q;
  }

  lemma LinkQueueIs(g: Graph, which: Media, to: Media, attrs: Attrs, k: Key)
    requires KeysComplete(g) && which in g.medias && to in g.medias && k in g.queues
    ensures k in Link(g, which, to, attrs).queues
    ensures Link(g, which, to, attrs).queues[k] ==
      if k == Key(Subscriptions, which) then Push(g.queues[k], g.ids, attrs.offerAnswer)
      else if k == Key(Subscribers, to) then Push(g.queues[k], g.ids + 1, attrs.offerAnswer)
      else g.queues[k]
  {
    hide Push;
  }

  lemma LinkQueueOk(g: Graph, which: Media, to: Media, attrs: Attrs, k: Key)
    requires Inv(g) && KeysComplete(g) && which in g.medias && to in g.medias && k in g.queues
    ensures k in Link(g, which, to, attrs).queues && QueueOk(Link(g, which, to, attrs), k)
  {
    hide Inv, KeysComplete, Push, NoRepeats;
    KeyOf(g, k);
    LinkQueueIs(g, which, to, attrs, k);
    forall id | id in g.queues[k] ensures id < g.ids { ObjectOf(g, id); }
    if k == Key(Subscriptions, which) {
      PushNoRepeats(g.queues[k], g.ids, attrs.offerAnswer);
    } else if k == Key(Subscribers, to) {
      PushNoRepeats(g.queues[k], g.ids + 1, attrs.offerAnswer);
    }
  }

  lemma LinkTableOk(g: Graph, which: Media, to: Media, attrs: Attrs, k: Key)
    requires Inv(g) && KeysComplete(g) && which in g.medias && to in g.medias && k in g.queues
    ensures k in Link(g, which, to, attrs).tables && TableOk(Link(g, which, to, attrs), k)
  {
    hide Inv, KeysComplete;
    KeyOf(g, k);
    var h := Link(g, which, to, attrs);
    forall m | m in h.tables[k] ensures SlotOk(h, k, m) {
      if m in g.tables[k] {
        assert SlotOk(g, k, m);
        ObjectOf(g, g.tables[k][m]);
      }
    }
  }

  lemma LinkNewObject(g: Graph, which: Media, to: Media, attrs: Attrs, id: Id)
    requires KeysComplete(g) && which in g.medias && to in g.medias && (id == g.ids || id == g.ids + 1)
    ensures ObjectOk(Link(g, which, to, attrs), id)
  {
    hide KeysComplete;
  }

  lemma LinkInv(g: Graph, which: Media, to: Media, attrs: Attrs)
    requires Inv(g) && KeysComplete(g) && which in g.medias && to in g.medias && !SubscribedTo(g, which, to)
    ensures Inv(Link(g, which, to, attrs))
  {
    hide ObjectOk, QueueOk, TableOk;
    var h := Link(g, which, to, attrs);
    forall id | id in h.pool ensures ObjectOk(h, id) {
      if id in g.pool { LinkOldObject(g, which, to, attrs, id); } else { LinkNewObject(g, which, to, attrs, id); }
    }
    forall k | k in h.queues ensures QueueOk(h, k) && TableOk(h, k) {
      LinkQueueOk(g, which, to, attrs, k);
      LinkTableOk(g, which, to, attrs, k);
    }
  }

  // ----- removing links -----

  function Survivors(q: seq<Id>, dead: set<Id>): (r: seq<Id>)
    ensures forall id :: id in r <==> id in q && id !in dead
  {
    if q == [] then [] else
      assert q == [q[0]] + q[1..];
      (if q[0] in dead then [] else [q[0]]) + Survivors(q[1..], dead)
  }

  /** Removal keeps the order of what stays. */
  lemma {:induction false} SurvivorsConcat(q: seq<Id>, q': seq<Id>, dead: set<Id>)
    ensures Survivors(q + q', dead) == Survivors(q, dead) + Survivors(q', dead)
  {
    if q == [] {
      assert q + q' == q';
    } else {
      assert (q + q')[0] == q[0] && (q + q')[1..] == q[1..] + q';
      SurvivorsConcat(q[1..], q', dead);
    }
  }

  function Slots(t: map<Media, Id>, dead: set<Id>): (r: map<Media, Id>) {
    map m | m in t && t[m] !in dead :: t[m]
  }

  /** The graph without the given objects, everything else in place and in order. */
  function Restrict(g: Graph, dead: set<Id>): (r: Graph) {
    g.(queues := map k | k in g.queues :: Survivors(g.queues[k], dead),
       tables := map k | k in g.tables :: Slots(g.tables[k], dead),
       pool := g.pool - dead)
  }

  lemma {:induction false} SurvivorsNoRepeats(q: seq<Id>, dead: set<Id>)
    requires NoRepeats(q)
    ensures NoRepeats(Survivors(q, dead))
  {
    if q != [] {
      SurvivorsNoRepeats(q[1..], dead);
      var r, t := Survivors(q, dead), Survivors(q[1..], dead);
      assert q[0] !in q[1..];
      forall i, j | 0 <= i < j < |r| ensures r[i] != r[j] {
        if q[0] !in dead {
          assert r[j] == t[j - 1] && r[j] in t;
          if i > 0 { assert r[i] == t[i - 1]; }
        }
      }
    }
  }

  lemma {:induction false} SurvivorsSame(q: seq<Id>, d: set<Id>, d': set<Id>)
    requires forall id :: id in q ==> (id in d <==> id in d')
    ensures Survivors(q, d) == Survivors(q, d')
  {
    if q != [] {
      assert q == [q[0]] + q[1..];
      SurvivorsSame(q[1..], d, d');
    }
  }

  lemma {:induction false} SurvivorsTwice(q: seq<Id>, d: set<Id>, d': set<Id>)
    ensures Survivors(Survivors(q, d), d') == Survivors(q, d + d')
  {
    if q != [] {
      SurvivorsTwice(q[1..], d, d');
      var t := Survivors(q[1..], d);
      assert ([q[0]] + t)[1..] == t && [] + t == t;
    }
  }

  lemma {:induction false} SurvivorsAll(q: seq<Id>, d: set<Id>)
    requires forall id :: id in q ==> id !in d
    ensures Survivors(q, d) == q
  {
    if q != [] {
      assert q == [q[0]] + q[1..];
      SurvivorsAll(q[1..], d);
    }
  }

  lemma SlotsTwice(t: map<Media, Id>, d: set<Id>, d': set<Id>)
    ensures Slots(Slots(t, d), d') == Slots(t, d + d')
  {
  }

  lemma SameMap<K, V>(a: map<K, V>, b: map<K, V>)
    requires a.Keys == b.Keys && forall k :: k in a ==> a[k] == b[k]
    ensures a == b
  {
  }

  lemma RestrictTwice(g: Graph, d: set<Id>, d': set<Id>)
    ensures Restrict(Restrict(g, d), d') == Restrict(g, d + d')
  {
    hide Survivors, Slots;
    var l, r := Restrict(Restrict(g, d), d'), Restrict(g, d + d');
    forall k | k in g.queues ensures l.queues[k] == r.queues[k] { SurvivorsTwice(g.queues[k], d, d'); }
    SameMap(l.queues, r.queues);
    forall k | k in g.tables ensures l.tables[k] == r.tables[k] { SlotsTwice(g.tables[k], d, d'); }
    SameMap(l.tables, r.tables);
    assert l.pool == r.pool;
  }

  lemma SlotsAll(g: Graph, k: Key, d: set<Id>)
    requires k in g.tables && TableOk(g, k) && forall id :: id in g.pool ==> id !in d
    ensures Slots(g.tables[k], d) == g.tables[k]
  {
    forall m | m in g.tables[k] ensures g.tables[k][m] !in d { assert SlotOk(g, k, m); }
  }

  lemma QueueAlive(g: Graph, k: Key)
    requires k in g.queues && QueueOk(g, k)
    ensures forall id :: id in g.queues[k] ==> id in g.pool
  {
  }

  lemma RestrictNone(g: Graph, d: set<Id>)
    requires Inv(g) && forall id :: id in g.pool ==> id !in d
    ensures Restrict(g, d) == g
  {
    hide Inv, Survivors, Slots, QueueOk, TableOk;
    var r := Restrict(g, d);
    HasKeys(g);
    forall k | k in g.queues ensures r.queues[k] == g.queues[k] && r.tables[k] == g.tables[k] {
      KeyOf(g, k);
      QueueAlive(g, k);
      SurvivorsAll(g.queues[k], d);
      SlotsAll(g, k, d);
    }
    SameMap(r.queues, g.queues);
    SameMap(r.tables, g.tables);
    assert r.pool == g.pool;
  }

  /** The set is closed under reversal, so no half of a link is left behind. */
  ghost predicate WholeLinks(g: Graph, dead: set<Id>) {
    forall id :: id in g.pool ==> (id in dead <==> g.pool[id].reverse in dead)
  }

  lemma RestrictObject(g: Graph, dead: set<Id>, id: Id)
    requires Inv(g) && WholeLinks(g, dead) && id in g.pool && id !in dead
    ensures id in Restrict(g, dead).pool && ObjectOk(Restrict(g, dead), id)
  {
    hide Inv;
    ObjectOf(g, id);
  }

  lemma RestrictKey(g: Graph, dead: set<Id>, k: Key)
    requires Inv(g) && k in g.queues
    ensures var r := Restrict(g, dead); k in r.queues && k in r.tables && QueueOk(r, k) && TableOk(r, k)
  {
    hide Inv;
    KeyOf(g, k);
    var r := Restrict(g, dead);
    SurvivorsNoRepeats(g.queues[k], dead);
    forall m | m in r.tables[k] ensures SlotOk(r, k, m) {
      assert SlotOk(g, k, m);
    }
  }

  lemma RestrictInv(g: Graph, dead: set<Id>)
    requires Inv(g) && WholeLinks(g, dead)
    ensures Inv(Restrict(g, dead))
  {
    hide ObjectOk, QueueOk, TableOk, WholeLinks;
    var r := Restrict(g, dead);
    forall id | id in r.pool ensures ObjectOk(r, id) { RestrictObject(g, dead, id); }
    forall k | k in r.queues ensures QueueOk(r, k) && TableOk(r, k) { RestrictKey(g, dead, k); }
    assert r.queues.Keys == g.queues.Keys;
  }

  /** The two objects of the link from a to b, if there is one. */
  function LinkBetween(g: Graph, a: Media, b: Media): (r: set<Id>) {
    set id | id in g.pool &&
      ((g.pool[id].at == Key(Subscriptions, a) && g.pool[id].media == b) ||
       (g.pool[id].at == Key(Subscribers, b) && g.pool[id].media == a))
  }

  lemma LinkBetweenIs(g: Graph, a: Media, b: Media)
    requires Inv(g)
    ensures SubscribedTo(g, a, b) ==>
      (var s := g.tables[Key(Subscriptions, a)][b]; s in g.pool && LinkBetween(g, a, b) == {s, g.pool[s].reverse})
    ensures !SubscribedTo(g, a, b) ==> LinkBetween(g, a, b) == {}
    ensures WholeLinks(g, LinkBetween(g, a, b))
  {
    hide Inv;
    Mirrored(g, a, b);
    forall id | id in g.pool ensures ObjectOk(g, id) { ObjectOf(g, id); }
    if SubscribedTo(g, a, b) { SlotPair(g, Key(Subscriptions, a), b); }
  }

  /** __remove_sub_link_store, which only touches the two queues and the two tables. */
  function RemoveLink(g: Graph, which: Media, ms: Id): (r: Graph)
    requires ms in g.pool && g.pool[ms].reverse in g.pool
    requires Key(Subscriptions, which) in g.queues && Key(Subscriptions, which) in g.tables
    requires Key(Subscribers, g.pool[ms].media) in g.queues && Key(Subscribers, g.pool[ms].media) in g.tables
  {
    var s := g.pool[ms];
    var ks, kr := Key(Subscriptions, which), Key(Subscribers, s.media);
    g.(queues := g.queues[ks := Survivors(g.queues[ks], {ms})][kr := Survivors(g.queues[kr], {s.reverse})],
       tables := g.tables[ks := g.tables[ks] - {s.media}][kr := g.tables[kr] - {g.pool[s.reverse].media}],
       pool := g.pool - {ms, s.reverse})
  }

  lemma RemoveLinkQueue(g: Graph, which: Media, ms: Id, k: Key)
    requires Inv(g) && KeysComplete(g) && ms in g.pool && g.pool[ms].at == Key(Subscriptions, which) && ObjectOk(g, ms)
    requires ObjectOk(g, g.pool[ms].reverse) && k in g.queues
    ensures RemoveLink(g, which, ms).queues[k] == Restrict(g, {ms, g.pool[ms].reverse}).queues[k]
  {
    hide Inv, KeysComplete;
    KeyOf(g, k);
    var s, q, dead := g.pool[ms], g.queues[k], {ms, g.pool[ms].reverse};
    if k == Key(Subscriptions, which) {
      SurvivorsSame(q, {ms}, dead);
    } else if k == Key(Subscribers, s.media) {
      SurvivorsSame(q, {s.reverse}, dead);
    } else {
      SurvivorsAll(q, dead);
    }
  }

  lemma RemoveLinkTable(g: Graph, which: Media, ms: Id, k: Key)
    requires Inv(g) && KeysComplete(g) && ms in g.pool && g.pool[ms].at == Key(Subscriptions, which) && ObjectOk(g, ms)
    requires ObjectOk(g, g.pool[ms].reverse) && k in g.tables && k in g.queues
    ensures RemoveLink(g, which, ms).tables[k] == Restrict(g, {ms, g.pool[ms].reverse}).tables[k]
  {
    hide Inv, KeysComplete;
    KeyOf(g, k);
    var t, dead := g.tables[k], {ms, g.pool[ms].reverse};
    forall m | m in t ensures SlotOk(g, k, m) {}
    var l, r := RemoveLink(g, which, ms).tables[k], Slots(t, dead);
    assert l == r;
  }

  /** It takes exactly the two objects of the link out of the whole graph. */
  lemma RemoveLinkIsRestrict(g: Graph, which: Media, ms: Id)
    requires Inv(g) && ms in g.pool && g.pool[ms].at == Key(Subscriptions, which)
    ensures var s := g.pool[ms];
      && s.reverse in g.pool && Key(Subscriptions, which) in g.queues && Key(Subscribers, s.media) in g.queues
      && Key(Subscriptions, which) in g.tables && Key(Subscribers, s.media) in g.tables
      && RemoveLink(g, which, ms) == Restrict(g, {ms, s.reverse})
  {
    hide Inv, Survivors, Slots;
    HasKeys(g);
    ObjectOf(g, ms);
    var s := g.pool[ms];
    ObjectOf(g, s.reverse);
    var l, r := RemoveLink(g, which, ms), Restrict(g, {ms, s.reverse});
    forall k | k in g.queues ensures l.queues[k] == r.queues[k] { RemoveLinkQueue(g, which, ms, k); }
    SameMap(l.queues, r.queues);
    forall k | k in g.tables ensures l.tables[k] == r.tables[k] { RemoveLinkTable(g, which, ms, k); }
    SameMap(l.tables, r.tables);
  }

  // ----- releasing offer/answer subscriptions -----

  /** Every object of a link, in either direction, between cm and one of the peers. */
  function LinksWith(g: Graph, cm: Media, peers: set<Media>): (r: set<Id>) {
    set id | id in g.pool &&
      ((g.pool[id].at.media == cm && g.pool[id].media in peers) ||
       (g.pool[id].media == cm && g.pool[id].at.media in peers))
  }

  lemma LinksWithWhole(g: Graph, cm: Media, peers: set<Media>)
    requires Inv(g)
    ensures WholeLinks(g, LinksWith(g, cm, peers))
  {
    hide Inv;
    forall id | id in g.pool ensures ObjectOk(g, id) { ObjectOf(g, id); }
  }

  /** unsubscribe_media on values. */
  function Unsubscribe(g: Graph, which: Media, from: Media): (r: Graph) {
    Restrict(g, LinkBetween(g, which, from))
  }

  lemma UnsubscribeInv(g: Graph, which: Media, from: Media)
    requires Inv(g)
    ensures Inv(Unsubscribe(g, which, from))
    ensures !SubscribedTo(g, which, from) ==> Unsubscribe(g, which, from) == g
  {
    hide Inv;
    LinkBetweenIs(g, which, from);
    RestrictInv(g, LinkBetween(g, which, from));
    if !SubscribedTo(g, which, from) { RestrictNone(g, {}); }
  }

  lemma LinkBetweenAfter(g: Graph, dead: set<Id>, a: Media, b: Media)
    ensures LinkBetween(Restrict(g, dead), a, b) == LinkBetween(g, a, b) - dead
  {
  }

  lemma UnsubscribeAfter(g: Graph, dead: set<Id>, a: Media, b: Media)
    ensures Unsubscribe(Restrict(g, dead), a, b) == Restrict(g, dead + LinkBetween(g, a, b))
  {
    hide Restrict, LinkBetween;
    LinkBetweenAfter(g, dead, a, b);
    RestrictTwice(g, dead, LinkBetween(g, a, b) - dead);
    assert dead + (LinkBetween(g, a, b) - dead) == dead + LinkBetween(g, a, b);
  }

  lemma OnePeerMore(g: Graph, cm: Media, peers: set<Media>, x: Media)
    ensures LinksWith(g, cm, peers) + LinkBetween(g, x, cm) + LinkBetween(g, cm, x) == LinksWith(g, cm, peers + {x})
  {
    var now := LinksWith(g, cm, peers) + LinkBetween(g, x, cm) + LinkBetween(g, cm, x);
    forall id | id in g.pool
      ensures id in LinksWith(g, cm, peers + {x}) <==> id in now
    {
      match g.pool[id].at.side case Subscriptions => case Subscribers =>
    }
  }

  /** One round of the release loop: both directions between cm and one more peer. */
  lemma ReleaseOne(g: Graph, cm: Media, peers: set<Media>, x: Media)
    ensures Unsubscribe(Unsubscribe(Restrict(g, LinksWith(g, cm, peers)), x, cm), cm, x)
         == Restrict(g, LinksWith(g, cm, peers + {x}))
  {
    var dead := LinksWith(g, cm, peers);
    UnsubscribeAfter(g, dead, x, cm);
    UnsubscribeAfter(g, dead + LinkBetween(g, x, cm), cm, x);
    OnePeerMore(g, cm, peers, x);
    hide Unsubscribe, Restrict;
  }

  /** The medias that subscribe to cm by offer/answer. */
  function OfferAnswerPeers(g: Graph, cm: Media): (r: set<Media>) {
    set id | id in g.pool && g.pool[id].at == Key(Subscribers, cm) && g.pool[id].attrs.offerAnswer :: g.pool[id].media
  }

  function ReleaseAll(g: Graph, cm: Media): (r: Graph) {
    Restrict(g, LinksWith(g, cm, OfferAnswerPeers(g, cm)))
  }

  /** Peers among the first i entries of the subscriber queue. */
  function PeersOf(g: Graph, ids: seq<Id>): (r: set<Media>) {
    set id | id in ids && id in g.pool && g.pool[id].attrs.offerAnswer :: g.pool[id].media
  }

  /** The same in queue order. */
  function PeerList(pool: map<Id, Sub>, ids: seq<Id>): (r: seq<Media>) {
    if ids == [] then [] else
      var last := ids[|ids| - 1];
      PeerList(pool, ids[..|ids| - 1]) + if last in pool && pool[last].attrs.offerAnswer then [pool[last].media] else []
  }

  function ReleaseList(g: Graph, cm: Media): (r: seq<Media>) {
    var k := Key(Subscribers, cm);
    if k in g.queues then PeerList(g.pool, g.queues[k]) else []
  }

  lemma PeerListNone(pool: map<Id, Sub>)
    ensures PeerList(pool, []) == []
  {
  }

  lemma PeerListNext(pool: map<Id, Sub>, q: seq<Id>, i: nat)
    requires i < |q| && q[i] in pool
    ensures PeerList(pool, q[..i + 1]) ==
      PeerList(pool, q[..i]) + if pool[q[i]].attrs.offerAnswer then [pool[q[i]].media] else []
  {
    assert q[..i + 1][..i] == q[..i];
  }

  lemma PeersOfQueue(g: Graph, cm: Media)
    requires Inv(g) && Key(Subscribers, cm) in g.queues
    ensures PeersOf(g, g.queues[Key(Subscribers, cm)]) == OfferAnswerPeers(g, cm)
  {
    hide Inv;
    var k := Key(Subscribers, cm);
    KeyOf(g, k);
    forall id | id in g.pool && g.pool[id].at == k ensures id in g.queues[k] { ObjectOf(g, id); }
  }

  lemma PeersOfNext(g: Graph, q: seq<Id>, i: nat)
    requires i < |q| && q[i] in g.pool
    ensures PeersOf(g, q[..i + 1]) ==
      PeersOf(g, q[..i]) + if g.pool[q[i]].attrs.offerAnswer then {g.pool[q[i]].media} else {}
  {
    assert q[..i + 1] == q[..i] + [q[i]];
  }

  /** Releasing the peers met so far frees no entry still ahead in the queue. */
  lemma RestOfQueueLive(g: Graph, cm: Media, i: nat, j: nat)
    requires Inv(g) && Key(Subscribers, cm) in g.queues
    requires var q := g.queues[Key(Subscribers, cm)]; i <= j < |q|
    ensures var q := g.queues[Key(Subscribers, cm)];
      q[j] in g.pool && q[j] !in LinksWith(g, cm, PeersOf(g, q[..i]))
  {
    hide Inv;
    var k := Key(Subscribers, cm);
    var q := g.queues[k];
    KeyOf(g, k);
    assert q[j] in q;
    forall n | 0 <= n < i
      ensures q[n] in q && q[n] != q[j] && q[n] in g.pool && g.pool[q[n]].media != g.pool[q[j]].media
    {
      AtMostOneLink(g, k, q[n], q[j]);
    }
    assert g.pool[q[j]].media !in PeersOf(g, q[..i]) by {
      forall id | id in q[..i] && id in g.pool ensures g.pool[id].media != g.pool[q[j]].media {
        var n :| 0 <= n < i && q[n] == id;
      }
    }
  }

  // ----- unsubscribing from all at once -----

  /** Both objects of every link with an end in the given queue. */
  function LinksAt(g: Graph, k: Key): (r: set<Id>) {
    set id | id in g.pool &&
      (g.pool[id].at == k || (g.pool[id].at.side == Opposite(k.side) && g.pool[id].media == k.media))
  }

  function UnsubscribeAt(g: Graph, k: Key): (r: Graph) {
    Restrict(g, LinksAt(g, k))
  }

  /** The given objects and their counterparts. */
  function PairsOf(g: Graph, ids: seq<Id>): (r: set<Id>) {
    set id | id in g.pool && (id in ids || g.pool[id].reverse in ids)
  }

  lemma PairsOfWhole(g: Graph, ids: seq<Id>)
    requires Inv(g)
    ensures WholeLinks(g, PairsOf(g, ids))
  {
    hide Inv;
    forall id | id in g.pool ensures ObjectOk(g, id) { ObjectOf(g, id); }
  }

  lemma PairsOfNext(g: Graph, q: seq<Id>, i: nat)
    requires Inv(g) && i < |q| && q[i] in g.pool
    ensures PairsOf(g, q[..i + 1]) == PairsOf(g, q[..i]) + {q[i], g.pool[q[i]].reverse}
  {
    hide Inv;
    assert q[..i + 1] == q[..i] + [q[i]];
    forall id | id in g.pool ensures ObjectOk(g, id) { ObjectOf(g, id); }
  }

  lemma PairsOfQueue(g: Graph, k: Key)
    requires Inv(g) && k in g.queues
    ensures PairsOf(g, g.queues[k]) == LinksAt(g, k)
  {
    hide Inv;
    KeyOf(g, k);
    forall id | id in g.pool ensures id in PairsOf(g, g.queues[k]) <==> id in LinksAt(g, k) {
      ObjectOf(g, id);
      ObjectOf(g, g.pool[id].reverse);
    }
  }

  /** Removing the links met so far frees no entry still ahead in the queue. */
  lemma RestOfLoopLive(g: Graph, k: Key, i: nat, j: nat)
    requires Inv(g) && k in g.queues && i <= j < |g.queues[k]|
    ensures var q := g.queues[k]; q[j] in g.pool && g.pool[q[j]].at == k && q[j] !in PairsOf(g, q[..i])
  {
    hide Inv;
    KeyOf(g, k);
    var q := g.queues[k];
    assert q[j] in q;
    ObjectOf(g, q[j]);
    assert g.pool[q[j]].reverse !in q;
  }

  lemma LinksAtWhole(g: Graph, k: Key)
    requires Inv(g)
    ensures WholeLinks(g, LinksAt(g, k))
  {
    hide Inv;
    forall id | id in g.pool ensures ObjectOk(g, id) { ObjectOf(g, id); }
  }

  lemma UnsubscribeAtInv(g: Graph, k: Key)
    requires Inv(g)
    ensures Inv(UnsubscribeAt(g, k)) && UnsubscribeAt(g, k).medias == g.medias
  {
    LinksAtWhole(g, k);
    RestrictInv(g, LinksAt(g, k));
    hide Inv;
  }

  /** Exactly the links of that queue are gone. */
  lemma UnsubscribeAtLinks(g: Graph, k: Key, x: Media, y: Media)
    requires Inv(g)
    ensures SubscribedTo(UnsubscribeAt(g, k), x, y) <==>
      SubscribedTo(g, x, y) && (if k.side == Subscriptions then x else y) != k.media
  {
    hide Inv;
    if SubscribedTo(g, x, y) { SlotPair(g, Key(Subscriptions, x), y); }
  }

  // ----- subscribing both ways -----

  function AddLink(g: Graph, which: Media, to: Media, attrs: Attrs): (r: Graph)
    requires which in g.medias && to in g.medias && KeysComplete(g)
  {
    if SubscribedTo(g, which, to) then g else Link(g, which, to, attrs)
  }

  /** Attributes carried over from an earlier subscription of `which` to `to`, some of them overridden. */
  function Inherited(g: Graph, which: Media, to: Media): (r: Attrs)
    ensures r.offerAnswer && !r.egress && !r.rtcpOnly
  {
    var k := Key(Subscriptions, which);
    var before :=
      if SubscribedTo(g, which, to) && g.tables[k][to] in g.pool then g.pool[g.tables[k][to]].attrs else NO_ATTRS;
    before.(offerAnswer := true, egress := false, rtcpOnly := false)
  }

  /** The objects released first: all offer/answer links of b, and of a as well in an answer. */
  function Released(g: Graph, a: Media, b: Media, isOffer: bool): (r: set<Id>) {
    (if isOffer then {} else LinksWith(g, a, OfferAnswerPeers(g, a))) + LinksWith(g, b, OfferAnswerPeers(g, b))
  }

  predicate Between(x: Media, y: Media, cm: Media, peers: set<Media>) {
    (x == cm && y in peers) || (y == cm && x in peers)
  }

  /** The same for the link from x to y, told from the graph before the call. */
  predicate LinkReleased(g: Graph, a: Media, b: Media, isOffer: bool, x: Media, y: Media) {
    Between(x, y, b, OfferAnswerPeers(g, b)) || (!isOffer && Between(x, y, a, OfferAnswerPeers(g, a)))
  }

  lemma PoolAfter(g: Graph, dead: set<Id>)
    ensures Restrict(g, dead).pool == g.pool - dead && Restrict(g, dead).medias == g.medias
  {
  }

  lemma ReleasedBefore(g: Graph, a: Media, b: Media, id: Id)
    requires id in LinksWith(g, b, OfferAnswerPeers(g, b))
    ensures var dead := LinksWith(g, a, OfferAnswerPeers(g, a));
      id in dead || id in LinksWith(Restrict(g, dead), b, OfferAnswerPeers(Restrict(g, dead), b))
  {
    hide Restrict;
    var dead := LinksWith(g, a, OfferAnswerPeers(g, a));
    PoolAfter(g, dead);
    var h := Restrict(g, dead);
    var s := g.pool[id];
    var x := if s.at.media == b && s.media in OfferAnswerPeers(g, b) then s.media else s.at.media;
    var w :| w in g.pool && g.pool[w].at == Key(Subscribers, b) && g.pool[w].attrs.offerAnswer && g.pool[w].media == x;
    if w !in dead {
      assert h.pool[w].media in OfferAnswerPeers(h, b);
    }
  }

  /** Releasing a first and b next takes out what releasing both at once would: a link that b no longer
      sees as an offer/answer one was among those of a. */
  lemma ReleaseBoth(g: Graph, a: Media, b: Media)
    requires Inv(g)
    ensures ReleaseAll(ReleaseAll(g, a), b) == Restrict(g, Released(g, a, b, false))
  {
    hide Inv, Restrict, Paired;
    var dead := LinksWith(g, a, OfferAnswerPeers(g, a));
    var h := Restrict(g, dead);
    var more := LinksWith(h, b, OfferAnswerPeers(h, b));
    RestrictTwice(g, dead, more);
    PoolAfter(g, dead);
    forall id | id in more ensures id in LinksWith(g, b, OfferAnswerPeers(g, b)) {
      assert OfferAnswerPeers(h, b) <= OfferAnswerPeers(g, b);
    }
    forall id | id in LinksWith(g, b, OfferAnswerPeers(g, b)) ensures id in dead + more {
      ReleasedBefore(g, a, b, id);
    }
    assert dead + more == Released(g, a, b, false);
  }

  lemma InReleased(g: Graph, a: Media, b: Media, isOffer: bool, x: Media, y: Media)
    requires Inv(g) && SubscribedTo(g, x, y)
    ensures g.tables[Key(Subscriptions, x)][y] in Released(g, a, b, isOffer) <==> LinkReleased(g, a, b, isOffer, x, y)
  {
    hide Inv, OfferAnswerPeers;
    SlotPair(g, Key(Subscriptions, x), y);
  }

  lemma ReleasedWhole(g: Graph, a: Media, b: Media, isOffer: bool)
    requires Inv(g)
    ensures WholeLinks(g, Released(g, a, b, isOffer))
  {
    hide Inv, LinksWith, OfferAnswerPeers;
    LinksWithWhole(g, a, OfferAnswerPeers(g, a));
    LinksWithWhole(g, b, OfferAnswerPeers(g, b));
  }

  /** The graph with the old offer/answer links released, before the two new ones. */
  function Cleared(g: Graph, a: Media, b: Media, isOffer: bool): (r: Graph) {
    Restrict(g, Released(g, a, b, isOffer))
  }

  lemma ClearedInv(g: Graph, a: Media, b: Media, isOffer: bool)
    requires Inv(g)
    ensures Inv(Cleared(g, a, b, isOffer)) && Cleared(g, a, b, isOffer).medias == g.medias
  {
    hide Inv, Released, Restrict;
    ReleasedWhole(g, a, b, isOffer);
    RestrictInv(g, Released(g, a, b, isOffer));
    PoolAfter(g, Released(g, a, b, isOffer));
  }

  lemma ClearedLinks(g: Graph, a: Media, b: Media, isOffer: bool, x: Media, y: Media)
    requires Inv(g)
    ensures SubscribedTo(Cleared(g, a, b, isOffer), x, y) <==>
      SubscribedTo(g, x, y) && !LinkReleased(g, a, b, isOffer, x, y)
  {
    hide Inv, Released, LinkReleased;
    if SubscribedTo(g, x, y) { InReleased(g, a, b, isOffer, x, y); }
  }

  lemma AddLinkInv(g: Graph, which: Media, to: Media, attrs: Attrs)
    requires Inv(g) && which in g.medias && to in g.medias
    ensures KeysComplete(g) && Inv(AddLink(g, which, to, attrs)) && AddLink(g, which, to, attrs).medias == g.medias
    ensures KeysComplete(AddLink(g, which, to, attrs))
  {
    hide Inv, KeysComplete;
    HasKeys(g);
    if !SubscribedTo(g, which, to) { LinkInv(g, which, to, attrs); }
    HasKeys(AddLink(g, which, to, attrs));
  }

  ghost function BothWays(g: Graph, a: Media, b: Media, isOffer: bool): (r: Graph)
    requires Inv(g) && a in g.medias && b in g.medias
    ensures Inv(r) && r.medias == g.medias
  {
    hide Inv, Link, Cleared;
    ClearedInv(g, a, b, isOffer);
    AddLinkInv(Cleared(g, a, b, isOffer), b, a, Inherited(g, b, a));
    var h := AddLink(Cleared(g, a, b, isOffer), b, a, Inherited(g, b, a));
    AddLinkInv(h, a, b, Inherited(g, a, b));
    AddLink(h, a, b, Inherited(g, a, b))
  }

  lemma LinkSubscribes(g: Graph, which: Media, to: Media, attrs: Attrs)
    requires KeysComplete(g) && which in g.medias && to in g.medias
    ensures forall a, b ::
      SubscribedTo(Link(g, which, to, attrs), a, b) <==> SubscribedTo(g, a, b) || (a == which && b == to)
  {
    hide Push;
  }

  /** Exactly which links there are afterwards, for every pair of medias. */
  lemma BothWaysLinks(g: Graph, a: Media, b: Media, isOffer: bool, x: Media, y: Media)
    requires Inv(g) && a in g.medias && b in g.medias
    ensures SubscribedTo(BothWays(g, a, b, isOffer), x, y) <==>
      ((x == a && y == b) || (x == b && y == a) || (SubscribedTo(g, x, y) && !LinkReleased(g, a, b, isOffer, x, y)))
  {
    hide Inv, Link, Cleared, LinkReleased, KeysComplete;
    ClearedInv(g, a, b, isOffer);
    ClearedLinks(g, a, b, isOffer, x, y);
    var c := Cleared(g, a, b, isOffer);
    AddLinkInv(c, b, a, Inherited(g, b, a));
    var h := AddLink(c, b, a, Inherited(g, b, a));
    AddLinkInv(h, a, b, Inherited(g, a, b));
    LinkSubscribes(c, b, a, Inherited(g, b, a));
    LinkSubscribes(h, a, b, Inherited(g, a, b));
  }

  function AttrsOf(g: Graph, x: Media, y: Media): (r: Attrs)
    requires SubscribedTo(g, x, y)
  {
    var id := g.tables[Key(Subscriptions, x)][y];
    if id in g.pool then g.pool[id].attrs else NO_ATTRS
  }

  predicate Survives(g: Graph, a: Media, b: Media, isOffer: bool, x: Media, y: Media) {
    SubscribedTo(g, x, y) && !LinkReleased(g, a, b, isOffer, x, y)
  }

  lemma ClearedAttrs(g: Graph, a: Media, b: Media, isOffer: bool, x: Media, y: Media)
    requires Inv(g) && Survives(g, a, b, isOffer, x, y)
    ensures var c := Cleared(g, a, b, isOffer); SubscribedTo(c, x, y) && AttrsOf(c, x, y) == AttrsOf(g, x, y)
  {
    hide Inv, Released, LinkReleased;
    InReleased(g, a, b, isOffer, x, y);
    SlotPair(g, Key(Subscriptions, x), y);
  }

  lemma KeysAt(g: Graph, m: Media)
    requires KeysComplete(g) && m in g.medias
    ensures forall s :: Key(s, m) in g.queues && Key(s, m) in g.tables
  {
    forall s ensures Key(s, m) in g.queues && Key(s, m) in g.tables {
      match s case Subscriptions => case Subscribers =>
    }
  }

  lemma AddLinkAttrs(g: Graph, which: Media, to: Media, attrs: Attrs, x: Media, y: Media)
    requires Inv(g) && KeysComplete(g) && which in g.medias && to in g.medias
    requires SubscribedTo(g, x, y) || (x == which && y == to)
    ensures var r := AddLink(g, which, to, attrs);
      SubscribedTo(r, x, y) && AttrsOf(r, x, y) == if SubscribedTo(g, x, y) then AttrsOf(g, x, y) else attrs
  {
    hide Inv, KeysComplete, Push;
    KeysAt(g, which);
    KeysAt(g, to);
    if SubscribedTo(g, x, y) {
      SlotPair(g, Key(Subscriptions, x), y);
      ObjectOf(g, g.tables[Key(Subscriptions, x)][y]);
    }
  }

  lemma AddedLink(g: Graph, which: Media, to: Media, attrs: Attrs, x: Media, y: Media)
    requires KeysComplete(g) && which in g.medias && to in g.medias
    ensures SubscribedTo(AddLink(g, which, to, attrs), x, y) <==> SubscribedTo(g, x, y) || (x == which && y == to)
  {
    LinkSubscribes(g, which, to, attrs);
  }

  /** A link that is not released keeps its old attributes, the overrides notwithstanding; a new one has
      the old attributes with the overrides, or the overrides alone. */
  lemma BothWaysAttrs(g: Graph, a: Media, b: Media, isOffer: bool, x: Media, y: Media)
    requires Inv(g) && a in g.medias && b in g.medias && SubscribedTo(BothWays(g, a, b, isOffer), x, y)
    ensures AttrsOf(BothWays(g, a, b, isOffer), x, y) ==
      if Survives(g, a, b, isOffer, x, y) then AttrsOf(g, x, y) else Inherited(g, x, y)
  {
    hide Inv, Cleared, LinkReleased, KeysComplete, AttrsOf, AddLink, Inherited;
    BothWaysLinks(g, a, b, isOffer, x, y);
    ClearedInv(g, a, b, isOffer);
    ClearedLinks(g, a, b, isOffer, x, y);
    var c := Cleared(g, a, b, isOffer);
    AddLinkInv(c, b, a, Inherited(g, b, a));
    if Survives(g, a, b, isOffer, x, y) { ClearedAttrs(g, a, b, isOffer, x, y); }
    var h := AddLink(c, b, a, Inherited(g, b, a));
    if SubscribedTo(c, x, y) || (x == b && y == a) {
      AddLinkAttrs(c, b, a, Inherited(g, b, a), x, y);
    } else {
      AddedLink(c, b, a, Inherited(g, b, a), x, y);
    }
    AddLinkAttrs(h, a, b, Inherited(g, a, b), x, y);
  }

  function BothReleased(g: Graph, a: Media, b: Media, isOffer: bool): (r: seq<Media>) {
    if isOffer then ReleaseList(g, b) else ReleaseList(g, a) + ReleaseList(ReleaseAll(g, a), b)
  }

  function Fresh(medias: set<Media>): (r: Graph)
    ensures Inv(r) && r.medias == medias
  {
    var keys := set m, s | m in medias && s in {Subscriptions, Subscribers} :: Key(s, m);
    Graph(medias, map k | k in keys :: [], map k | k in keys :: map[], map[], 0)
  }

  lemma FreshHasNoLinks(medias: set<Media>, a: Media, b: Media)
    ensures !SubscribedTo(Fresh(medias), a, b) && Fresh(medias).pool == map[]
  {
  }

  lemma LinkMedias(g: Graph, which: Media, to: Media, attrs: Attrs)
    requires which in g.medias && to in g.medias && KeysComplete(g)
    ensures Link(g, which, to, attrs).medias == g.medias
  {
    hide Push, Put;
  }

  lemma LinkedAttrs(g: Graph, which: Media, to: Media, attrs: Attrs)
    requires which in g.medias && to in g.medias && KeysComplete(g)
    ensures SubscribedTo(Link(g, which, to, attrs), which, to) && AttrsOf(Link(g, which, to, attrs), which, to) == attrs
  {
    hide Push, KeysComplete;
  }

  lemma PlainLinkHasNoPeers(medias: set<Media>, a: Media, b: Media)
    requires a in medias && b in medias && KeysComplete(Fresh(medias))
    ensures OfferAnswerPeers(Link(Fresh(medias), a, b, NO_ATTRS), b) == {}
  {
    hide Push, Put, KeysComplete;
    FreshHasNoLinks(medias, a, b);
  }

  /** A plain subscription of 1 to 2 survives an offer between them, so the subscription of 1 is what
      subscribing both ways finds, and it stays without the offer/answer mark. */
  lemma PlainLinkSurvivesOffer()
    ensures var g := Link(Fresh({1, 2}), 1, 2, NO_ATTRS);
      && Inv(g) && Survives(g, 1, 2, true, 1, 2)
      && SubscribedTo(BothWays(g, 1, 2, true), 1, 2) && !AttrsOf(BothWays(g, 1, 2, true), 1, 2).offerAnswer
  {
    hide Inv, Link, Fresh, OfferAnswerPeers, BothWays, Inherited, KeysComplete;
    var g0 := Fresh({1, 2});
    FreshHasNoLinks({1, 2}, 1, 2);
    HasKeys(g0);
    LinkInv(g0, 1, 2, NO_ATTRS);
    var g := Link(g0, 1, 2, NO_ATTRS);
    LinkSubscribes(g0, 1, 2, NO_ATTRS);
    PlainLinkHasNoPeers({1, 2}, 1, 2);
    LinkedAttrs(g0, 1, 2, NO_ATTRS);
    assert g.medias == g0.medias by { LinkMedias(g0, 1, 2, NO_ATTRS); }
    BothWaysLinks(g, 1, 2, true, 1, 2);
    BothWaysAttrs(g, 1, 2, true, 1, 2);
  }

  lemma {:induction false} PeerListIs(g: Graph, ids: seq<Id>, x: Media)
    requires forall id :: id in ids ==> id in g.pool
    ensures x in PeerList(g.pool, ids) <==> x in PeersOf(g, ids)
    decreases |ids|
  {
    if ids != [] {
      var n := |ids| - 1;
      PeerListIs(g, ids[..n], x);
      PeersOfNext(g, ids, n);
      assert ids[..n + 1] == ids;
    }
  }

  /** The medias that a release reports are the offer/answer subscribers. */
  lemma ReleaseListIs(g: Graph, cm: Media, x: Media)
    requires Inv(g) && Key(Subscribers, cm) in g.queues
    ensures x in ReleaseList(g, cm) <==> x in OfferAnswerPeers(g, cm)
  {
    hide Inv, PeerList, PeersOf, OfferAnswerPeers;
    KeyOf(g, Key(Subscribers, cm));
    PeersOfQueue(g, cm);
    PeerListIs(g, g.queues[Key(Subscribers, cm)], x);
  }

  // ----- both ends of a link -----

  /** A new link: its two entries point at each other and carry the same given attributes, and each goes to
      the head of its queue if it is an offer/answer one and to the tail otherwise. */
  lemma LinkMeaning(g: Graph, which: Media, to: Media, attrs: Attrs)
    requires KeysComplete(g) && which in g.medias && to in g.medias
    ensures var l := Link(g, which, to, attrs);
      var ks, kr := Key(Subscriptions, which), Key(Subscribers, to);
      exists s, r ::
        && s in l.pool && l.pool[s] == Sub(ks, to, r, attrs)
        && r in l.pool && l.pool[r] == Sub(kr, which, s, attrs)
        && ks in g.queues && kr in g.queues && ks in l.queues && kr in l.queues
        && l.queues[ks] == (if attrs.offerAnswer then [s] + g.queues[ks] else g.queues[ks] + [s])
        && l.queues[kr] == (if attrs.offerAnswer then [r] + g.queues[kr] else g.queues[kr] + [r])
  {
    var l := Link(g, which, to, attrs);
    assert l.pool[g.ids].at.side == Subscriptions && l.pool[g.ids + 1].at.side == Subscribers;
  }

  /** Both ends of every link carry the same attributes. */
  ghost predicate EndsAgree(g: Graph) {
    forall id :: id in g.pool && g.pool[id].reverse in g.pool ==> g.pool[g.pool[id].reverse].attrs == g.pool[id].attrs
  }

  lemma LinkEndsAgree(g: Graph, which: Media, to: Media, attrs: Attrs)
    requires Inv(g) && KeysComplete(g) && which in g.medias && to in g.medias && EndsAgree(g)
    ensures EndsAgree(Link(g, which, to, attrs))
  {
    hide Inv, KeysComplete, Push, Put;
    var l := Link(g, which, to, attrs);
    forall id | id in l.pool && l.pool[id].reverse in l.pool
      ensures l.pool[l.pool[id].reverse].attrs == l.pool[id].attrs
    {
      if id in g.pool {
        ObjectOf(g, id);
        ObjectOf(g, g.pool[id].reverse);
      }
    }
  }

  lemma RestrictEndsAgree(g: Graph, dead: set<Id>)
    requires EndsAgree(g)
    ensures EndsAgree(Restrict(g, dead))
  {
    hide Restrict;
    PoolAfter(g, dead);
  }

  lemma AddLinkEndsAgree(g: Graph, which: Media, to: Media, attrs: Attrs)
    requires Inv(g) && KeysComplete(g) && which in g.medias && to in g.medias && EndsAgree(g)
    ensures EndsAgree(AddLink(g, which, to, attrs))
  {
    hide Inv, KeysComplete, Link, EndsAgree;
    if !SubscribedTo(g, which, to) { LinkEndsAgree(g, which, to, attrs); }
  }

  /** The offer/answer subscribers of a media are those whose subscription is an offer/answer one. */
  lemma PeersAre(g: Graph, x: Media, cm: Media)
    requires Inv(g) && EndsAgree(g)
    ensures x in OfferAnswerPeers(g, cm) <==> SubscribedTo(g, x, cm) && AttrsOf(g, x, cm).offerAnswer
  {
    hide Inv;
    if x in OfferAnswerPeers(g, cm) {
      var id :| id in g.pool && g.pool[id].at == Key(Subscribers, cm) && g.pool[id].attrs.offerAnswer
             && g.pool[id].media == x;
      ObjectOf(g, id);
      ObjectOf(g, g.pool[id].reverse);
    }
    if SubscribedTo(g, x, cm) {
      SlotPair(g, Key(Subscriptions, x), cm);
      var s := g.tables[Key(Subscriptions, x)][cm];
      var r := g.pool[s].reverse;
      ObjectOf(g, s);
      assert g.pool[r].at == Key(Subscribers, cm) && g.pool[r].media == x;
      assert g.pool[r].attrs == g.pool[s].attrs;
    }
  }

  // ----- runs -----

  datatype Op =
    | Subscribe(which: Media, to: Media, attrs: Attrs)
    | Drop(which: Media, from: Media)
    | DropAll(k: Key)
    | Connect(a: Media, b: Media, isOffer: bool)

  predicate OpOn(medias: set<Media>, op: Op) {
    match op
    case Subscribe(w, t, _) => w in medias && t in medias
    case Drop(w, f) => w in medias && f in medias
    case DropAll(k) => k.media in medias
    case Connect(a, b, _) => a in medias && b in medias
  }

  ghost function Apply(g: Graph, op: Op): (r: Graph)
    requires Inv(g) && OpOn(g.medias, op)
    ensures Inv(r) && r.medias == g.medias
  {
    hide Inv;
    match op
    case Subscribe(w, t, attrs) => AddLinkInv(g, w, t, attrs); AddLink(g, w, t, attrs)
    case Drop(w, f) => UnsubscribeInv(g, w, f); Unsubscribe(g, w, f)
    case DropAll(k) => UnsubscribeAtInv(g, k); UnsubscribeAt(g, k)
    case Connect(a, b, isOffer) => BothWays(g, a, b, isOffer)
  }

  ghost function After(medias: set<Media>, ops: seq<Op>): (r: Graph)
    requires forall op :: op in ops ==> OpOn(medias, op)
    ensures Inv(r) && r.medias == medias
  {
    hide Inv, Apply;
    if ops == [] then Fresh(medias) else Apply(After(medias, ops[..|ops| - 1]), ops[|ops| - 1])
  }

  /** The hash table next to a queue holds exactly its entries, keyed by their media. */
  ghost predicate TableIsQueue(g: Graph, k: Key)
    requires k in g.queues && k in g.tables
  {
    && (forall id :: id in g.queues[k] ==>
          id in g.pool && g.pool[id].media in g.tables[k] && g.tables[k][g.pool[id].media] == id)
    && (forall m :: m in g.tables[k] ==>
          g.tables[k][m] in g.queues[k] && g.tables[k][m] in g.pool && g.pool[g.tables[k][m]].media == m)
  }

  lemma TableHoldsQueue(g: Graph, k: Key)
    requires Inv(g) && k in g.queues
    ensures k in g.tables && TableIsQueue(g, k)
  {
    hide Inv;
    KeyOf(g, k);
    forall id | id in g.queues[k]
      ensures id in g.pool && g.pool[id].media in g.tables[k] && g.tables[k][g.pool[id].media] == id
    {
      OneLinkPerMedia(g, k, id);
    }
    forall m | m in g.tables[k] ensures SlotOk(g, k, m) && g.tables[k][m] in g.queues[k] {
      assert SlotOk(g, k, m);
      ObjectOf(g, g.tables[k][m]);
    }
  }

  /** After any sequence of operations, A subscribes to B exactly when B lists A as a subscriber, at
      most once, and the two objects point at each other. */
  lemma AlwaysMirrored(medias: set<Media>, ops: seq<Op>, a: Media, b: Media)
    requires forall op :: op in ops ==> OpOn(medias, op)
    ensures var g := After(medias, ops);
      && (SubscribedTo(g, a, b) <==> ListsSubscriber(g, b, a))
      && (SubscribedTo(g, a, b) ==>
          (var s, r := g.tables[Key(Subscriptions, a)][b], g.tables[Key(Subscribers, b)][a];
           s in g.pool && r in g.pool && g.pool[s].reverse == r && g.pool[r].reverse == s))
      && (forall k :: k in g.queues ==> k in g.tables && TableIsQueue(g, k))
      && (forall k, i, j :: k in g.queues && 0 <= i < j < |g.queues[k]| ==>
          (var q := g.queues[k]; q[i] in g.pool && q[j] in g.pool && g.pool[q[i]].media != g.pool[q[j]].media))
  {
    hide Inv, After;
    var g := After(medias, ops);
    Mirrored(g, a, b);
    forall k | k in g.queues ensures k in g.tables && TableIsQueue(g, k) { TableHoldsQueue(g, k); }
    forall k, i, j | k in g.queues && 0 <= i < j < |g.queues[k]|
      ensures var q := g.queues[k]; q[i] in g.pool && q[j] in g.pool && g.pool[q[i]].media != g.pool[q[j]].media
    {
      KeyOf(g, k);
      AtMostOneLink(g, k, g.queues[k][i], g.queues[k][j]);
    }
  }

  lemma BothWaysIs(g: Graph, a: Media, b: Media, isOffer: bool)
    requires Inv(g) && a in g.medias && b in g.medias
    ensures var c := Cleared(g, a, b, isOffer); c.medias == g.medias && KeysComplete(c)
    ensures var h := AddLink(Cleared(g, a, b, isOffer), b, a, Inherited(g, b, a));
      h.medias == g.medias && KeysComplete(h)
    ensures BothWays(g, a, b, isOffer) ==
      AddLink(AddLink(Cleared(g, a, b, isOffer), b, a, Inherited(g, b, a)), a, b, Inherited(g, a, b))
  {
    hide Inv, KeysComplete, Cleared, AddLink;
    ClearedInv(g, a, b, isOffer);
    AddLinkInv(Cleared(g, a, b, isOffer), b, a, Inherited(g, b, a));
  }

  lemma BothWaysEndsAgree(g: Graph, a: Media, b: Media, isOffer: bool)
    requires Inv(g) && a in g.medias && b in g.medias && EndsAgree(g)
    ensures EndsAgree(BothWays(g, a, b, isOffer))
  {
    hide Inv, EndsAgree, AddLink, KeysComplete, Inherited, Restrict, Released, BothWays;
    var c := Cleared(g, a, b, isOffer);
    BothWaysIs(g, a, b, isOffer);
    ClearedInv(g, a, b, isOffer);
    RestrictEndsAgree(g, Released(g, a, b, isOffer));
    AddLinkInv(c, b, a, Inherited(g, b, a));
    AddLinkEndsAgree(c, b, a, Inherited(g, b, a));
    AddLinkEndsAgree(AddLink(c, b, a, Inherited(g, b, a)), a, b, Inherited(g, a, b));
  }

  lemma ApplyEndsAgree(g: Graph, op: Op)
    requires Inv(g) && OpOn(g.medias, op) && EndsAgree(g)
    ensures EndsAgree(Apply(g, op))
  {
    hide Inv, EndsAgree, AddLink, Restrict, KeysComplete, Cleared, Inherited;
    match op
    case Subscribe(w, t, attrs) =>
      HasKeys(g);
      AddLinkEndsAgree(g, w, t, attrs);
    case Drop(w, f) => RestrictEndsAgree(g, LinkBetween(g, w, f));
    case DropAll(k) => RestrictEndsAgree(g, LinksAt(g, k));
    case Connect(a, b, isOffer) => BothWaysEndsAgree(g, a, b, isOffer);
  }

  /** After any sequence of operations, the two ends of every link carry the same attributes. */
  lemma {:induction false} EndsAlwaysAgree(medias: set<Media>, ops: seq<Op>)
    requires forall op :: op in ops ==> OpOn(medias, op)
    ensures EndsAgree(After(medias, ops))
    decreases |ops|
  {
    if ops != [] {
      var before := ops[..|ops| - 1];
      EndsAlwaysAgree(medias, before);
      hide Inv, EndsAgree, Apply;
      ApplyEndsAgree(After(medias, before), ops[|ops| - 1]);
    }
  }

  /** Connecting a and b after any sequence of operations: each of the two links that was not there already,
      or was released, is an offer/answer one seen from its subscriber queue too. */
  lemma ConnectMakesPeers(medias: set<Media>, ops: seq<Op>, a: Media, b: Media, isOffer: bool)
    requires forall op :: op in ops ==> OpOn(medias, op)
    requires a in medias && b in medias
    ensures var g := After(medias, ops);
      var r := Apply(g, Connect(a, b, isOffer));
      && (!Survives(g, a, b, isOffer, a, b) ==> a in OfferAnswerPeers(r, b))
      && (!Survives(g, a, b, isOffer, b, a) ==> b in OfferAnswerPeers(r, a))
  {
    hide Inv, After, BothWays, OfferAnswerPeers, LinkReleased, EndsAgree, Inherited;
    var g := After(medias, ops);
    EndsAlwaysAgree(medias, ops);
    ApplyEndsAgree(g, Connect(a, b, isOffer));
    var r := BothWays(g, a, b, isOffer);
    PeersAre(r, a, b);
    PeersAre(r, b, a);
    BothWaysLinks(g, a, b, isOffer, a, b);
    BothWaysLinks(g, a, b, isOffer, b, a);
    BothWaysAttrs(g, a, b, isOffer, a, b);
    BothWaysAttrs(g, a, b, isOffer, b, a);
  }

  /** What connecting a and b does to a third media x: b loses its other offer/answer subscribers and what
      it subscribes to among them; so does a in an answer, but in an offer a keeps all its other links,
      because it can be a branched offer. */
  lemma ConnectReleases(g: Graph, a: Media, b: Media, isOffer: bool, x: Media)
    requires Inv(g) && a in g.medias && b in g.medias && x != a && x != b
    ensures var r := BothWays(g, a, b, isOffer);
      && (x in OfferAnswerPeers(g, b) ==> !SubscribedTo(r, x, b) && !SubscribedTo(r, b, x))
      && (!isOffer && x in OfferAnswerPeers(g, a) ==> !SubscribedTo(r, x, a) && !SubscribedTo(r, a, x))
      && (isOffer && a != b ==>
            (SubscribedTo(r, x, a) <==> SubscribedTo(g, x, a)) && (SubscribedTo(r, a, x) <==> SubscribedTo(g, a, x)))
  {
    hide Inv, BothWays, OfferAnswerPeers;
    BothWaysLinks(g, a, b, isOffer, x, b);
    BothWaysLinks(g, a, b, isOffer, b, x);
    BothWaysLinks(g, a, b, isOffer, x, a);
    BothWaysLinks(g, a, b, isOffer, a, x);
  }

  /** Which table slot an object of the link from a to b is found in. */
  lemma LinkEnds(g: Graph, a: Media, b: Media, id: Id)
    requires Inv(g) && id in g.pool && SubscribedTo(g, a, b)
    requires id in LinkBetween(g, a, b)
    ensures ListsSubscriber(g, b, a)
    ensures id == g.tables[Key(Subscribers, b)][a] <==> g.pool[id].at == Key(Subscribers, b)
    ensures id == g.tables[Key(Subscriptions, a)][b] <==> g.pool[id].at == Key(Subscriptions, a)
  {
    hide Inv;
    Mirrored(g, a, b);
    ObjectOf(g, id);
    SlotPair(g, Key(Subscribers, b), a);
    SlotPair(g, Key(Subscriptions, a), b);
  }

  lemma ClearedSteps(g: Graph, a: Media, b: Media, isOffer: bool)
    requires Inv(g)
    ensures Cleared(g, a, b, isOffer) == ReleaseAll(if isOffer then g else ReleaseAll(g, a), b)
  {
    hide Restrict, Inv, LinksWith, OfferAnswerPeers;
    if isOffer {
      assert Released(g, a, b, true) == LinksWith(g, b, OfferAnswerPeers(g, b));
    } else {
      ReleaseBoth(g, a, b);
    }
  }

  lemma ReleaseNone(g: Graph, cm: Media)
    requires Inv(g)
    ensures PeersOf(g, []) == {} && Restrict(g, LinksWith(g, cm, {})) == g
  {
    assert LinksWith(g, cm, {}) == {};
    RestrictNone(g, {});
  }

  lemma StillThere(g: Graph, dead: set<Id>, id: Id)
    requires id in g.pool && id !in dead
    ensures id in Restrict(g, dead).pool && Restrict(g, dead).pool[id] == g.pool[id]
    ensures Restrict(g, dead).medias == g.medias
  {
  }

  lemma MediaOf(g: Graph, id: Id)
    requires Inv(g) && id in g.pool
    ensures g.pool[id].media in g.medias
  {
    ObjectOf(g, id);
  }

  lemma PairsOfNone(g: Graph)
    ensures PairsOf(g, []) == {}
  {
  }

  lemma LoopStart(g: Graph, q: seq<Id>)
    requires Inv(g)
    ensures q[..0] == [] && Restrict(g, PairsOf(g, q[..0])) == g
  {
    hide Inv, Restrict;
    RestrictNone(g, {});
    assert q[..0] == [];
    PairsOfNone(g);
  }

  /** One round of either loop. */
  lemma LoopStep(g: Graph, q: seq<Id>, i: nat)
    requires Inv(g) && i < |q| && q[i] in g.pool
    ensures var h, pair := Restrict(g, PairsOf(g, q[..i])), {q[i], g.pool[q[i]].reverse};
      Restrict(h, pair) == Restrict(g, PairsOf(g, q[..i + 1])) && Inv(Restrict(g, PairsOf(g, q[..i + 1])))
  {
    hide Inv, Restrict, PairsOf;
    PairsOfNext(g, q, i);
    RestrictTwice(g, PairsOf(g, q[..i]), {q[i], g.pool[q[i]].reverse});
    PairsOfWhole(g, q[..i + 1]);
    RestrictInv(g, PairsOf(g, q[..i + 1]));
  }

  // ----- the code itself -----

  class MediaGraph {
    var medias: set<Media>
    var queues: map<Key, seq<Id>>
    var tables: map<Key, map<Media, Id>>
    var pool: map<Id, Sub>
    var ids: nat

    function View(): Graph
      reads this
    {
      Graph(medias, queues, tables, pool, ids)
    }

    constructor (medias: set<Media>)
      ensures View() == Fresh(medias) && Inv(View())
    {
      var g := Fresh(medias);
      this.medias, queues, tables, pool, ids := medias, g.queues, g.tables, g.pool, g.ids;
    }

    /** add_media_subscription. It answers with the existing subscription of `which`, or with the new
        entry in the subscriber queue of `to`. */
    method AddMediaSubscription(which: Media, to: Media, attrs: Option<Attrs>) returns (ret: Id)
      requires Inv(View()) && which in medias && to in medias
      modifies this
      ensures Inv(View()) && SubscribedTo(View(), which, to) && ret in pool
      ensures old(SubscribedTo(View(), which, to)) ==>
        pool[ret].at == Key(Subscriptions, which) && pool[ret].media == to
      ensures KeysComplete(old(View()))
      ensures View() == AddLink(old(View()), which, to, if attrs.Some? then attrs.value else NO_ATTRS)
      ensures !old(SubscribedTo(View(), which, to)) ==>
        var a, s := if attrs.Some? then attrs.value else NO_ATTRS, pool[ret].reverse;
        var ks, kr := Key(Subscriptions, which), Key(Subscribers, to);
        && pool[ret] == Sub(kr, which, s, a) && s in pool && pool[s] == Sub(ks, to, ret, a)
        && ks in old(queues) && kr in old(queues) && ks in queues && kr in queues
        && queues[ks] == (if a.offerAnswer then [s] + old(queues)[ks] else old(queues)[ks] + [s])
        && queues[kr] == (if a.offerAnswer then [ret] + old(queues)[kr] else old(queues)[kr] + [ret])
    {
      hide Inv, KeysComplete, Put;
      HasKeys(View());
      KeysAt(View(), which);
      KeysAt(View(), to);
      var ks, kr := Key(Subscriptions, which), Key(Subscribers, to);
      if to in tables[ks] {
        SlotPair(View(), ks, to);
        return tables[ks][to];
      }
      var a := if attrs.Some? then attrs.value else NO_ATTRS;
      LinkInv(View(), which, to, a);
      LinkSubscribes(View(), which, to, a);
      var s: Id, r: Id := ids, ids + 1;
      ids := ids + 2;
      pool := pool[s := Sub(ks, to, r, a)][r := Sub(kr, which, s, a)];
      queues := queues[ks := Push(queues[ks], s, a.offerAnswer)][kr := Push(queues[kr], r, a.offerAnswer)];
      tables := tables[ks := Put(tables[ks], to, s)][kr := Put(tables[kr], which, r)];
      ret := r;
    }

    /** __remove_sub_link_store without a store. */
    method RemoveSubLink(which: Media, ms: Id)
      requires Inv(View()) && ms in pool && pool[ms].at == Key(Subscriptions, which)
      modifies this
      ensures old(pool[ms].reverse in pool)
      ensures View() == Restrict(old(View()), {ms, old(pool[ms].reverse)})
    {
      hide Inv, Restrict, Survivors;
      RemoveLinkIsRestrict(View(), which, ms);
      var from, rev := pool[ms].media, pool[ms].reverse;
      var ks, kr := Key(Subscriptions, which), Key(Subscribers, from);
      queues := queues[ks := Survivors(queues[ks], {ms})][kr := Survivors(queues[kr], {rev})];
      tables := tables[ks := tables[ks] - {pool[ms].media}][kr := tables[kr] - {pool[rev].media}];
      pool := pool - {ms, rev};
    }

    method UnsubscribeMedia(which: Media, from: Media) returns (ok: bool)
      requires Inv(View()) && which in medias && from in medias
      modifies this
      ensures ok <==> old(SubscribedTo(View(), which, from))
      ensures View() == Unsubscribe(old(View()), which, from) && Inv(View()) && medias == old(medias)
    {
      HasKeys(View());
      UnsubscribeInv(View(), which, from);
      LinkBetweenIs(View(), which, from);
      var k := Key(Subscriptions, which);
      if from !in tables[k] {
        return false;
      }
      SlotPair(View(), k, from);
      hide Inv, Restrict, LinkBetween;
      RemoveSubLink(which, tables[k][from]);
      return true;
    }

    /** __unsubscribe_all_offer_answer_medias. The loop keeps its next entry across the removals. */
    method UnsubscribeAllOfferAnswer(cm: Media) returns (released: seq<Media>)
      requires Inv(View()) && cm in medias
      modifies this
      ensures View() == ReleaseAll(old(View()), cm) && Inv(View()) && medias == old(medias)
      ensures released == ReleaseList(old(View()), cm)
      ensures forall m :: m in released <==> m in OfferAnswerPeers(old(View()), cm)
    {
      hide Inv, Restrict, LinksWith, PeersOf, PeerList, Unsubscribe, OfferAnswerPeers;
      ghost var g := View();
      HasKeys(g);
      var order := queues[Key(Subscribers, cm)];
      released := [];
      ReleaseNone(g, cm);
      assert order[..0] == [];
      PeerListNone(pool);
      for i := 0 to |order|
        invariant medias == g.medias && Inv(View()) && View() == Restrict(g, LinksWith(g, cm, PeersOf(g, order[..i])))
        invariant released == PeerList(g.pool, order[..i])
        invariant forall m :: m in released <==> m in PeersOf(g, order[..i])
      {
        RestOfQueueLive(g, cm, i, i);
        StillThere(g, LinksWith(g, cm, PeersOf(g, order[..i])), order[i]);
        PeersOfNext(g, order, i);
        PeerListNext(g.pool, order, i);
        var ms := pool[order[i]];
        if ms.attrs.offerAnswer {
          ReleaseOne(g, cm, PeersOf(g, order[..i]), ms.media);
          released := released + [ms.media];
          MediaOf(g, order[i]);
          var ok := UnsubscribeMedia(ms.media, cm);
          ok := UnsubscribeMedia(cm, ms.media);
          if i + 1 < |order| {
            RestOfQueueLive(g, cm, i + 1, i + 1);
            StillThere(g, LinksWith(g, cm, PeersOf(g, order[..i + 1])), order[i + 1]);
            assert order[i + 1] in pool;
          }
        } else {
          assert PeersOf(g, order[..i]) + {} == PeersOf(g, order[..i]);
        }
      }
      assert order[..|order|] == order;
      PeersOfQueue(g, cm);
    }

    /** __unsubscribe_media_from_all without a store. */
    method UnsubscribeFromAll(media: Media)
      requires Inv(View()) && media in medias
      modifies this
      ensures View() == UnsubscribeAt(old(View()), Key(Subscriptions, media)) && Inv(View())
    {
      hide Inv, Restrict, PairsOf;
      ghost var g, k := View(), Key(Subscriptions, media);
      HasKeys(g);
      var order := queues[Key(Subscriptions, media)];
      LoopStart(g, order);
      for i := 0 to |order|
        invariant Inv(View()) && View() == Restrict(g, PairsOf(g, order[..i]))
      {
        RestOfLoopLive(g, k, i, i);
        StillThere(g, PairsOf(g, order[..i]), order[i]);
        LoopStep(g, order, i);
        RemoveSubLink(media, order[i]);
      }
      assert order[..|order|] == order;
      PairsOfQueue(g, k);
    }

    /** __unsubscribe_all_from_media: the same from the other end. */
    method UnsubscribeAllFrom(media: Media)
      requires Inv(View()) && media in medias
      modifies this
      ensures View() == UnsubscribeAt(old(View()), Key(Subscribers, media)) && Inv(View())
    {
      hide Inv, Restrict, PairsOf;
      ghost var g, k := View(), Key(Subscribers, media);
      HasKeys(g);
      var order := queues[Key(Subscribers, media)];
      LoopStart(g, order);
      for i := 0 to |order|
        invariant Inv(View()) && View() == Restrict(g, PairsOf(g, order[..i]))
      {
        RestOfLoopLive(g, k, i, i);
        StillThere(g, PairsOf(g, order[..i]), order[i]);
        LoopStep(g, order, i);
        ObjectOf(View(), order[i]);
        var rev := pool[order[i]];
        assert {rev.reverse, pool[rev.reverse].reverse} == {order[i], rev.reverse};
        RemoveSubLink(rev.media, rev.reverse);
      }
      assert order[..|order|] == order;
      PairsOfQueue(g, k);
    }

    method CopyAttrs(which: Media, to: Media) returns (attrs: Attrs)
      requires Inv(View()) && which in medias && to in medias
      ensures attrs == Inherited(View(), which, to)
      ensures attrs.offerAnswer && !attrs.egress && !attrs.rtcpOnly
      ensures attrs.flags == if SubscribedTo(View(), which, to) then AttrsOf(View(), which, to).flags else 0
    {
      hide Inv;
      HasKeys(View());
      var k := Key(Subscriptions, which);
      attrs := NO_ATTRS;
      if to in tables[k] {
        SlotPair(View(), k, to);
        attrs := pool[tables[k][to]].attrs;
      }
      attrs := attrs.(offerAnswer := true, egress := false, rtcpOnly := false);
    }

    method ReleaseOfferAnswer(a: Media, b: Media, isOffer: bool) returns (released: seq<Media>)
      requires Inv(View()) && a in medias && b in medias
      modifies this
      ensures View() == Cleared(old(View()), a, b, isOffer) && Inv(View()) && medias == old(medias)
      ensures released == BothReleased(old(View()), a, b, isOffer)
    {
      hide Inv, ReleaseList, ReleaseAll, OfferAnswerPeers, Cleared;
      ClearedSteps(View(), a, b, isOffer);
      released := [];
      if !isOffer { released := UnsubscribeAllOfferAnswer(a); }
      var more := UnsubscribeAllOfferAnswer(b);
      released := released + more;
    }

    /** __subscribe_medias_both_ways. What it answers is the subscriber entry of b unless a's subscription
        was there already, or a and b are the same media. */
    method SubscribeMediasBothWays(a: Media, b: Media, isOffer: bool) returns (ret: Id, released: seq<Media>)
      requires Inv(View()) && a in medias && b in medias
      modifies this
      ensures View() == BothWays(old(View()), a, b, isOffer) && released == BothReleased(old(View()), a, b, isOffer)
      ensures ListsSubscriber(View(), b, a) && SubscribedTo(View(), a, b)
      ensures ret == tables[Key(Subscribers, b)][a] <==> a != b && !Survives(old(View()), a, b, isOffer, a, b)
      ensures ret == tables[Key(Subscriptions, a)][b] <==> a == b || Survives(old(View()), a, b, isOffer, a, b)
    {
      hide Inv, KeysComplete, BothReleased, Cleared, LinkReleased, AddLink, BothWays, Inherited, SubscribedTo;
      ghost var g := View();
      BothWaysIs(g, a, b, isOffer);
      var aAttrs := CopyAttrs(a, b);
      var bAttrs := CopyAttrs(b, a);
      released := ReleaseOfferAnswer(a, b, isOffer);
      ClearedLinks(g, a, b, isOffer, a, b);
      HasKeys(View());
      AddedLink(View(), b, a, bAttrs, a, b);
      var _ := AddMediaSubscription(b, a, Some(bAttrs));
      ret := AddMediaSubscription(a, b, Some(aAttrs));
      LinkEnds(View(), a, b, ret);
    }
  }

  /** Where the returned object is not the subscriber entry: an offer over a plain subscription. */
  method OfferOverPlainLink() returns (g: MediaGraph, ret: Id)
    ensures SubscribedTo(g.View(), 1, 2) && ListsSubscriber(g.View(), 2, 1)
    ensures ret == g.tables[Key(Subscriptions, 1)][2] && ret != g.tables[Key(Subscribers, 2)][1]
  {
    hide Inv, Link, Fresh, BothWays, BothReleased, Survives, Cleared;
    g := new MediaGraph({1, 2});
    FreshHasNoLinks({1, 2}, 1, 2);
    LinkMedias(g.View(), 1, 2, NO_ATTRS) by { HasKeys(g.View()); }
    var first := g.AddMediaSubscription(1, 2, None);
    PlainLinkSurvivesOffer();
    var released;
    ret, released := g.SubscribeMediasBothWays(1, 2, true);
  }
}
