/** The walk that re-initialises every media linked to a given one and rebuilds its sink lists. It
    marks each media it enters with the number of the current update, so it ends on any graph. */
module SubscriberWalk {
  import opened Options
  import S = Subscriptions
  import opened Words

  type Media = S.Media

  /** One end of a media's k-th stream pair. */
  datatype Port = Port(media: Media, pair: nat, rtcp: bool)

  datatype Sink = Sink(to: Port, attrs: S.Attrs)

  /** The three handler lists of a packet stream. */
  datatype Lists = Lists(rtpSinks: seq<Sink>, rtcpSinks: seq<Sink>, mirrors: seq<Sink>)

  datatype Pair = Pair(rtp: Lists, rtcp: Lists)

  const EMPTY := Pair(Lists([], [], []), Lists([], [], []))

  datatype Flags = Flags(echo: bool, blackhole: bool, send: bool, rtcpMux: bool)

  datatype Entry = Entry(media: Media, attrs: S.Attrs)

  /** What the walk reads: both subscription queues, the media flags and the number of stream pairs. */
  datatype Call = Call(medias: set<Media>, subscribers: map<Media, seq<Entry>>, subscriptions: map<Media, seq<Entry>>,
                       flags: map<Media, Flags>, pairs: map<Media, nat>)

  predicate Listed(medias: set<Media>, es: seq<Entry>) {
    forall i :: 0 <= i < |es| ==> es[i].media in medias
  }

  predicate ValidCall(c: Call) {
    && c.subscribers.Keys == c.subscriptions.Keys == c.flags.Keys == c.pairs.Keys == c.medias
    && forall m :: m in c.medias ==> Listed(c.medias, c.subscribers[m]) && Listed(c.medias, c.subscriptions[m])
  }

  // ----- sink lists -----

  datatype Role = Rtp | Rtcp | Mirror

  /** The media plays its own traffic back, or pretends to. */
  predicate Reflects(f: Flags) {
    f.echo || f.blackhole
  }

  /** Whether the subscriber gets a handler of this kind on the k-th pair. */
  predicate Picks(c: Call, a: Media, e: Entry, k: nat, role: Role)
    requires a in c.flags && e.media in c.flags && e.media in c.pairs
  {
    k < c.pairs[e.media] &&
    match role
    case Rtp => !e.attrs.egress && (Reflects(c.flags[a]) || c.flags[e.media].send)
    case Rtcp => !e.attrs.egress
    case Mirror => e.attrs.egress
  }

  /** Where that handler sends to. */
  function Target(c: Call, a: Media, e: Entry, k: nat, role: Role): (r: Sink)
    requires a in c.flags && e.media in c.flags
  {
    var to := if role != Mirror && Reflects(c.flags[a]) then a else e.media;
    Sink(Port(to, k, role == Rtcp && to in c.flags && !c.flags[to].rtcpMux), e.attrs)
  }

  function One(c: Call, a: Media, e: Entry, k: nat, role: Role): (r: seq<Sink>)
    requires a in c.flags && e.media in c.flags && e.media in c.pairs
  {
    if Picks(c, a, e, k, role) then [Target(c, a, e, k, role)] else []
  }

  function Handlers(c: Call, a: Media, es: seq<Entry>, k: nat, role: Role): (r: seq<Sink>)
    requires ValidCall(c) && a in c.medias && Listed(c.medias, es)
  {
    if es == [] then [] else
      Handlers(c, a, es[..|es| - 1], k, role) + One(c, a, es[|es| - 1], k, role)
  }

  function PairFor(c: Call, a: Media, es: seq<Entry>, k: nat): (r: Pair)
    requires ValidCall(c) && a in c.medias && Listed(c.medias, es)
  {
    var rtcp := Handlers(c, a, es, k, Rtcp);
    Pair(Lists(Handlers(c, a, es, k, Rtp), rtcp, Handlers(c, a, es, k, Mirror)), Lists([], rtcp, []))
  }

  /** The stream pairs carry what the first n subscribers ask for and nothing else. */
  ghost predicate WiredTo(c: Call, a: Media, n: nat, pairs: seq<Pair>)
    requires ValidCall(c) && a in c.medias && n <= |c.subscribers[a]|
  {
    |pairs| == c.pairs[a] && forall k :: 0 <= k < |pairs| ==> pairs[k] == PairFor(c, a, c.subscribers[a][..n], k)
  }

  ghost predicate Wired(c: Call, a: Media, pairs: seq<Pair>)
    requires ValidCall(c) && a in c.medias
  {
    |pairs| == c.pairs[a] && forall k :: 0 <= k < |pairs| ==> pairs[k] == PairFor(c, a, c.subscribers[a], k)
  }

  /** The pair with one more subscriber's handlers at the end of its lists. */
  function Extended(c: Call, a: Media, e: Entry, k: nat, p: Pair): (r: Pair)
    requires a in c.flags && e.media in c.flags && e.media in c.pairs
  {
    var rtcp := One(c, a, e, k, Rtcp);
    Pair(Lists(p.rtp.rtpSinks + One(c, a, e, k, Rtp), p.rtp.rtcpSinks + rtcp, p.rtp.mirrors + One(c, a, e, k, Mirror)),
         Lists(p.rtcp.rtpSinks, p.rtcp.rtcpSinks + rtcp, p.rtcp.mirrors))
  }

  /** What one subscriber adds to a stream pair, told by the flags. An egress subscriber is mirrored the RTP
      and gets no RTCP. Any other gets the RTP if its media sends, and the RTCP on the RTP port if its media
      multiplexes; a media that echoes or discards is itself the recipient of both. */
  predicate SinksAdded(c: Call, a: Media, e: Entry, k: nat, p: Pair, p': Pair)
    requires a in c.flags && e.media in c.flags && e.media in c.pairs
  {
    var self := c.flags[a].echo || c.flags[a].blackhole;
    var to := if self then a else e.media;
    var rtp := if self || c.flags[e.media].send then [Sink(Port(to, k, false), e.attrs)] else [];
    var rtcp := [Sink(Port(to, k, !c.flags[to].rtcpMux), e.attrs)];
    if k >= c.pairs[e.media] then p' == p
    else if e.attrs.egress then
      p' == p.(rtp := p.rtp.(mirrors := p.rtp.mirrors + [Sink(Port(e.media, k, false), e.attrs)]))
    else
      && p'.rtp == Lists(p.rtp.rtpSinks + rtp, p.rtp.rtcpSinks + rtcp, p.rtp.mirrors)
      && p'.rtcp == p.rtcp.(rtcpSinks := p.rtcp.rtcpSinks + rtcp)
  }

  lemma ExtendedMeaning(c: Call, a: Media, e: Entry, k: nat, p: Pair)
    requires a in c.flags && e.media in c.flags && e.media in c.pairs
    ensures SinksAdded(c, a, e, k, p, Extended(c, a, e, k, p))
  {
  }

  lemma PairForNext(c: Call, a: Media, es: seq<Entry>, i: nat, k: nat)
    requires ValidCall(c) && a in c.medias && Listed(c.medias, es) && i < |es|
    ensures PairFor(c, a, es[..i + 1], k) == Extended(c, a, es[i], k, PairFor(c, a, es[..i], k))
  {
    hide One;
    assert es[..i + 1][..i] == es[..i];
  }

  /** Positions in the subscriber queue that yield a handler, in order. */
  function Positions(c: Call, a: Media, es: seq<Entry>, k: nat, role: Role): (r: seq<nat>)
    requires ValidCall(c) && a in c.medias && Listed(c.medias, es)
  {
    if es == [] then [] else
      var n := |es| - 1;
      Positions(c, a, es[..n], k, role) + if Picks(c, a, es[n], k, role) then [n] else []
  }

  /** The handlers are those of the subscribers at the given positions, which are all that get one. */
  ghost predicate TakenFrom(c: Call, a: Media, es: seq<Entry>, k: nat, role: Role, ps: seq<nat>, hs: seq<Sink>)
    requires ValidCall(c) && a in c.medias && Listed(c.medias, es)
  {
    && |ps| == |hs|
    && (forall i :: 0 <= i < |ps| ==>
          ps[i] < |es| && Picks(c, a, es[ps[i]], k, role) && hs[i] == Target(c, a, es[ps[i]], k, role))
    && (forall i, j :: 0 <= i < j < |ps| ==> ps[i] < ps[j])
    && (forall n :: 0 <= n < |es| && Picks(c, a, es[n], k, role) ==> n in ps)
  }

  lemma TakenNext(c: Call, a: Media, es: seq<Entry>, k: nat, role: Role, ps: seq<nat>, hs: seq<Sink>)
    requires ValidCall(c) && a in c.medias && Listed(c.medias, es) && es != []
    requires TakenFrom(c, a, es[..|es| - 1], k, role, ps, hs)
    ensures var n := |es| - 1;
      var ps' := ps + if Picks(c, a, es[n], k, role) then [n] else [];
      TakenFrom(c, a, es, k, role, ps', hs + One(c, a, es[n], k, role))
  {
    hide Target;
    var n := |es| - 1;
    var t, last := es[..n], Picks(c, a, es[n], k, role);
    var ps' := ps + if last then [n] else [];
    hide Picks;
    forall m | 0 <= m < |es| && Picks(c, a, es[m], k, role) ensures m in ps' {
      if m < n { assert t[m] == es[m]; assert m in ps; } else { assert ps'[|ps|] == n; }
    }
    forall i | 0 <= i < |ps| ensures ps[i] < n && t[ps[i]] == es[ps[i]] {}
  }

  /** Queue order: the handlers are those of the picked subscribers, each once, first come first. */
  lemma {:induction false} HandlersInOrder(c: Call, a: Media, es: seq<Entry>, k: nat, role: Role)
    requires ValidCall(c) && a in c.medias && Listed(c.medias, es)
    ensures TakenFrom(c, a, es, k, role, Positions(c, a, es, k, role), Handlers(c, a, es, k, role))
  {
    if es == [] {
      assert Positions(c, a, es, k, role) == [] && Handlers(c, a, es, k, role) == [];
    } else {
      var t := es[..|es| - 1];
      HandlersInOrder(c, a, t, k, role);
      TakenNext(c, a, es, k, role, Positions(c, a, t, k, role), Handlers(c, a, t, k, role));
      hide TakenFrom, Picks, One;
    }
  }

  lemma FlagsOf(c: Call, m: Media)
    requires ValidCall(c) && m in c.medias
    ensures m in c.flags && m in c.pairs
  {
  }

  /** Whether s is the handler of this kind that a subscriber is to get on the k-th pair, told by the flags. */
  predicate IsSinkFor(c: Call, a: Media, e: Entry, k: nat, role: Role, s: Sink)
    requires a in c.flags && e.media in c.flags && e.media in c.pairs
  {
    var self := c.flags[a].echo || c.flags[a].blackhole;
    && k < c.pairs[e.media] && s.to.pair == k && s.attrs == e.attrs
    && match role
       case Mirror => e.attrs.egress && s.to.media == e.media && !s.to.rtcp
       case Rtp =>
         && !e.attrs.egress && !s.to.rtcp
         && (if self then s.to.media == a else s.to.media == e.media && c.flags[e.media].send)
       case Rtcp =>
         && !e.attrs.egress
         && (if self then s.to.media == a && (s.to.rtcp <==> !c.flags[a].rtcpMux)
             else s.to.media == e.media && (s.to.rtcp <==> !c.flags[e.media].rtcpMux))
  }

  lemma SinkForMeaning(c: Call, a: Media, e: Entry, k: nat, role: Role, s: Sink)
    requires a in c.flags && e.media in c.flags && e.media in c.pairs
    ensures IsSinkFor(c, a, e, k, role, s) <==> Picks(c, a, e, k, role) && s == Target(c, a, e, k, role)
  {
  }

  /** The handlers of each kind are exactly those that the flags give some subscriber in the queue. */
  lemma HandlersMeaning(c: Call, a: Media, es: seq<Entry>, k: nat, role: Role, s: Sink)
    requires ValidCall(c) && a in c.medias && Listed(c.medias, es)
    ensures s in Handlers(c, a, es, k, role) <==>
      exists n :: 0 <= n < |es| && es[n].media in c.medias && IsSinkFor(c, a, es[n], k, role, s)
  {
    hide ValidCall, Picks, Target, Handlers, IsSinkFor, Positions;
    HandlersInOrder(c, a, es, k, role);
    var ps, hs := Positions(c, a, es, k, role), Handlers(c, a, es, k, role);
    forall n | 0 <= n < |es| ensures es[n].media in c.flags && es[n].media in c.pairs {
      FlagsOf(c, es[n].media);
    }
    FlagsOf(c, a);
    if i :| 0 <= i < |hs| && hs[i] == s {
      SinkForMeaning(c, a, es[ps[i]], k, role, s);
    }
    if n :| 0 <= n < |es| && IsSinkFor(c, a, es[n], k, role, s) {
      SinkForMeaning(c, a, es[n], k, role, s);
      var i :| 0 <= i < |ps| && ps[i] == n;
      assert hs[i] == s;
    }
  }

  ghost predicate OnePerMedia(es: seq<Entry>) {
    forall i, j :: 0 <= i < j < |es| ==> es[i].media != es[j].media
  }

  ghost predicate NoTargetTwice(hs: seq<Sink>) {
    forall i, j :: 0 <= i < j < |hs| ==> hs[i].to != hs[j].to
  }

  /** No target gets two handlers, unless the media reflects and more than one subscriber is served:
      then its own port is listed once for each of them. */
  lemma RepeatedHandlersExactly(c: Call, a: Media, es: seq<Entry>, k: nat, role: Role)
    requires ValidCall(c) && a in c.medias && Listed(c.medias, es) && OnePerMedia(es)
    ensures NoTargetTwice(Handlers(c, a, es, k, role)) <==>
      (role == Mirror || !Reflects(c.flags[a]) || |Positions(c, a, es, k, role)| <= 1)
  {
    HandlersInOrder(c, a, es, k, role);
    var ps, hs := Positions(c, a, es, k, role), Handlers(c, a, es, k, role);
    if role != Mirror && Reflects(c.flags[a]) {
      if |ps| > 1 { assert hs[0].to == hs[1].to; }
    } else {
      forall i, j | 0 <= i < j < |hs| ensures hs[i].to != hs[j].to {
        assert ps[i] < ps[j];
        assert es[ps[i]].media != es[ps[j]].media;
      }
    }
  }

  /** An echoing media 1 with subscribers 2 and 3: its own port is listed twice. */
  lemma EchoListedTwice()
    ensures var es := [Entry(2, S.NO_ATTRS), Entry(3, S.NO_ATTRS)];
      var plain := Flags(false, false, true, false);
      var c := Call({1, 2, 3}, map[1 := es, 2 := [], 3 := []], map[1 := [], 2 := [], 3 := []],
                    map[1 := plain.(echo := true), 2 := plain, 3 := plain], map[1 := 1, 2 := 1, 3 := 1]);
      && ValidCall(c)
      && Handlers(c, 1, es, 0, Rtp) == [Sink(Port(1, 0, false), S.NO_ATTRS), Sink(Port(1, 0, false), S.NO_ATTRS)]
  {
    var es := [Entry(2, S.NO_ATTRS), Entry(3, S.NO_ATTRS)];
    var plain := Flags(false, false, true, false);
    var c := Call({1, 2, 3}, map[1 := es, 2 := [], 3 := []], map[1 := [], 2 := [], 3 := []],
                  map[1 := plain.(echo := true), 2 := plain, 3 := plain], map[1 := 1, 2 := 1, 3 := 1]);
    assert c.subscribers.Keys == {1, 2, 3} && c.subscriptions.Keys == {1, 2, 3};
    assert c.flags.Keys == {1, 2, 3} && c.pairs.Keys == {1, 2, 3};
    assert es[..1] == [Entry(2, S.NO_ATTRS)] && es[..1][..0] == [];
    var own := Sink(Port(1, 0, false), S.NO_ATTRS);
    assert One(c, 1, es[0], 0, Rtp) == [own] && One(c, 1, es[1], 0, Rtp) == [own];
    assert ValidCall(c);
    assert Handlers(c, 1, es[..1], 0, Rtp) == [] + One(c, 1, es[0], 0, Rtp);
    assert |es| == 2 && es[..|es| - 1] == es[..1];
    assert Handlers(c, 1, es, 0, Rtp) == Handlers(c, 1, es[..1], 0, Rtp) + One(c, 1, es[1], 0, Rtp);
  }

  // ----- connectedness -----

  predicate Linked(c: Call, x: Media, y: Media)
    requires ValidCall(c) && x in c.medias
  {
    (exists e :: e in c.subscribers[x] && e.media == y) || (exists e :: e in c.subscriptions[x] && e.media == y)
  }

  type Marks = map<Media, nat>

  predicate Unmarked(marks: Marks, iter: nat, x: Media) {
    x in marks && marks[x] != iter
  }

  /** A chain of links through medias that do not carry the number yet. */
  ghost predicate Path(c: Call, marks: Marks, iter: nat, p: seq<Media>)
    requires ValidCall(c)
  {
    && |p| > 0 && (forall i :: 0 <= i < |p| ==> p[i] in c.medias && Unmarked(marks, iter, p[i]))
    && forall i :: 0 <= i < |p| - 1 ==> Linked(c, p[i], p[i + 1])
  }

  ghost predicate PathFrom(c: Call, marks: Marks, iter: nat, x: Media, y: Media, p: seq<Media>)
    requires ValidCall(c)
  {
    Path(c, marks, iter, p) && p[0] == x && p[|p| - 1] == y
  }

  ghost predicate Reaches(c: Call, marks: Marks, iter: nat, x: Media, y: Media)
    requires ValidCall(c)
  {
    exists p :: PathFrom(c, marks, iter, x, y, p)
  }

  lemma ReachesSelf(c: Call, marks: Marks, iter: nat, x: Media)
    requires ValidCall(c) && x in c.medias && Unmarked(marks, iter, x)
    ensures Reaches(c, marks, iter, x, x)
  {
    assert PathFrom(c, marks, iter, x, x, [x]);
  }

  /** A chain seen later, with more medias marked, was there before; one more link may precede it. */
  lemma ReachesVia(c: Call, marks: Marks, later: Marks, iter: nat, x: Media, n: Media, y: Media)
    requires ValidCall(c) && x in c.medias && Unmarked(marks, iter, x) && Linked(c, x, n)
    requires forall m :: m in c.medias && Unmarked(later, iter, m) ==> Unmarked(marks, iter, m)
    requires Reaches(c, later, iter, n, y)
    ensures Reaches(c, marks, iter, x, y)
  {
    hide Linked, Unmarked;
    var p :| PathFrom(c, later, iter, n, y, p);
    var q := [x] + p;
    forall i | 0 <= i < |q| - 1 ensures Linked(c, q[i], q[i + 1]) {
      if i > 0 { assert q[i] == p[i - 1] && q[i + 1] == p[i]; }
    }
    assert PathFrom(c, marks, iter, x, y, q);
  }

  /** A set that contains, with each of its medias, all unmarked ones linked to it contains every chain. */
  lemma {:induction false} ClosedUnderPath(c: Call, marks: Marks, iter: nat, p: seq<Media>, seen: set<Media>)
    requires ValidCall(c) && Path(c, marks, iter, p) && p[0] in seen && seen <= c.medias
    requires forall x, y :: x in seen && Linked(c, x, y) && Unmarked(marks, iter, y) ==> y in seen
    ensures p[|p| - 1] in seen
    decreases |p|
  {
    hide Linked, Unmarked;
    if |p| > 1 {
      var q := p[1..];
      assert Linked(c, p[0], p[1]);
      forall i | 0 <= i < |q| - 1 ensures Linked(c, q[i], q[i + 1]) { assert Linked(c, p[i + 1], p[i + 2]); }
      ClosedUnderPath(c, marks, iter, q, seen);
    }
  }

  // The same without marks.

  ghost predicate Chain(c: Call, x: Media, y: Media, p: seq<Media>)
    requires ValidCall(c)
  {
    && |p| > 0 && p[0] == x && p[|p| - 1] == y && (forall i :: 0 <= i < |p| ==> p[i] in c.medias)
    && forall i :: 0 <= i < |p| - 1 ==> Linked(c, p[i], p[i + 1])
  }

  ghost predicate Connected(c: Call, x: Media, y: Media)
    requires ValidCall(c)
  {
    exists p :: Chain(c, x, y, p)
  }

  ghost predicate FreshNumber(marks: Marks, iter: nat) {
    forall m :: m in marks ==> marks[m] != iter
  }

  lemma FreshReach(c: Call, marks: Marks, iter: nat, x: Media, y: Media)
    requires ValidCall(c) && marks.Keys == c.medias && FreshNumber(marks, iter)
    ensures Reaches(c, marks, iter, x, y) <==> Connected(c, x, y)
  {
    hide Linked;
    if Reaches(c, marks, iter, x, y) {
      var p :| PathFrom(c, marks, iter, x, y, p);
      assert Chain(c, x, y, p);
    }
    if Connected(c, x, y) {
      var p :| Chain(c, x, y, p);
      assert PathFrom(c, marks, iter, x, y, p);
    }
  }

  // ----- the subscription graph behind it -----

  /** A subscription queue as the walk reads it. */
  function Entries(g: S.Graph, k: S.Key): (r: seq<Entry>)
    requires k in g.queues && forall id :: id in g.queues[k] ==> id in g.pool
    ensures |r| == |g.queues[k]|
    ensures forall i :: 0 <= i < |r| ==> r[i] == Entry(g.pool[g.queues[k][i]].media, g.pool[g.queues[k][i]].attrs)
  {
    seq(|g.queues[k]|, i requires 0 <= i < |g.queues[k]| =>
      assert g.queues[k][i] in g.queues[k];
      Entry(g.pool[g.queues[k][i]].media, g.pool[g.queues[k][i]].attrs))
  }

  ghost predicate QueueFrom(es: seq<Entry>, g: S.Graph, k: S.Key) {
    && k in g.queues && (forall id :: id in g.queues[k] ==> id in g.pool)
    && es == Entries(g, k)
  }

  ghost predicate QueuesFrom(c: Call, g: S.Graph, m: Media)
    requires ValidCall(c) && m in c.medias
  {
    && QueueFrom(c.subscribers[m], g, S.Key(S.Subscribers, m))
    && QueueFrom(c.subscriptions[m], g, S.Key(S.Subscriptions, m))
  }

  /** The call read off a subscription graph: same queues, same order. */
  ghost predicate ReadFrom(c: Call, g: S.Graph)
    requires ValidCall(c)
  {
    c.medias == g.medias && forall m :: m in c.medias ==> QueuesFrom(c, g, m)
  }

  /** A queue lists a media exactly when the table next to it does, and at most once. */
  lemma QueueLists(es: seq<Entry>, g: S.Graph, k: S.Key, y: Media)
    requires S.Inv(g) && QueueFrom(es, g, k)
    ensures k in g.tables && ((exists e :: e in es && e.media == y) <==> y in g.tables[k]) && OnePerMedia(es)
  {
    hide S.Inv;
    S.KeyOf(g, k);
    var q := g.queues[k];
    if y in g.tables[k] {
      S.SlotPair(g, k, y);
      var id := g.tables[k][y];
      S.ObjectOf(g, id);
      var i :| 0 <= i < |q| && q[i] == id;
      assert es[i] in es && es[i].media == y;
    }
    if e :| e in es && e.media == y {
      var i :| 0 <= i < |es| && es[i] == e;
      assert q[i] in q;
      S.OneLinkPerMedia(g, k, q[i]);
    }
    forall i, j | 0 <= i < j < |es| ensures es[i].media != es[j].media {
      assert q[i] in q && q[j] in q;
      S.AtMostOneLink(g, k, q[i], q[j]);
    }
  }

  /** On a subscription graph, linked means subscribed one way or the other, so it goes both ways. */
  lemma LinkedIsSubscribed(c: Call, g: S.Graph, x: Media, y: Media)
    requires ValidCall(c) && S.Inv(g) && ReadFrom(c, g) && x in c.medias && y in c.medias
    ensures Linked(c, x, y) <==> S.SubscribedTo(g, x, y) || S.SubscribedTo(g, y, x)
    ensures Linked(c, x, y) <==> Linked(c, y, x)
  {
    hide S.Inv, QueueFrom;
    forall m | m in c.medias ensures QueuesFrom(c, g, m) {}
    QueueLists(c.subscribers[x], g, S.Key(S.Subscribers, x), y);
    QueueLists(c.subscriptions[x], g, S.Key(S.Subscriptions, x), y);
    QueueLists(c.subscribers[y], g, S.Key(S.Subscribers, y), x);
    QueueLists(c.subscriptions[y], g, S.Key(S.Subscriptions, y), x);
    S.Mirrored(g, x, y);
    S.Mirrored(g, y, x);
  }

  lemma ConnectedBothWays(c: Call, g: S.Graph, x: Media, y: Media)
    requires ValidCall(c) && S.Inv(g) && ReadFrom(c, g) && Connected(c, x, y)
    ensures Connected(c, y, x)
  {
    hide S.Inv, Linked, ReadFrom;
    var p :| Chain(c, x, y, p);
    var n := |p|;
    var q := seq(n, i requires 0 <= i < n => p[n - 1 - i]);
    forall i | 0 <= i < n - 1 ensures Linked(c, q[i], q[i + 1]) {
      assert Linked(c, p[n - 2 - i], p[n - 2 - i + 1]);
      LinkedIsSubscribed(c, g, p[n - 2 - i], p[n - 1 - i]);
    }
    assert Chain(c, y, x, q);
  }

  // ----- what one walk does -----

  type Streams = map<Media, seq<Pair>>

  ghost predicate AllLinkedMarked(c: Call, marks: Marks, iter: nat, x: Media)
    requires ValidCall(c) && x in c.medias
  {
    forall y :: Linked(c, x, y) ==> !Unmarked(marks, iter, y)
  }

  /** From one state to another the given medias, and no others, were visited, each once: marked, and
      except those still being worked on, wired to their subscribers and with everything they link to
      marked as well. */
  ghost predicate Walked(c: Call, iter: nat, marks: Marks, streams: Streams, marks': Marks, streams': Streams,
                         visited: seq<Media>, open: set<Media>)
    requires ValidCall(c) && marks.Keys == streams.Keys == c.medias
  {
    && marks'.Keys == streams'.Keys == c.medias
    && S.NoRepeats(visited)
    && (forall x :: x in visited ==> x in c.medias && marks[x] != iter)
    && (forall x :: x in c.medias ==> marks'[x] == if x in visited then iter else marks[x])
    && (forall x :: x in c.medias && x !in visited ==> streams'[x] == streams[x])
    && (forall x :: x in visited && x !in open ==> Wired(c, x, streams'[x]) && AllLinkedMarked(c, marks', iter, x))
  }

  lemma WalkedStart(c: Call, iter: nat, marks: Marks, streams: Streams, m: Media, ps: seq<Pair>)
    requires ValidCall(c) && marks.Keys == streams.Keys == c.medias && m in c.medias && marks[m] != iter
    ensures Walked(c, iter, marks, streams, marks[m := iter], streams[m := ps], [m], {m})
  {
  }

  lemma WalkedSinks(c: Call, iter: nat, marks: Marks, streams: Streams, marks': Marks, streams': Streams,
                    visited: seq<Media>, m: Media, ps: seq<Pair>)
    requires ValidCall(c) && marks.Keys == streams.Keys == c.medias
    requires Walked(c, iter, marks, streams, marks', streams', visited, {m}) && m in visited
    ensures Walked(c, iter, marks, streams, marks', streams'[m := ps], visited, {m})
  {
    hide Wired, AllLinkedMarked;
  }

  lemma MarkedStays(c: Call, iter: nat, marks: Marks, marks': Marks, visited: seq<Media>, x: Media)
    requires ValidCall(c) && x in c.medias && marks.Keys == marks'.Keys == c.medias
    requires forall y :: y in c.medias ==> marks'[y] == if y in visited then iter else marks[y]
    requires AllLinkedMarked(c, marks, iter, x)
    ensures AllLinkedMarked(c, marks', iter, x)
  {
    hide Linked;
  }

  ghost predicate MarksStay(marks: Marks, marks': Marks, iter: nat) {
    forall x :: !Unmarked(marks, iter, x) ==> !Unmarked(marks', iter, x)
  }

  /** A nested walk continues the one it was called from. */
  lemma WalkedJoin(c: Call, iter: nat, m0: Marks, s0: Streams, m1: Marks, s1: Streams, m2: Marks, s2: Streams,
                   v: seq<Media>, w: seq<Media>, open: set<Media>)
    requires ValidCall(c) && m0.Keys == s0.Keys == c.medias && m1.Keys == s1.Keys == c.medias
    requires Walked(c, iter, m0, s0, m1, s1, v, open) && Walked(c, iter, m1, s1, m2, s2, w, {})
    ensures Walked(c, iter, m0, s0, m2, s2, v + w, open)
    ensures forall x :: x in v ==> x in s1 && x in s2 && s2[x] == s1[x]
    ensures MarksStay(m1, m2, iter)
  {
    hide Wired, AllLinkedMarked, ValidCall;
    assert S.NoRepeats(v + w) by {
      forall i, j | 0 <= i < j < |v + w| ensures (v + w)[i] != (v + w)[j] {
        if i < |v| <= j { assert v[i] in v && w[j - |v|] in w; }
      }
    }
    forall x | x in v + w && x !in open ensures Wired(c, x, s2[x]) && AllLinkedMarked(c, m2, iter, x) {
      if x in v { MarkedStays(c, iter, m1, m2, w, x); }
    }
  }

  ghost function Remaining(c: Call, marks: Marks, iter: nat): (r: set<Media>) {
    set x | x in c.medias && Unmarked(marks, iter, x)
  }

  ghost function Left(c: Call, marks: Marks, iter: nat): (r: nat) {
    |Remaining(c, marks, iter)|
  }

  lemma RemainingShrinks(c: Call, iter: nat, marks: Marks, streams: Streams, marks': Marks, streams': Streams,
                         visited: seq<Media>, m: Media)
    requires ValidCall(c) && marks.Keys == streams.Keys == c.medias && m in visited
    requires Walked(c, iter, marks, streams, marks', streams', visited, {m})
    ensures Remaining(c, marks', iter) < Remaining(c, marks, iter) && Left(c, marks', iter) < Left(c, marks, iter)
  {
    hide Wired, AllLinkedMarked;
    var now, before := Remaining(c, marks', iter), Remaining(c, marks, iter);
    assert m in before && m !in now;
    assert before == now + (before - now) && m in before - now;
  }

  ghost predicate AllReached(c: Call, marks: Marks, iter: nat, m: Media, visited: seq<Media>)
    requires ValidCall(c)
  {
    forall x :: x in visited ==> Reaches(c, marks, iter, m, x)
  }

  lemma ReachedJoin(c: Call, iter: nat, marks: Marks, later: Marks, m: Media, n: Media, v: seq<Media>, w: seq<Media>)
    requires ValidCall(c) && m in c.medias && Unmarked(marks, iter, m) && Linked(c, m, n)
    requires Remaining(c, later, iter) <= Remaining(c, marks, iter)
    requires AllReached(c, marks, iter, m, v) && AllReached(c, later, iter, n, w)
    ensures AllReached(c, marks, iter, m, v + w)
  {
    hide Reaches, Linked;
    forall x | x in w ensures Reaches(c, marks, iter, m, x) {
      forall y | y in c.medias && Unmarked(later, iter, y) ensures Unmarked(marks, iter, y) {
        assert y in Remaining(c, later, iter);
      }
      ReachesVia(c, marks, later, iter, m, n, x);
    }
  }

  lemma LinkedTo(c: Call, m: Media, e: Entry)
    requires ValidCall(c) && m in c.medias && (e in c.subscribers[m] || e in c.subscriptions[m])
    ensures Linked(c, m, e.media)
  {
  }

  lemma WalkedNothing(c: Call, iter: nat, marks: Marks, streams: Streams, m: Media)
    requires ValidCall(c) && marks.Keys == streams.Keys == c.medias && m in c.medias && marks[m] == iter
    ensures Walked(c, iter, marks, streams, marks, streams, [], {})
    ensures AllReached(c, marks, iter, m, []) && !Unmarked(marks, iter, m)
  {
  }

  lemma ReachedStart(c: Call, marks: Marks, iter: nat, m: Media)
    requires ValidCall(c) && m in c.medias && m in marks && marks[m] != iter
    ensures AllReached(c, marks, iter, m, [m]) && Unmarked(marks, iter, m)
  {
    ReachesSelf(c, marks, iter, m);
  }

  lemma WiredNext(c: Call, a: Media, i: nat, ps: seq<Pair>, ps': seq<Pair>)
    requires ValidCall(c) && a in c.medias && i < |c.subscribers[a]| && WiredTo(c, a, i, ps) && |ps'| == |ps|
    requires forall k :: 0 <= k < |ps| ==> ps'[k] == Extended(c, a, c.subscribers[a][i], k, ps[k])
    ensures WiredTo(c, a, i + 1, ps')
  {
    hide PairFor, Extended;
    forall k | 0 <= k < |ps'| ensures ps'[k] == PairFor(c, a, c.subscribers[a][..i + 1], k) {
      PairForNext(c, a, c.subscribers[a], i, k);
    }
  }

  lemma WiredAll(c: Call, a: Media, ps: seq<Pair>)
    requires ValidCall(c) && a in c.medias && WiredTo(c, a, |c.subscribers[a]|, ps)
    ensures Wired(c, a, ps)
  {
    assert c.subscribers[a][..|c.subscribers[a]|] == c.subscribers[a];
  }

  lemma QueuesOf(c: Call, m: Media)
    requires ValidCall(c) && m in c.medias
    ensures m in c.subscribers && m in c.subscriptions && m in c.pairs
    ensures Listed(c.medias, c.subscribers[m]) && Listed(c.medias, c.subscriptions[m])
  {
  }

  /** m has been entered and what it links to is being walked. */
  ghost predicate Working(c: Call, iter: nat, marks: Marks, streams: Streams, marks': Marks, streams': Streams,
                          visited: seq<Media>, m: Media)
    requires ValidCall(c) && marks.Keys == streams.Keys == c.medias
  {
    && m in c.medias && Unmarked(marks, iter, m) && m in visited
    && Walked(c, iter, marks, streams, marks', streams', visited, {m}) && AllReached(c, marks, iter, m, visited)
  }

  ghost predicate FirstMarked(es: seq<Entry>, i: nat, marks: Marks, iter: nat)
    requires i <= |es|
  {
    forall j :: 0 <= j < i ==> !Unmarked(marks, iter, es[j].media)
  }

  lemma FirstMarkedStays(es: seq<Entry>, i: nat, marks: Marks, marks': Marks, iter: nat)
    requires i <= |es| && FirstMarked(es, i, marks, iter) && MarksStay(marks, marks', iter)
    ensures FirstMarked(es, i, marks', iter)
  {
  }

  lemma NoneYet(es: seq<Entry>, marks: Marks, iter: nat)
    ensures FirstMarked(es, 0, marks, iter)
  {
  }

  lemma FirstMarkedNext(es: seq<Entry>, i: nat, marks: Marks, marks': Marks, iter: nat)
    requires i < |es| && FirstMarked(es, i, marks, iter) && MarksStay(marks, marks', iter)
    requires !Unmarked(marks', iter, es[i].media)
    ensures FirstMarked(es, i + 1, marks', iter)
  {
    FirstMarkedStays(es, i, marks, marks', iter);
  }

  lemma WorkStarts(c: Call, iter: nat, marks: Marks, streams: Streams, m: Media, ps: seq<Pair>)
    requires ValidCall(c) && marks.Keys == streams.Keys == c.medias && m in c.medias && marks[m] != iter
    ensures Working(c, iter, marks, streams, marks[m := iter], streams[m := ps], [m], m)
    ensures m in c.subscribers
    ensures FirstMarked(c.subscribers[m], 0, marks[m := iter], iter)
  {
    hide Walked, AllReached;
    WalkedStart(c, iter, marks, streams, m, ps);
    ReachedStart(c, marks, iter, m);
  }

  lemma WorkSinks(c: Call, iter: nat, marks: Marks, streams: Streams, marks': Marks, streams': Streams,
                  visited: seq<Media>, m: Media, ps: seq<Pair>)
    requires ValidCall(c) && marks.Keys == streams.Keys == c.medias
    requires Working(c, iter, marks, streams, marks', streams', visited, m)
    ensures Working(c, iter, marks, streams, marks', streams'[m := ps], visited, m)
    ensures m in streams' && ps == streams'[m] ==> streams'[m := ps] == streams'
    ensures Left(c, marks', iter) < Left(c, marks, iter)
  {
    hide Walked, AllReached, Unmarked, Left;
    WalkedSinks(c, iter, marks, streams, marks', streams', visited, m, ps);
    RemainingShrinks(c, iter, marks, streams, marks', streams', visited, m);
  }

  lemma AllMarked(c: Call, iter: nat, marks: Marks, m: Media)
    requires ValidCall(c) && m in c.medias
    requires FirstMarked(c.subscribers[m], |c.subscribers[m]|, marks, iter)
    requires FirstMarked(c.subscriptions[m], |c.subscriptions[m]|, marks, iter)
    ensures AllLinkedMarked(c, marks, iter, m)
  {
    hide Unmarked;
  }

  lemma WorkEnds(c: Call, iter: nat, marks: Marks, streams: Streams, marks': Marks, streams': Streams,
                 visited: seq<Media>, m: Media)
    requires ValidCall(c) && marks.Keys == streams.Keys == c.medias && m in streams'
    requires Working(c, iter, marks, streams, marks', streams', visited, m)
    requires WiredTo(c, m, |c.subscribers[m]|, streams'[m])
    requires FirstMarked(c.subscribers[m], |c.subscribers[m]|, marks', iter)
    requires FirstMarked(c.subscriptions[m], |c.subscriptions[m]|, marks', iter)
    ensures Walked(c, iter, marks, streams, marks', streams', visited, {})
    ensures AllReached(c, marks, iter, m, visited) && !Unmarked(marks', iter, m)
  {
    hide WiredTo, Wired, AllReached, AllLinkedMarked;
    WiredAll(c, m, streams'[m]);
    AllMarked(c, iter, marks', m);
  }

  /** The bookkeeping of one recursive call, from m over the link to n. */
  lemma NestedWalk(c: Call, iter: nat, m0: Marks, s0: Streams, m1: Marks, s1: Streams, m2: Marks, s2: Streams,
                   m: Media, e: Entry, v: seq<Media>, w: seq<Media>)
    requires ValidCall(c) && m0.Keys == s0.Keys == c.medias && m1.Keys == s1.Keys == c.medias && m in c.medias
    requires Working(c, iter, m0, s0, m1, s1, v, m) && Walked(c, iter, m1, s1, m2, s2, w, {})
    requires AllReached(c, m1, iter, e.media, w) && (e in c.subscribers[m] || e in c.subscriptions[m])
    ensures Working(c, iter, m0, s0, m2, s2, v + w, m)
    ensures m in s2 && s2[m] == s1[m] && MarksStay(m1, m2, iter)
  {
    hide AllReached, Linked, Unmarked, Walked;
    WalkedJoin(c, iter, m0, s0, m1, s1, m2, s2, v, w, {m});
    RemainingShrinks(c, iter, m0, s0, m1, s1, v, m);
    LinkedTo(c, m, e);
    ReachedJoin(c, iter, m0, m1, m, e.media, v, w);
  }

  ghost predicate ReachedFrom(c: Call, marks: Marks, iter: nat, starts: seq<Media>, x: Media)
    requires ValidCall(c)
  {
    exists m :: m in starts && Reaches(c, marks, iter, m, x)
  }

  ghost predicate ConnectedFrom(c: Call, starts: seq<Media>, x: Media)
    requires ValidCall(c)
  {
    exists m :: m in starts && Connected(c, m, x)
  }

  lemma PathStarts(c: Call, marks: Marks, iter: nat, p: seq<Media>)
    requires ValidCall(c) && Path(c, marks, iter, p)
    ensures |p| > 0 && Unmarked(marks, iter, p[0])
  {
  }

  lemma VisitedClosed(c: Call, iter: nat, marks: Marks, streams: Streams, marks': Marks, streams': Streams,
                      visited: seq<Media>, seen: set<Media>)
    requires ValidCall(c) && marks.Keys == streams.Keys == c.medias
    requires Walked(c, iter, marks, streams, marks', streams', visited, {}) && seen == set y | y in visited
    ensures seen <= c.medias
    ensures forall m :: Unmarked(marks, iter, m) && !Unmarked(marks', iter, m) ==> m in seen
    ensures forall y, z :: y in seen && Linked(c, y, z) && Unmarked(marks, iter, z) ==> z in seen
  {
    hide Wired, Linked, ValidCall;
    forall y, z | y in seen && Linked(c, y, z) && Unmarked(marks, iter, z) ensures z in seen {
      assert AllLinkedMarked(c, marks', iter, y);
    }
  }

  /** Finished walks from some medias have visited exactly what those reach over unmarked ones. */
  lemma WalkedIsReach(c: Call, iter: nat, marks: Marks, streams: Streams, marks': Marks, streams': Streams,
                      visited: seq<Media>, starts: seq<Media>, x: Media)
    requires ValidCall(c) && marks.Keys == streams.Keys == c.medias
    requires Walked(c, iter, marks, streams, marks', streams', visited, {})
    requires forall y :: y in visited ==> ReachedFrom(c, marks, iter, starts, y)
    requires forall m :: m in starts ==> m in c.medias && !Unmarked(marks', iter, m)
    ensures x in visited <==> ReachedFrom(c, marks, iter, starts, x)
  {
    hide ValidCall, Linked, Walked, Path;
    if ReachedFrom(c, marks, iter, starts, x) {
      var m :| m in starts && Reaches(c, marks, iter, m, x);
      var p :| PathFrom(c, marks, iter, m, x, p);
      var seen := set y | y in visited;
      VisitedClosed(c, iter, marks, streams, marks', streams', visited, seen);
      PathStarts(c, marks, iter, p);
      ClosedUnderPath(c, marks, iter, p, seen);
    }
  }

  /** A walk of all given medias under one number: each media linked to one of them over unmarked medias
      was visited, once, and is wired to its subscribers; nothing else changed. */
  ghost predicate Updated(c: Call, iter: nat, marks: Marks, streams: Streams, marks': Marks, streams': Streams,
                          visited: seq<Media>, starts: seq<Media>)
    requires ValidCall(c) && marks.Keys == streams.Keys == c.medias
  {
    && Walked(c, iter, marks, streams, marks', streams', visited, {})
    && (forall y :: y in visited ==> ReachedFrom(c, marks, iter, starts, y))
    && (forall m :: m in starts ==> m in c.medias && !Unmarked(marks', iter, m))
  }

  /** What that comes to when no media carries the number yet. */
  lemma UpdatedIsComponent(c: Call, iter: nat, marks: Marks, streams: Streams, marks': Marks, streams': Streams,
                           visited: seq<Media>, starts: seq<Media>, x: Media)
    requires ValidCall(c) && marks.Keys == streams.Keys == c.medias && x in c.medias
    requires Updated(c, iter, marks, streams, marks', streams', visited, starts) && FreshNumber(marks, iter)
    ensures marks'.Keys == streams'.Keys == c.medias && S.NoRepeats(visited)
    ensures x in visited <==> ConnectedFrom(c, starts, x)
    ensures if ConnectedFrom(c, starts, x) then marks'[x] == iter && Wired(c, x, streams'[x])
      else marks'[x] == marks[x] && streams'[x] == streams[x]
  {
    hide Wired, AllLinkedMarked, Connected, Reaches, ValidCall;
    WalkedIsReach(c, iter, marks, streams, marks', streams', visited, starts, x);
    forall m | m in starts ensures Reaches(c, marks, iter, m, x) <==> Connected(c, m, x) {
      FreshReach(c, marks, iter, m, x);
    }
  }

  lemma UpdatedNothing(c: Call, iter: nat, marks: Marks, streams: Streams)
    requires ValidCall(c) && marks.Keys == streams.Keys == c.medias
    ensures Updated(c, iter, marks, streams, marks, streams, [], [])
  {
  }

  lemma CountedStays(c: Call, iter: nat, marks: Marks, streams: Streams, marks': Marks, streams': Streams,
                     visited: seq<Media>, starts: seq<Media>)
    requires ValidCall(c) && marks.Keys == streams.Keys == c.medias
    requires Updated(c, iter, marks, streams, marks', streams', visited, starts)
    ensures (forall m :: m in marks ==> marks[m] < iter) ==> (forall m :: m in marks' ==> marks'[m] <= iter)
  {
    hide Wired, AllLinkedMarked;
  }

  lemma ReachesEarlier(c: Call, iter: nat, m0: Marks, s0: Streams, m1: Marks, s1: Streams,
                       v: seq<Media>, m: Media, y: Media)
    requires ValidCall(c) && m0.Keys == s0.Keys == c.medias
    requires Walked(c, iter, m0, s0, m1, s1, v, {}) && Reaches(c, m1, iter, m, y)
    ensures Reaches(c, m0, iter, m, y)
  {
    hide Linked, Wired, AllLinkedMarked;
    var p :| PathFrom(c, m1, iter, m, y, p);
    assert PathFrom(c, m0, iter, m, y, p);
  }

  lemma UpdatedMore(c: Call, iter: nat, m0: Marks, s0: Streams, m1: Marks, s1: Streams, m2: Marks, s2: Streams,
                    v: seq<Media>, w: seq<Media>, starts: seq<Media>, m: Media)
    requires ValidCall(c) && m0.Keys == s0.Keys == c.medias && m1.Keys == s1.Keys == c.medias && m in c.medias
    requires Updated(c, iter, m0, s0, m1, s1, v, starts) && Walked(c, iter, m1, s1, m2, s2, w, {})
    requires AllReached(c, m1, iter, m, w) && !Unmarked(m2, iter, m)
    ensures Updated(c, iter, m0, s0, m2, s2, v + w, starts + [m])
  {
    hide Walked, Reaches, Unmarked, ValidCall;
    WalkedJoin(c, iter, m0, s0, m1, s1, m2, s2, v, w, {});
    forall y | y in v + w ensures ReachedFrom(c, m0, iter, starts + [m], y) {
      if y in v {
        var s :| s in starts && Reaches(c, m0, iter, s, y);
        assert s in starts + [m];
      } else {
        ReachesEarlier(c, iter, m0, s0, m1, s1, v, m, y);
        assert m in starts + [m];
      }
    }
  }

  function Present(medias: seq<Option<Media>>): (r: seq<Media>) {
    if medias == [] then [] else
      var last := medias[|medias| - 1];
      Present(medias[..|medias| - 1]) + if last.Some? then [last.value] else []
  }

  lemma PresentNext(medias: seq<Option<Media>>, i: nat)
    requires i < |medias|
    ensures Present(medias[..i + 1]) ==
      if medias[i].Some? then Present(medias[..i]) + [medias[i].value] else Present(medias[..i])
  {
    assert medias[..i + 1][..i] == medias[..i];
  }

  // ----- the code itself -----

  class CallState {
    const c: Call
    var marks: Marks
    var streams: map<Media, seq<Pair>>
    var iter: u32

    ghost predicate Valid()
      reads this
    {
      && ValidCall(c) && marks.Keys == c.medias && streams.Keys == c.medias
      && forall m :: m in c.medias ==> |streams[m]| == c.pairs[m]
    }

    constructor (c: Call)
      requires ValidCall(c)
      ensures this.c == c && Valid() && iter == 0 && forall m :: m in c.medias ==> marks[m] == 0
    {
      this.c := c;
      marks := map m | m in c.medias :: 0;
      streams := map m | m in c.medias :: seq(c.pairs[m], _ => EMPTY);
      iter := 0;
    }

    /** __reset_streams */
    method ResetStreams(a: Media)
      requires Valid() && a in c.medias
      modifies `streams
      ensures Valid() && streams == old(streams)[a := streams[a]]
      ensures WiredTo(c, a, 0, streams[a])
    {
      var ps := streams[a];
      for k := 0 to |ps|
        invariant |ps| == c.pairs[a]
        invariant forall i :: 0 <= i < k ==> ps[i] == EMPTY
      {
        ps := ps[k := EMPTY];
      }
      streams := streams[a := ps];
    }

    /** __streams_set_sinks: both stream lists are walked in pairs until one of them ends. */
    method StreamsSetSinks(a: Media, e: Entry)
      requires Valid() && a in c.medias && e.media in c.medias
      modifies `streams
      ensures Valid() && streams == old(streams)[a := streams[a]]
      ensures forall k :: 0 <= k < c.pairs[a] ==> streams[a][k] == Extended(c, a, e, k, old(streams[a])[k])
      ensures forall k :: 0 <= k < c.pairs[a] ==> SinksAdded(c, a, e, k, old(streams[a])[k], streams[a][k])
    {
      forall k | 0 <= k < c.pairs[a]
        ensures SinksAdded(c, a, e, k, streams[a][k], Extended(c, a, e, k, streams[a][k]))
      {
        ExtendedMeaning(c, a, e, k, streams[a][k]);
      }
      hide SinksAdded;
      var b := e.media;
      var ps := streams[a];
      var k := 0;
      while k < c.pairs[a] && k < c.pairs[b]
        invariant 0 <= k <= c.pairs[a] == |ps|
        invariant forall i :: 0 <= i < k ==> ps[i] == Extended(c, a, e, i, old(streams[a])[i])
        invariant forall i :: k <= i < |ps| ==> ps[i] == old(streams[a])[i]
      {
        var aRtp, aRtcp := ps[k].rtp, ps[k].rtcp;
        var reflect := c.flags[a].echo || c.flags[a].blackhole;
        if e.attrs.egress {
          aRtp := aRtp.(mirrors := aRtp.mirrors + [Sink(Port(b, k, false), e.attrs)]);
        } else if reflect {
          aRtp := aRtp.(rtpSinks := aRtp.rtpSinks + [Sink(Port(a, k, false), e.attrs)]);
        } else if c.flags[b].send {
          aRtp := aRtp.(rtpSinks := aRtp.rtpSinks + [Sink(Port(b, k, false), e.attrs)]);
        }
        if !e.attrs.egress {
          var to: Port;
          if reflect {
            to := if c.flags[a].rtcpMux then Port(a, k, false) else Port(a, k, true);
          } else if c.flags[b].rtcpMux {
            to := Port(b, k, false);
          } else {
            to := Port(b, k, true);
          }
          aRtp := aRtp.(rtcpSinks := aRtp.rtcpSinks + [Sink(to, e.attrs)]);
          aRtcp := aRtcp.(rtcpSinks := aRtcp.rtcpSinks + [Sink(to, e.attrs)]);
        }
        ps := ps[k := Pair(aRtp, aRtcp)];
        k := k + 1;
      }
      forall i | k <= i < |ps| ensures ps[i] == Extended(c, a, e, i, old(streams[a])[i]) {}
      streams := streams[a := ps];
    }

    /** __update_init_subscribers, ghost result: the medias it works on, in the order it enters them. */
    method UpdateInit(m: Media, iter: nat) returns (ghost visited: seq<Media>)
      requires Valid() && m in c.medias
      modifies `marks, `streams
      decreases Left(c, marks, iter)
      ensures Valid()
      ensures Walked(c, iter, old(marks), old(streams), marks, streams, visited, {})
      ensures AllReached(c, old(marks), iter, m, visited) && !Unmarked(marks, iter, m)
    {
      hide ValidCall, Walked, AllReached, Linked, Wired, WiredTo, Unmarked, Extended, Left;
      hide Working, FirstMarked, MarksStay, SinksAdded;
      QueuesOf(c, m);
      ghost var m0, s0 := marks, streams;
      visited := [];
      if marks[m] == iter {
        WalkedNothing(c, iter, marks, streams, m);
        return;
      }
      visited := [m];
      marks := marks[m := iter];
      ResetStreams(m);
      var es, fs := c.subscribers[m], c.subscriptions[m];
      WorkStarts(c, iter, m0, s0, m, streams[m]);
      for i := 0 to |es|
        invariant Valid() && Working(c, iter, m0, s0, marks, streams, visited, m)
        invariant WiredTo(c, m, i, streams[m]) && FirstMarked(es, i, marks, iter)
      {
        ghost var m1, s1 := marks, streams;
        StreamsSetSinks(m, es[i]);
        ghost var s2 := streams;
        assert s2 == s1[m := s2[m]];
        WiredNext(c, m, i, s1[m], s2[m]);
        WorkSinks(c, iter, m0, s0, m1, s1, visited, m, s2[m]);
        ghost var w := UpdateInit(es[i].media, iter);
        NestedWalk(c, iter, m0, s0, m1, s2, marks, streams, m, es[i], visited, w);
        FirstMarkedNext(es, i, m1, marks, iter);
        visited := visited + w;
      }
      NoneYet(fs, marks, iter);
      for i := 0 to |fs|
        invariant Valid() && Working(c, iter, m0, s0, marks, streams, visited, m)
        invariant WiredTo(c, m, |es|, streams[m])
        invariant FirstMarked(es, |es|, marks, iter) && FirstMarked(fs, i, marks, iter)
      {
        WorkSinks(c, iter, m0, s0, marks, streams, visited, m, streams[m]);
        ghost var m1, s2 := marks, streams;
        ghost var w := UpdateInit(fs[i].media, iter);
        NestedWalk(c, iter, m0, s0, m1, s2, marks, streams, m, fs[i], visited, w);
        FirstMarkedStays(es, |es|, m1, marks, iter);
        FirstMarkedNext(fs, i, m1, marks, iter);
        visited := visited + w;
      }
      WorkEnds(c, iter, m0, s0, marks, streams, visited, m);
    }

    /** No media carries a number the call has not handed out yet. */
    ghost predicate Counted()
      reads this
    {
      forall m :: m in marks ==> marks[m] <= iter
    }

    /** update_init_subscribers */
    method UpdateInitSubscribers(m: Media) returns (ghost visited: seq<Media>)
      requires Valid() && m in c.medias
      modifies this
      ensures Valid() && iter == (old(iter) + 1) % U32
      ensures Updated(c, iter, old(marks), old(streams), marks, streams, visited, [m])
      ensures old(Counted()) && old(iter) < U32 - 1 ==> FreshNumber(old(marks), iter) && Counted()
    {
      hide ValidCall, Walked, AllReached, Updated;
      ghost var m0, s0 := marks, streams;
      iter := (iter + 1) % U32;
      UpdatedNothing(c, iter, marks, streams);
      visited := UpdateInit(m, iter);
      UpdatedMore(c, iter, m0, s0, m0, s0, marks, streams, [], visited, [], m);
      assert [] + visited == visited && [] + [m] == [m];
      CountedStays(c, iter, m0, s0, marks, streams, visited, [m]);
    }

    /** update_init_monologue_subscribers: one number for all medias of the monologue; slots may be empty. */
    method UpdateInitMonologue(medias: seq<Option<Media>>) returns (ghost visited: seq<Media>)
      requires Valid() && forall i :: 0 <= i < |medias| && medias[i].Some? ==> medias[i].value in c.medias
      modifies this
      ensures Valid() && iter == (old(iter) + 1) % U32
      ensures Updated(c, iter, old(marks), old(streams), marks, streams, visited, Present(medias))
      ensures old(Counted()) && old(iter) < U32 - 1 ==> FreshNumber(old(marks), iter) && Counted()
    {
      hide ValidCall, Walked, AllReached, Updated;
      ghost var m0, s0 := marks, streams;
      iter := (iter + 1) % U32;
      UpdatedNothing(c, iter, marks, streams);
      visited := [];
      ghost var n := iter;
      assert medias[..0] == [];
      for i := 0 to |medias|
        invariant Valid() && iter == n && Updated(c, iter, m0, s0, marks, streams, visited, Present(medias[..i]))
      {
        PresentNext(medias, i);
        if medias[i].Some? {
          ghost var m1, s1 := marks, streams;
          ghost var w := UpdateInit(medias[i].value, iter);
          UpdatedMore(c, iter, m0, s0, m1, s1, marks, streams, visited, w, Present(medias[..i]), medias[i].value);
          visited := visited + w;
        }
      }
      assert medias[..|medias|] == medias;
      CountedStays(c, iter, m0, s0, marks, streams, visited, Present(medias));
    }
  }
}
