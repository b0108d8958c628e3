/** The codec store of a media: an ordered preference list, a table by payload type and an index by
    name, kept in agreement by every operation. Names are case-folded keys. */
module CodecStore {
  import opened Options

  type Name = string

  /** What the store keeps about a payload type. */
  datatype Codec = Codec(num: int, encoding: Name, withParams: Name, withFullParams: Name,
                         supplemental: bool, removed: bool)

  /** A payload type together with its node in the preference list (prefs_link). */
  datatype Entry = Entry(node: nat, codec: Codec)

  /** suppLink: the list node before which ordinary codecs are added. */
  datatype Store = Store(prefs: seq<Entry>, codecs: map<int, Entry>, names: map<Name, seq<int>>,
                         suppLink: Option<nat>, nodes: nat)

  function NamesOf(c: Codec): (r: set<Name>) {
    {c.encoding, c.withParams, c.withFullParams}
  }

  // ----- what the operations do -----

  function Without<T>(s: seq<T>, i: nat): (r: seq<T>)
    requires i < |s|
  {
    s[..i] + s[i + 1..]
  }

  /** g_queue_remove_all. */
  function RemoveAll(q: seq<int>, x: int): (r: seq<int>)
    ensures forall y :: y in r <==> y in q && y != x
  {
    if q == [] then [] else
      assert q == [q[0]] + q[1..];
      (if q[0] == x then [] else [q[0]]) + RemoveAll(q[1..], x)
  }

  function DropName(names: map<Name, seq<int>>, n: Name, x: int): (r: map<Name, seq<int>>) {
    if n in names then names[n := RemoveAll(names[n], x)] else names
  }

  function DropNames(names: map<Name, seq<int>>, c: Codec): (r: map<Name, seq<int>>) {
    DropName(DropName(DropName(names, c.encoding, c.num), c.withParams, c.num), c.withFullParams, c.num)
  }

  function AddName(names: map<Name, seq<int>>, n: Name, x: int): (r: map<Name, seq<int>>) {
    names[n := (if n in names then names[n] else []) + [x]]
  }

  function AddNames(names: map<Name, seq<int>>, c: Codec): (r: map<Name, seq<int>>) {
    AddName(AddName(AddName(names, c.encoding, c.num), c.withParams, c.num), c.withFullParams, c.num)
  }

  /** __codec_store_delete_link on the i-th list entry. */
  function DeleteAt(s: Store, i: nat): (r: Store)
    requires i < |s.prefs|
  {
    var e := s.prefs[i];
    s.(prefs := Without(s.prefs, i),
       codecs := s.codecs - {e.codec.num},
       names := DropNames(s.names, e.codec),
       suppLink := if s.suppLink != Some(e.node) then s.suppLink
                   else if i + 1 < |s.prefs| then Some(s.prefs[i + 1].node) else None)
  }

  /** codec_store_add_raw_link in front of the i-th list entry, or at the end. */
  function AddAt(s: Store, c: Codec, i: nat): (r: Store)
    requires i <= |s.prefs|
  {
    var e := Entry(s.nodes, c);
    s.(prefs := s.prefs[..i] + [e] + s.prefs[i..],
       codecs := s.codecs[c.num := e],
       names := AddNames(s.names, c),
       suppLink := if s.suppLink == None && c.supplemental then Some(e.node) else s.suppLink,
       nodes := s.nodes + 1)
  }

  // ----- the invariant -----

  predicate InQueue(names: map<Name, seq<int>>, n: Name, x: int) {
    n in names && x in names[n]
  }

  ghost predicate Listed(prefs: seq<Entry>, n: Name, x: int) {
    exists i :: 0 <= i < |prefs| && prefs[i].codec.num == x && n in NamesOf(prefs[i].codec)
  }

  /** No payload type and no node is listed twice. */
  ghost predicate Distinct(s: Store) {
    && (forall i, j :: 0 <= i < j < |s.prefs| ==> s.prefs[i].codec.num != s.prefs[j].codec.num)
    && (forall i, j :: 0 <= i < j < |s.prefs| ==> s.prefs[i].node != s.prefs[j].node)
    && (forall i :: 0 <= i < |s.prefs| ==> s.prefs[i].node < s.nodes)
  }

  predicate InTable(codecs: map<int, Entry>, e: Entry) {
    e.codec.num in codecs && codecs[e.codec.num] == e
  }

  /** The table holds exactly the listed entries, by payload type. */
  ghost predicate TableAgrees(s: Store) {
    && (forall i :: 0 <= i < |s.prefs| ==> InTable(s.codecs, s.prefs[i]))
    && (forall x :: x in s.codecs ==> s.codecs[x].codec.num == x && s.codecs[x] in s.prefs)
  }

  /** The name index holds exactly the listed payload types, each under its three names. */
  ghost predicate IndexAgrees(s: Store) {
    forall n, x :: InQueue(s.names, n, x) <==> Listed(s.prefs, n, x)
  }

  ghost predicate LinkLive(s: Store) {
    s.suppLink.Some? ==> exists i :: 0 <= i < |s.prefs| && s.prefs[i].node == s.suppLink.value
  }

  ghost predicate Inv(s: Store) {
    Distinct(s) && TableAgrees(s) && IndexAgrees(s) && LinkLive(s)
  }

  lemma DropNamesSpec(names: map<Name, seq<int>>, c: Codec, n: Name, x: int)
    ensures InQueue(DropNames(names, c), n, x) <==> InQueue(names, n, x) && !(x == c.num && n in NamesOf(c))
  {
  }

  lemma AddNamesSpec(names: map<Name, seq<int>>, c: Codec, n: Name, x: int)
    ensures InQueue(AddNames(names, c), n, x) <==> InQueue(names, n, x) || (x == c.num && n in NamesOf(c))
  {
  }

  lemma AddNamesAll(names: map<Name, seq<int>>, c: Codec)
    ensures forall n :: n == c.encoding || n == c.withParams || n == c.withFullParams ==>
      InQueue(AddNames(names, c), n, c.num)
  {
    hide AddNames;
    forall n | n == c.encoding || n == c.withParams || n == c.withFullParams
      ensures InQueue(AddNames(names, c), n, c.num)
    {
      AddNamesSpec(names, c, n, c.num);
    }
  }

  lemma WithoutAt<T>(s: seq<T>, i: nat, k: nat)
    requires i < |s| && k < |s| - 1
    ensures |Without(s, i)| == |s| - 1 && Without(s, i)[k] == s[if k < i then k else k + 1]
  {
  }

  lemma ListedBy(prefs: seq<Entry>, k: nat)
    requires k < |prefs|
    ensures forall n :: n in NamesOf(prefs[k].codec) ==> Listed(prefs, n, prefs[k].codec.num)
  {
  }

  lemma DistinctAt(s: Store, j: nat, k: nat)
    requires Distinct(s) && j < |s.prefs| && k < |s.prefs| && j != k
    ensures s.prefs[j].codec.num != s.prefs[k].codec.num && s.prefs[j].node != s.prefs[k].node
  {
    var a, b := if j < k then j else k, if j < k then k else j;
    assert s.prefs[a].codec.num != s.prefs[b].codec.num;
  }

  lemma DeleteListed(s: Store, i: nat, n: Name, x: int)
    requires Distinct(s) && i < |s.prefs|
    ensures Listed(Without(s.prefs, i), n, x) <==> Listed(s.prefs, n, x) && x != s.prefs[i].codec.num
  {
    hide Distinct, NamesOf;
    var q := Without(s.prefs, i);
    if Listed(s.prefs, n, x) && x != s.prefs[i].codec.num {
      var k :| 0 <= k < |s.prefs| && s.prefs[k].codec.num == x && n in NamesOf(s.prefs[k].codec);
      var j := if k < i then k else k - 1;
      WithoutAt(s.prefs, i, j);
      ListedBy(q, j);
    }
    if Listed(q, n, x) {
      var k :| 0 <= k < |q| && q[k].codec.num == x && n in NamesOf(q[k].codec);
      var j := if k < i then k else k + 1;
      WithoutAt(s.prefs, i, k);
      ListedBy(s.prefs, j);
      DistinctAt(s, i, j);
    }
  }

  /** Where the entries left over come from. */
  lemma DeletedFrom(s: Store, i: nat, k: nat)
    requires i < |s.prefs| && k < |s.prefs| - 1
    ensures |DeleteAt(s, i).prefs| == |s.prefs| - 1 && DeleteAt(s, i).prefs[k] == s.prefs[if k < i then k else k + 1]
  {
    hide DropNames;
  }

  lemma DeleteDistinct(s: Store, i: nat)
    requires Distinct(s) && i < |s.prefs|
    ensures Distinct(DeleteAt(s, i))
  {
    hide DropNames;
    var q := DeleteAt(s, i).prefs;
    forall j | 0 <= j < |q| ensures q[j].node < s.nodes { DeletedFrom(s, i, j); }
    forall j, k | 0 <= j < k < |q| ensures q[j].codec.num != q[k].codec.num && q[j].node != q[k].node {
      DeletedFrom(s, i, j);
      DeletedFrom(s, i, k);
    }
  }

  lemma TableAt(s: Store, k: nat)
    requires TableAgrees(s) && k < |s.prefs|
    ensures s.prefs[k].codec.num in s.codecs && s.codecs[s.prefs[k].codec.num] == s.prefs[k]
  {
  }

  lemma TableFrom(s: Store, x: int) returns (k: nat)
    requires TableAgrees(s) && x in s.codecs
    ensures k < |s.prefs| && s.prefs[k] == s.codecs[x] && s.codecs[x].codec.num == x
  {
    k :| 0 <= k < |s.prefs| && s.prefs[k] == s.codecs[x];
  }

  lemma IsTable(s: Store)
    requires forall k :: 0 <= k < |s.prefs| ==> InTable(s.codecs, s.prefs[k])
    requires forall x :: x in s.codecs ==> s.codecs[x].codec.num == x && s.codecs[x] in s.prefs
    ensures TableAgrees(s)
  {
  }

  lemma DeletedAll(s: Store)
    requires |s.prefs| == 1
    ensures DeleteAt(s, 0).prefs == []
  {
  }

  lemma DeleteTable(s: Store, i: nat)
    requires Distinct(s) && TableAgrees(s) && i < |s.prefs|
    ensures TableAgrees(DeleteAt(s, i))
  {
    hide TableAgrees, Distinct, DropNames, Without;
    var r := DeleteAt(s, i);
    assert r.codecs == s.codecs - {s.prefs[i].codec.num};
    if |s.prefs| > 1 { DeletedFrom(s, i, 0); } else { assert r.prefs == [] by { DeletedAll(s); } }
    forall k | 0 <= k < |r.prefs| ensures InTable(r.codecs, r.prefs[k]) {
      var j := if k < i then k else k + 1;
      DeletedFrom(s, i, k);
      TableAt(s, j);
      DistinctAt(s, i, j);
    }
    forall x | x in r.codecs ensures r.codecs[x].codec.num == x && r.codecs[x] in r.prefs {
      var k := TableFrom(s, x);
      var j := if k < i then k else k - 1;
      DeletedFrom(s, i, j);
      assert r.prefs[j] == s.prefs[k];
    }
    IsTable(r);
  }

  lemma DeleteLink(s: Store, i: nat)
    requires Inv(s) && i < |s.prefs|
    ensures LinkLive(DeleteAt(s, i))
  {
    hide IndexAgrees, TableAgrees, DropNames;
    var r := DeleteAt(s, i);
    if r.suppLink.Some? {
      if s.suppLink == Some(s.prefs[i].node) {
        assert r.prefs[i] == s.prefs[i + 1];
      } else {
        var k :| 0 <= k < |s.prefs| && s.prefs[k].node == s.suppLink.value;
        assert r.prefs[if k < i then k else k - 1] == s.prefs[k];
      }
    }
  }

  lemma DeleteInv(s: Store, i: nat)
    requires Inv(s) && i < |s.prefs|
    ensures Inv(DeleteAt(s, i))
  {
    var r, e := DeleteAt(s, i), s.prefs[i];
    forall n, x ensures InQueue(r.names, n, x) <==> Listed(r.prefs, n, x) {
      DropNamesSpec(s.names, e.codec, n, x);
      DeleteListed(s, i, n, x);
      if x == e.codec.num && Listed(s.prefs, n, x) {
        var k :| 0 <= k < |s.prefs| && s.prefs[k].codec.num == x && n in NamesOf(s.prefs[k].codec);
        assert k == i;
      }
    }
    DeleteDistinct(s, i);
    DeleteTable(s, i);
    DeleteLink(s, i);
    hide DropNames, Listed, InQueue;
  }

  lemma AddListed(s: Store, c: Codec, i: nat, n: Name, x: int)
    requires i <= |s.prefs|
    ensures Listed(AddAt(s, c, i).prefs, n, x) <==> Listed(s.prefs, n, x) || (x == c.num && n in NamesOf(c))
  {
    var q := AddAt(s, c, i).prefs;
    assert q[i].codec == c;
    if Listed(s.prefs, n, x) {
      var k :| 0 <= k < |s.prefs| && s.prefs[k].codec.num == x && n in NamesOf(s.prefs[k].codec);
      assert q[if k < i then k else k + 1] == s.prefs[k];
    }
    if Listed(q, n, x) {
      var k :| 0 <= k < |q| && q[k].codec.num == x && n in NamesOf(q[k].codec);
      assert k != i ==> q[k] == s.prefs[if k < i then k else k - 1];
    }
  }

  lemma AddedFrom(s: Store, c: Codec, i: nat, j: nat)
    requires i <= |s.prefs| && j <= |s.prefs|
    ensures var q := AddAt(s, c, i).prefs;
      && |q| == |s.prefs| + 1
      && q[j] == if j == i then Entry(s.nodes, c) else s.prefs[if j < i then j else j - 1]
  {
    hide AddNames;
  }

  lemma AddDistinct(s: Store, c: Codec, i: nat)
    requires Distinct(s) && TableAgrees(s) && i <= |s.prefs| && c.num !in s.codecs
    ensures Distinct(AddAt(s, c, i))
  {
    hide AddNames, TableAgrees;
    var q := AddAt(s, c, i).prefs;
    forall k | 0 <= k < |s.prefs| ensures s.prefs[k].codec.num != c.num { TableAt(s, k); }
    forall j | 0 <= j < |q| ensures q[j].node <= s.nodes { AddedFrom(s, c, i, j); }
    forall j, k | 0 <= j < k < |q| ensures q[j].codec.num != q[k].codec.num && q[j].node != q[k].node {
      AddedFrom(s, c, i, j);
      AddedFrom(s, c, i, k);
    }
  }

  /** Old entries keep their order around the new one. */
  lemma AddedTo(s: Store, c: Codec, i: nat, k: nat)
    requires i <= |s.prefs| && k < |s.prefs|
    ensures var q := AddAt(s, c, i).prefs;
      |q| == |s.prefs| + 1 && q[i] == Entry(s.nodes, c) && q[if k < i then k else k + 1] == s.prefs[k]
  {
    hide AddNames;
  }

  lemma AddTable(s: Store, c: Codec, i: nat)
    requires TableAgrees(s) && i <= |s.prefs| && c.num !in s.codecs
    ensures TableAgrees(AddAt(s, c, i))
  {
    hide TableAgrees, AddNames;
    var r := AddAt(s, c, i);
    assert r.codecs == s.codecs[c.num := Entry(s.nodes, c)];
    forall j | 0 <= j < |r.prefs| ensures InTable(r.codecs, r.prefs[j]) {
      AddedFrom(s, c, i, j);
      if j != i { TableAt(s, if j < i then j else j - 1); }
    }
    forall x | x in r.codecs ensures r.codecs[x].codec.num == x && r.codecs[x] in r.prefs {
      if x == c.num {
        AddedFrom(s, c, i, i);
        assert r.prefs[i] == r.codecs[x];
      } else {
        var k := TableFrom(s, x);
        AddedTo(s, c, i, k);
        assert r.prefs[if k < i then k else k + 1] == s.codecs[x];
      }
    }
    IsTable(r);
  }

  lemma AddLink(s: Store, c: Codec, i: nat)
    requires LinkLive(s) && i <= |s.prefs|
    ensures LinkLive(AddAt(s, c, i))
  {
    hide AddNames;
    var r := AddAt(s, c, i);
    AddedFrom(s, c, i, i);
    if s.suppLink.Some? {
      var k :| 0 <= k < |s.prefs| && s.prefs[k].node == s.suppLink.value;
      AddedTo(s, c, i, k);
    }
  }

  lemma AddInv(s: Store, c: Codec, i: nat)
    requires Inv(s) && i <= |s.prefs| && c.num !in s.codecs
    ensures Inv(AddAt(s, c, i))
  {
    var r := AddAt(s, c, i);
    forall n, x ensures InQueue(r.names, n, x) <==> Listed(r.prefs, n, x) {
      AddNamesSpec(s.names, c, n, x);
      AddListed(s, c, i, n, x);
    }
    AddDistinct(s, c, i);
    AddTable(s, c, i);
    AddLink(s, c, i);
    hide AddNames, Listed, InQueue;
  }

  lemma AddingTwiceRepeats(s: Store, c: Codec, i: nat)
    requires Inv(s) && i <= |s.prefs| && c.num in s.codecs
    ensures !Inv(AddAt(s, c, i))
  {
    hide AddAt, TableAgrees, IndexAgrees, LinkLive, Distinct;
    var k := TableFrom(s, c.num);
    var r, j := AddAt(s, c, i), if k < i then k else k + 1;
    AddedTo(s, c, i, k);
    if Distinct(r) { DistinctAt(r, i, j); }
  }

  /** Adding keeps the three views in agreement exactly when the payload type is not in use yet. */
  lemma AddKeepsAgreementExactly(s: Store, c: Codec, i: nat)
    requires Inv(s) && i <= |s.prefs|
    ensures Inv(AddAt(s, c, i)) <==> c.num !in s.codecs
  {
    hide Inv, AddAt, Distinct;
    if c.num !in s.codecs {
      AddInv(s, c, i);
    } else {
      AddingTwiceRepeats(s, c, i);
    }
  }

  lemma EmptyInv(s: Store)
    requires s.prefs == [] && s.codecs == map[] && s.names == map[] && s.suppLink == None
    ensures Inv(s)
  {
  }

  /** A store that holds one payload type, which is then added once more. */
  lemma SamePayloadTypeTwice()
    ensures var c := Codec(0, "PCMU", "PCMU/8000", "PCMU/8000/1", false, false);
      var one := AddAt(Store([], map[], map[], None, 0), c, 0);
      Inv(one) && AddAt(one, c, 1).prefs == [Entry(0, c), Entry(1, c)] && !Inv(AddAt(one, c, 1))
  {
    var c := Codec(0, "PCMU", "PCMU/8000", "PCMU/8000/1", false, false);
    var none := Store([], map[], map[], None, 0);
    EmptyInv(none);
    var one := AddAt(none, c, 0);
    assert one.prefs == [Entry(0, c)] && one.codecs == map[0 := Entry(0, c)] && one.nodes == 1;
    hide Inv, AddNames;
    AddKeepsAgreementExactly(none, c, 0);
    AddKeepsAgreementExactly(one, c, 1);
  }

  function Codecs(prefs: seq<Entry>): (r: seq<Codec>)
    ensures |r| == |prefs|
  {
    seq(|prefs|, i requires 0 <= i < |prefs| => prefs[i].codec)
  }

  // ----- where supplemental codecs are -----

  ghost predicate ReachedBy(s: Store, i: nat)
    requires i < |s.prefs|
  {
    exists j :: 0 <= j <= i && s.suppLink == Some(s.prefs[j].node)
  }

  /** Every supplemental codec is at the marked node or behind it. */
  ghost predicate SuppBehind(s: Store) {
    forall i :: 0 <= i < |s.prefs| && s.prefs[i].codec.supplemental ==> ReachedBy(s, i)
  }

  lemma DeletedLink(s: Store, i: nat)
    requires i < |s.prefs|
    ensures var r := DeleteAt(s, i);
      && |r.prefs| == |s.prefs| - 1
      && (s.suppLink == Some(s.prefs[i].node) && i < |r.prefs| ==> r.suppLink == Some(s.prefs[i + 1].node))
      && (s.suppLink != Some(s.prefs[i].node) ==> r.suppLink == s.suppLink)
  {
    hide DropNames;
  }

  lemma DeletedReached(s: Store, i: nat, k: nat)
    requires Distinct(s) && i < |s.prefs| && k < |s.prefs| - 1 && ReachedBy(s, if k < i then k else k + 1)
    ensures |DeleteAt(s, i).prefs| == |s.prefs| - 1 && ReachedBy(DeleteAt(s, i), k)
  {
    hide Distinct, DeleteAt;
    var r := DeleteAt(s, i);
    var j :| 0 <= j <= (if k < i then k else k + 1) && s.suppLink == Some(s.prefs[j].node);
    var at := if j <= i then j else j - 1;
    if j != i { DistinctAt(s, i, j); }
    DeletedLink(s, i);
    DeletedFrom(s, i, at);
    assert r.suppLink == Some(r.prefs[at].node);
  }

  /** Deleting any codec keeps that: the mark moves on to the next node if it has to. */
  lemma DeleteSuppBehind(s: Store, i: nat)
    requires SuppBehind(s) && Distinct(s) && i < |s.prefs|
    ensures SuppBehind(DeleteAt(s, i))
  {
    hide Distinct, DeleteAt, ReachedBy;
    var r := DeleteAt(s, i);
    DeletedLink(s, i);
    forall k | 0 <= k < |r.prefs| && r.prefs[k].codec.supplemental ensures ReachedBy(r, k) {
      DeletedFrom(s, i, k);
      DeletedReached(s, i, k);
    }
  }

  lemma AddedReached(s: Store, c: Codec, i: nat, k: nat)
    requires i <= |s.prefs| && k < |s.prefs| && ReachedBy(s, k)
    ensures AddAt(s, c, i).suppLink == s.suppLink
    ensures |AddAt(s, c, i).prefs| == |s.prefs| + 1 && ReachedBy(AddAt(s, c, i), if k < i then k else k + 1)
  {
    hide AddNames;
    var r := AddAt(s, c, i);
    AddedTo(s, c, i, k);
    var j :| 0 <= j <= k && s.suppLink == Some(s.prefs[j].node);
    AddedTo(s, c, i, j);
    var now := if j < i then j else j + 1;
    assert r.suppLink == Some(r.prefs[now].node);
  }

  /** Adding at the end always keeps it, and adding at the mark does for an ordinary codec or while there is
      no mark. A supplemental codec added at an existing mark ends up in front of it. */
  lemma AddSuppBehindExactly(s: Store, c: Codec, i: nat)
    requires SuppBehind(s) && Distinct(s)
    requires i == |s.prefs| || (i < |s.prefs| && s.suppLink == Some(s.prefs[i].node))
    requires s.suppLink.Some? ==> exists j :: 0 <= j < |s.prefs| && s.suppLink == Some(s.prefs[j].node)
    ensures SuppBehind(AddAt(s, c, i)) <==> !(c.supplemental && i < |s.prefs|)
  {
    hide AddNames;
    var r := AddAt(s, c, i);
    AddedFrom(s, c, i, i);
    if c.supplemental && i < |s.prefs| {
      forall j | 0 <= j <= i ensures r.suppLink != Some(r.prefs[j].node) {
        AddedFrom(s, c, i, j);
        if j < i { DistinctAt(s, i, j); }
      }
      assert !ReachedBy(r, i);
    } else {
      forall k | 0 <= k < |r.prefs| && r.prefs[k].codec.supplemental ensures ReachedBy(r, k) {
        AddedFrom(s, c, i, k);
        if k == i {
          if s.suppLink.Some? {
            var j :| 0 <= j < |s.prefs| && s.suppLink == Some(s.prefs[j].node);
            AddedTo(s, c, i, j);
            assert r.suppLink == Some(r.prefs[j].node);
          } else {
            assert r.suppLink == Some(r.prefs[i].node);
          }
        } else {
          var was := if k < i then k else k - 1;
          assert ReachedBy(s, was);
          AddedReached(s, c, i, was);
        }
      }
    }
  }

  /** What adding in order promises, to append but in front of supplemental codecs: it does so, because
      none is in front of the mark. */
  lemma NoneInFront(s: Store, i: nat, k: nat)
    requires SuppBehind(s) && Distinct(s) && k < i <= |s.prefs|
    requires if s.suppLink.Some? then i < |s.prefs| && s.prefs[i].node == s.suppLink.value else i == |s.prefs|
    ensures !s.prefs[k].codec.supplemental
  {
    if i < |s.prefs| {
      forall j | 0 <= j <= k ensures s.prefs[j].node != s.prefs[i].node { DistinctAt(s, j, i); }
    }
  }

  /** Two supplemental codecs added in order, then an ordinary one: it is put behind the second. */
  lemma OrdinaryBehindSupplemental()
    ensures var none := Store([], map[], map[], None, 0);
      var dtmf := Codec(101, "telephone-event", "telephone-event/8000", "telephone-event/8000", true, false);
      var cn := Codec(13, "CN", "CN/8000", "CN/8000", true, false);
      var pcma := Codec(8, "PCMA", "PCMA/8000", "PCMA/8000", false, false);
      var s := AddAt(AddAt(none, dtmf, 0), cn, 0);
      s.suppLink == Some(s.prefs[1].node) && Codecs(AddAt(s, pcma, 1).prefs) == [cn, pcma, dtmf]
  {
    hide AddNames;
    var none := Store([], map[], map[], None, 0);
    var dtmf := Codec(101, "telephone-event", "telephone-event/8000", "telephone-event/8000", true, false);
    var cn := Codec(13, "CN", "CN/8000", "CN/8000", true, false);
    var one := AddAt(none, dtmf, 0);
    assert one.prefs == [Entry(0, dtmf)] && one.suppLink == Some(0) && one.nodes == 1;
    var two := AddAt(one, cn, 0);
    assert two.prefs == [Entry(1, cn), Entry(0, dtmf)] && two.suppLink == Some(0) && two.nodes == 2;
  }

  // ----- filters -----

  function Filter(cs: seq<Codec>, keep: Codec -> bool): (r: seq<Codec>) {
    if cs == [] then [] else (if keep(cs[0]) then [cs[0]] else []) + Filter(cs[1..], keep)
  }

  function NotNamed(n: Name): (keep: Codec -> bool) {
    (c: Codec) => n !in NamesOf(c)
  }

  function NotNumbered(xs: set<int>): (keep: Codec -> bool) {
    (c: Codec) => c.num !in xs
  }

  lemma FilterFirst(cs: seq<Codec>, keep: Codec -> bool)
    ensures Filter(cs, keep) ==
      if cs == [] then [] else (if keep(cs[0]) then [cs[0]] else []) + Filter(cs[1..], keep)
  {
  }

  lemma {:induction false} FilterConcat(a: seq<Codec>, b: seq<Codec>, keep: Codec -> bool)
    ensures Filter(a + b, keep) == Filter(a, keep) + Filter(b, keep)
  {
    hide Filter;
    FilterFirst(a, keep);
    if a == [] {
      assert a + b == b;
    } else {
      FilterConcat(a[1..], b, keep);
      FilterFirst(a + b, keep);
      var head := if keep(a[0]) then [a[0]] else [];
      assert (a + b)[0] == a[0] && (a + b)[1..] == a[1..] + b;
      assert head + (Filter(a[1..], keep) + Filter(b, keep)) == (head + Filter(a[1..], keep)) + Filter(b, keep);
    }
  }

  lemma {:induction false} FilterKeepsAll(cs: seq<Codec>, keep: Codec -> bool)
    requires forall i :: 0 <= i < |cs| ==> keep(cs[i])
    ensures Filter(cs, keep) == cs
  {
    if cs != [] { FilterKeepsAll(cs[1..], keep); }
  }

  /** Taking out an entry that the filter drops anyway changes nothing. */
  lemma {:induction false} FilterWithout(cs: seq<Codec>, i: nat, keep: Codec -> bool)
    requires i < |cs| && !keep(cs[i])
    ensures Filter(Without(cs, i), keep) == Filter(cs, keep)
    decreases i
  {
    if i == 0 {
      assert Without(cs, 0) == cs[1..];
    } else {
      assert Without(cs, i)[1..] == Without(cs[1..], i - 1);
      FilterWithout(cs[1..], i - 1, keep);
    }
  }

  lemma {:induction false} FilterTwice(cs: seq<Codec>, xs: set<int>, x: int)
    ensures Filter(Filter(cs, NotNumbered(xs)), NotNumbered({x})) == Filter(cs, NotNumbered(xs + {x}))
  {
    if cs != [] {
      FilterTwice(cs[1..], xs, x);
      var head := if NotNumbered(xs)(cs[0]) then [cs[0]] else [];
      FilterConcat(head, Filter(cs[1..], NotNumbered(xs)), NotNumbered({x}));
    }
  }

  /** A filter keeps exactly what it should. */
  lemma {:induction false} FilterHas(cs: seq<Codec>, keep: Codec -> bool, c: Codec)
    ensures c in Filter(cs, keep) <==> c in cs && keep(c)
  {
    if cs != [] {
      FilterHas(cs[1..], keep, c);
      assert c in cs <==> c == cs[0] || c in cs[1..];
    }
  }

  lemma WithoutCodecs(prefs: seq<Entry>, i: nat)
    requires i < |prefs|
    ensures Codecs(Without(prefs, i)) == Without(Codecs(prefs), i)
  {
  }

  // ----- the code itself -----

  lemma HeadIsListed(s: Store, name: Name) returns (i: nat)
    requires Inv(s) && name in s.names && s.names[name] != []
    ensures i < |s.prefs| && s.prefs[i].codec.num == s.names[name][0] && name in NamesOf(s.prefs[i].codec)
    ensures s.names[name][0] in s.codecs && s.codecs[s.names[name][0]] == s.prefs[i]
  {
    var x := s.names[name][0];
    assert InQueue(s.names, name, x);
    i :| 0 <= i < |s.prefs| && s.prefs[i].codec.num == x && name in NamesOf(s.prefs[i].codec);
  }

  lemma NoneNamed(s: Store, name: Name)
    requires Inv(s) && (name !in s.names || s.names[name] == [])
    ensures Filter(Codecs(s.prefs), NotNamed(name)) == Codecs(s.prefs)
  {
    forall i | 0 <= i < |s.prefs| ensures NotNamed(name)(Codecs(s.prefs)[i]) {
      assert !InQueue(s.names, name, s.prefs[i].codec.num);
      assert !Listed(s.prefs, name, s.prefs[i].codec.num);
    }
    FilterKeepsAll(Codecs(s.prefs), NotNamed(name));
  }

  class CodecStore {
    var prefs: seq<Entry>
    var codecs: map<int, Entry>
    var names: map<Name, seq<int>>
    var suppLink: Option<nat>
    var nodes: nat

    function View(): Store
      reads this
    {
      Store(prefs, codecs, names, suppLink, nodes)
    }

    constructor ()
      ensures View() == Store([], map[], map[], None, 0) && Inv(View())
    {
      prefs, codecs, names, suppLink, nodes := [], map[], map[], None, 0;
    }

    /** The list position of a node. */
    method Position(node: nat) returns (i: nat)
      requires exists k :: 0 <= k < |prefs| && prefs[k].node == node
      ensures i < |prefs| && prefs[i].node == node
    {
      i := 0;
      while prefs[i].node != node
        invariant i < |prefs| && exists k :: i <= k < |prefs| && prefs[k].node == node
        decreases |prefs| - i
      {
        i := i + 1;
      }
    }

    method QueueDel(key: Name, pt: int)
      modifies this`names
      ensures names == DropName(old(names), key, pt)
    {
      if key !in names {
        return;
      }
      names := names[key := RemoveAll(names[key], pt)];
    }

    /** __codec_store_delete_link; returns the node that followed. */
    method DeleteNode(node: nat, ghost i: nat) returns (next: Option<nat>)
      requires Inv(View()) && i < |prefs| && prefs[i].node == node
      modifies this
      ensures View() == DeleteAt(old(View()), i) && Inv(View())
      ensures next == if i < |prefs| then Some(prefs[i].node) else None
      ensures suppLink == if old(suppLink) == Some(node) then next else old(suppLink)
    {
      DeleteInv(View(), i);
      var at := Position(node);
      assert at == i;
      hide Inv;
      var e := prefs[at];
      codecs := codecs - {e.codec.num};
      QueueDel(e.codec.encoding, e.codec.num);
      QueueDel(e.codec.withParams, e.codec.num);
      QueueDel(e.codec.withFullParams, e.codec.num);
      next := if at + 1 < |prefs| then Some(prefs[at + 1].node) else None;
      if suppLink == Some(node) {
        suppLink := next;
      }
      prefs := prefs[..at] + prefs[at + 1..];
    }

    /** codec_store_add_raw_link in front of the given node, or at the end. */
    method AddRawLink(c: Codec, link: Option<nat>) returns (ghost i: nat)
      requires Inv(View())
      requires link.Some? ==> exists k :: 0 <= k < |prefs| && prefs[k].node == link.value
      modifies this
      ensures i <= |old(prefs)| && View() == AddAt(old(View()), c, i)
      ensures Inv(View()) <==> c.num !in old(codecs)
      ensures if link.Some? then i < |old(prefs)| && old(prefs)[i].node == link.value else i == |old(prefs)|
      ensures suppLink == if old(suppLink) == None && c.supplemental then Some(prefs[i].node) else old(suppLink)
      ensures forall n :: n == c.encoding || n == c.withParams || n == c.withFullParams ==> InQueue(names, n, c.num)
    {
      AddNamesAll(names, c);
      hide Inv, AddNames;
      var at := |prefs|;
      if link.Some? {
        at := Position(link.value);
      }
      i := at;
      AddKeepsAgreementExactly(View(), c, at);
      var e := Entry(nodes, c);
      codecs := codecs[c.num := e];
      names := AddNames(names, c);
      prefs := prefs[..at] + [e] + prefs[at..];
      nodes := nodes + 1;
      if suppLink == None && c.supplemental {
        suppLink := Some(e.node);
      }
    }

    /** codec_store_add_raw_order: append, but in front of the marked supplemental codec. */
    method AddRawOrder(c: Codec) returns (ghost i: nat)
      requires Inv(View())
      modifies this
      ensures i <= |old(prefs)| && View() == AddAt(old(View()), c, i)
      ensures if old(suppLink).Some? then i < |old(prefs)| && old(prefs)[i].node == old(suppLink).value
              else i == |old(prefs)|
      ensures Inv(View()) <==> c.num !in old(codecs)
      ensures old(SuppBehind(View())) ==> forall k :: 0 <= k < i ==> !prefs[k].codec.supplemental
      ensures old(SuppBehind(View())) ==> (SuppBehind(View()) <==> !c.supplemental || old(suppLink) == None)
    {
      ghost var s := View();
      i := AddRawLink(c, suppLink);
      hide AddNames, SuppBehind;
      if SuppBehind(s) {
        AddSuppBehindExactly(s, c, i);
        forall k | 0 <= k < i ensures !prefs[k].codec.supplemental {
          NoneInFront(s, i, k);
          AddedTo(s, c, i, k);
        }
      }
    }

    /** The single-codec branch of codec_store_strip. The loop ends because the name index agrees with
        the list; the early exit for a missing payload type is never taken. */
    method StripName(name: Name)
      requires Inv(View())
      modifies this
      ensures Inv(View())
      ensures Codecs(prefs) == Filter(Codecs(old(prefs)), NotNamed(name))
      ensures forall c :: c in Codecs(prefs) <==>
        c in Codecs(old(prefs)) && name !in [c.encoding, c.withParams, c.withFullParams]
    {
      hide Inv;
      forall c ensures c in Filter(Codecs(prefs), NotNamed(name)) <==>
                       c in Codecs(prefs) && name !in [c.encoding, c.withParams, c.withFullParams] {
        FilterHas(Codecs(prefs), NotNamed(name), c);
      }
      if name !in names || |names[name]| == 0 {
        NoneNamed(View(), name);
        return;
      }
      while name in names && |names[name]| > 0
        invariant Inv(View())
        invariant Filter(Codecs(prefs), NotNamed(name)) == Filter(Codecs(old(prefs)), NotNamed(name))
        decreases |prefs|
      {
        var num := names[name][0];
        ghost var i := HeadIsListed(View(), name);
        if num in codecs {
          WithoutCodecs(prefs, i);
          FilterWithout(Codecs(prefs), i, NotNamed(name));
          var _ := DeleteNode(codecs[num].node, i);
        } else {
          assert false;
          break;
        }
      }
      NoneNamed(View(), name);
    }
  }

  // ----- merging -----

  function Marked(cs: seq<Codec>): (r: seq<Codec>)
    ensures |r| == |cs|
  {
    seq(|cs|, i requires 0 <= i < |cs| => cs[i].(removed := true))
  }

  function Numbers(cs: seq<Codec>): (r: set<int>) {
    set i | 0 <= i < |cs| :: cs[i].num
  }

  /** Deleting by payload type: what is left is the list without that number. */
  lemma DeleteByNumber(s: Store, i: nat)
    requires Inv(s) && i < |s.prefs|
    ensures Codecs(DeleteAt(s, i).prefs) == Filter(Codecs(s.prefs), NotNumbered({s.prefs[i].codec.num}))
  {
    var x, cs := s.prefs[i].codec.num, Codecs(s.prefs);
    WithoutCodecs(s.prefs, i);
    FilterWithout(cs, i, NotNumbered({x}));
    var rest := Without(cs, i);
    forall k | 0 <= k < |rest| ensures NotNumbered({x})(rest[k]) {
      var j := if k < i then k else k + 1;
      assert rest[k] == s.prefs[j].codec;
    }
    FilterKeepsAll(rest, NotNumbered({x}));
  }

  lemma NotInTable(s: Store, x: int)
    requires Inv(s) && x !in s.codecs
    ensures Filter(Codecs(s.prefs), NotNumbered({x})) == Codecs(s.prefs)
  {
    FilterKeepsAll(Codecs(s.prefs), NotNumbered({x}));
  }

  lemma MarkedKept(cs: seq<Codec>, x: int)
    requires forall i :: 0 <= i < |cs| ==> cs[i].num != x
    ensures Filter(Marked(cs), NotNumbered({x})) == Marked(cs)
  {
    FilterKeepsAll(Marked(cs), NotNumbered({x}));
  }

  lemma NumbersStep(src: seq<Codec>, k: nat)
    requires k < |src|
    ensures Numbers(src[k..]) == Numbers(src[k + 1..]) + {src[k].num}
  {
    var a, b := src[k..], src[k + 1..];
    assert a == [src[k]] + b;
    forall x ensures x in Numbers(a) <==> x in Numbers(b) + {src[k].num} {
      if x in Numbers(a) {
        var i :| 0 <= i < |a| && a[i].num == x;
        assert i > 0 ==> b[i - 1].num == x;
      }
      if x in Numbers(b) {
        var i :| 0 <= i < |b| && b[i].num == x;
        assert a[i + 1].num == x;
      }
      assert a[0].num == src[k].num;
    }
  }

  /** One round of the merge on the list level. */
  lemma MergeRound(src: seq<Codec>, dst: seq<Codec>, k: nat)
    requires k < |src| && forall i, j :: 0 <= i < j < |src| ==> src[i].num != src[j].num
    ensures var before := Marked(src[k + 1..]) + Filter(dst, NotNumbered(Numbers(src[k + 1..])));
      [src[k].(removed := true)] + Filter(before, NotNumbered({src[k].num}))
         == Marked(src[k..]) + Filter(dst, NotNumbered(Numbers(src[k..])))
  {
    hide Filter, NotNumbered, Numbers;
    var tail, x := src[k + 1..], src[k].num;
    var kept := Filter(dst, NotNumbered(Numbers(tail)));
    FilterConcat(Marked(tail), kept, NotNumbered({x}));
    MarkedKept(tail, x);
    FilterTwice(dst, Numbers(tail), x);
    NumbersStep(src, k);
    assert Marked(src[k..]) == [src[k].(removed := true)] + Marked(tail);
  }

  lemma Prepended(s: Store, c: Codec)
    ensures Codecs(AddAt(s, c, 0).prefs) == [c] + Codecs(s.prefs)
  {
  }

  method RemoveCollision(dst: CodecStore, num: int)
    requires Inv(dst.View())
    modifies dst
    ensures Inv(dst.View()) && num !in dst.codecs
    ensures Codecs(dst.prefs) == Filter(Codecs(old(dst.prefs)), NotNumbered({num}))
  {
    if num in dst.codecs {
      ghost var i :| 0 <= i < |dst.prefs| && dst.prefs[i] == dst.codecs[num];
      DeleteByNumber(dst.View(), i);
      var _ := dst.DeleteNode(dst.codecs[num].node, i);
    } else {
      NotInTable(dst.View(), num);
    }
  }

  lemma HeadNode(s: Store)
    requires Inv(s)
    ensures s.prefs != [] ==> forall k :: 0 <= k < |s.prefs| && s.prefs[k].node == s.prefs[0].node ==> k == 0
  {
  }

  /** One source entry: replace a colliding destination entry, at the head of the list. */
  method MergeOne(dst: CodecStore, c: Codec)
    requires Inv(dst.View())
    modifies dst
    ensures Inv(dst.View())
    ensures Codecs(dst.prefs) == [c.(removed := true)] + Filter(Codecs(old(dst.prefs)), NotNumbered({c.num}))
  {
    hide Inv, Filter, NotNumbered;
    RemoveCollision(dst, c.num);
    Prepended(dst.View(), c.(removed := true));
    var head := if |dst.prefs| > 0 then Some(dst.prefs[0].node) else None;
    HeadNode(dst.View());
    ghost var i := dst.AddRawLink(c.(removed := true), head);
  }

  lemma CodecsEmpty()
    ensures Codecs([]) == []
  {
  }

  lemma CodecsPrefix(prefs: seq<Entry>, k: nat)
    requires k < |prefs|
    ensures prefs[k].codec == Codecs(prefs)[k] && Codecs(prefs[..k]) == Codecs(prefs)[..k]
  {
  }

  lemma DistinctNumbers(s: Store)
    requires Inv(s)
    ensures forall i, j :: 0 <= i < j < |s.prefs| ==> Codecs(s.prefs)[i].num != Codecs(s.prefs)[j].num
  {
  }

  lemma MergeStart(from: seq<Codec>, into: seq<Codec>)
    ensures from[..|from|] == from
    ensures into == Marked(from[|from|..]) + Filter(into, NotNumbered(Numbers(from[|from|..])))
  {
    assert from[|from|..] == [];
    FilterKeepsAll(into, NotNumbered(Numbers([])));
  }

  lemma MergedAt(merged: seq<Entry>, src: seq<Entry>, rest: seq<Codec>)
    requires Codecs(merged) == Marked(Codecs(src)) + rest
    ensures |src| <= |merged|
    ensures forall i :: 0 <= i < |src| ==> merged[i].codec == src[i].codec.(removed := true)
  {
    forall i | 0 <= i < |src| ensures merged[i].codec == src[i].codec.(removed := true) {
      assert Codecs(merged)[i] == Marked(Codecs(src))[i];
    }
  }

  /** codec_store_merge: the source list in front, then what is left of the destination. */
  method Merge(dst: CodecStore, src: CodecStore)
    requires dst != src && Inv(dst.View()) && Inv(src.View())
    modifies dst, src
    ensures Inv(dst.View()) && Inv(src.View()) && src.prefs == []
    ensures var from, into := Codecs(old(src.prefs)), Codecs(old(dst.prefs));
      Codecs(dst.prefs) == Marked(from) + Filter(into, NotNumbered(Numbers(from)))
    ensures |old(src.prefs)| <= |dst.prefs|
    ensures forall i :: 0 <= i < |old(src.prefs)| ==> dst.prefs[i].codec == old(src.prefs)[i].codec.(removed := true)
  {
    hide Inv, Filter, NotNumbered, Numbers, Marked, Codecs;
    ghost var from, into := Codecs(src.prefs), Codecs(dst.prefs);
    DistinctNumbers(src.View());
    MergeStart(from, into);
    CodecsEmpty();
    while |src.prefs| > 0
      invariant Inv(dst.View())
      invariant |src.prefs| <= |from| && Codecs(src.prefs) == from[..|src.prefs|]
      invariant var done := from[|src.prefs|..];
        Codecs(dst.prefs) == Marked(done) + Filter(into, NotNumbered(Numbers(done)))
      decreases |src.prefs|
    {
      ghost var k := |src.prefs| - 1;
      var c := src.prefs[|src.prefs| - 1].codec;
      CodecsPrefix(src.prefs, k);
      src.prefs := src.prefs[..|src.prefs| - 1];
      MergeRound(from, into, k);
      MergeOne(dst, c);
    }
    src.codecs, src.names, src.suppLink := map[], map[], None;
    EmptyInv(src.View());
    assert from[0..] == from;
    MergedAt(dst.prefs, old(src.prefs), Filter(into, NotNumbered(Numbers(from))));
  }
}
