/** SRTP keystreams: AES counter mode (section 4.1.1 of RFC 3711), the key derivation function built
    on it (section 4.3.3) and f8 mode (section 4.1.2.1). The block cipher is an arbitrary function. */
module Keystream {
  import opened Options
  import opened Words

  type byte = x: nat | x < 256
  type Block = b: seq<byte> | |b| == 16 witness seq(16, _ => 0)
  type Cipher = Block -> Block

  // ----- bytes and big-endian numbers -----

  const BYTE_BITS: nat := 8

  lemma ByteBits()
    ensures Pow2(BYTE_BITS) == 256
  {
    assert Pow2(8) == 256;
  }

  function XorByte(a: byte, b: byte): (r: byte) {
    ByteBits();
    XorN(a, b, BYTE_BITS)
  }

  function Xor(a: seq<byte>, b: seq<byte>): (r: seq<byte>)
    requires |a| == |b|
    ensures |r| == |a| && forall i :: 0 <= i < |a| ==> r[i] == XorByte(a[i], b[i])
  {
    seq(|a|, i requires 0 <= i < |a| => XorByte(a[i], b[i]))
  }

  function Pow256(n: nat): (p: nat)
    ensures p > 0
  {
    if n == 0 then 1 else 256 * Pow256(n - 1)
  }

  /** The number a big-endian byte string stands for. */
  function Value(b: seq<byte>): (v: nat) {
    if b == [] then 0 else 256 * Value(b[..|b| - 1]) + b[|b| - 1]
  }

  /** The last n bytes of the number v, big-endian. */
  function Bytes(v: nat, n: nat): (b: seq<byte>)
    ensures |b| == n
    decreases n, v
  {
    if n == 0 then [] else Bytes(v / 256, n - 1) + [(v % 256)]
  }

  lemma {:induction false} ValueBound(b: seq<byte>)
    ensures Value(b) < Pow256(|b|)
  {
    if b != [] { ValueBound(b[..|b| - 1]); }
  }

  lemma BytesStep(w: nat, low: byte, n: nat)
    ensures Bytes(256 * w + low, n + 1) == Bytes(w, n) + [low]
  {
    assert (256 * w + low) / 256 == w && (256 * w + low) % 256 == low;
  }

  lemma Mul256(c: nat, p: nat)
    ensures c * (256 * p) == 256 * (c * p)
  {
  }

  lemma ValueStep(p: seq<byte>, last: byte, c: nat)
    ensures Value(p + [last]) + c * Pow256(|p| + 1) == 256 * (Value(p) + c * Pow256(|p|)) + last
  {
    assert (p + [last])[..|p|] == p;
    Mul256(c, Pow256(|p|));
  }

  lemma {:induction false} BytesOfValue(b: seq<byte>, c: nat)
    ensures Bytes(Value(b) + c * Pow256(|b|), |b|) == b
  {
    if b != [] {
      var p, last := b[..|b| - 1], b[|b| - 1];
      BytesOfValue(p, c);
      ValueStep(p, last, c);
      BytesStep(Value(p) + c * Pow256(|p|), last, |p|);
      assert b == p + [last];
      hide Bytes, Value, Pow256;
    }
  }

  /** Encoding keeps the number modulo 256^n. */
  lemma {:induction false} ValueOfBytes(v: nat, n: nat) returns (c: nat)
    ensures v == Value(Bytes(v, n)) + c * Pow256(n)
  {
    if n == 0 {
      c := v;
    } else {
      c := ValueOfBytes(v / 256, n - 1);
      Mul256(c, Pow256(n - 1));
      assert Value(Bytes(v, n)) == 256 * Value(Bytes(v / 256, n - 1)) + v % 256 by {
        assert Bytes(v, n)[..n - 1] == Bytes(v / 256, n - 1);
      }
    }
  }

  /** Distinct numbers below 256^n have distinct encodings. */
  lemma {:induction false} BytesInjective(v: nat, w: nat, n: nat)
    requires v < Pow256(n) && w < Pow256(n) && Bytes(v, n) == Bytes(w, n)
    ensures v == w
  {
    if n > 0 {
      assert Bytes(v, n)[..n - 1] == Bytes(v / 256, n - 1);
      assert Bytes(w, n)[..n - 1] == Bytes(w / 256, n - 1);
      assert Bytes(v, n)[n - 1] == Bytes(w, n)[n - 1];
      BytesInjective(v / 256, w / 256, n - 1);
    }
  }

  lemma BytesNone(v: nat)
    ensures Bytes(v, 0) == []
  {
  }

  lemma Regroup(a: seq<byte>, b: seq<byte>, c: seq<byte>)
    ensures a + b + c == a + (b + c)
  {
  }

  /** A split of the number is a split of its encoding. */
  lemma {:induction false} BytesSplit(v: nat, lo: nat, m: nat, n: nat)
    requires lo < Pow256(n)
    ensures Bytes(v * Pow256(n) + lo, m + n) == Bytes(v, m) + Bytes(lo, n)
    decreases n
  {
    if n == 0 {
      BytesNone(lo);
    } else {
      var w, low := v * Pow256(n - 1) + lo / 256, lo % 256;
      Mul256(v, Pow256(n - 1));
      assert v * Pow256(n) + lo == 256 * w + low;
      BytesStep(w, low, m + n - 1);
      BytesStep(lo / 256, low, n - 1);
      BytesSplit(v, lo / 256, m, n - 1);
      Regroup(Bytes(v, m), Bytes(lo / 256, n - 1), [low]);
      hide Bytes, Pow256;
    }
  }

  // ----- the counter -----

  /** iv + k on 128 bits, wrapping around. */
  function Counter(iv: Block, k: nat): (c: Block) {
    Bytes(Value(iv) + k, |iv|)
  }

  lemma MoreMultiples(c: nat, d: nat, p: nat)
    requires c < d
    ensures c * p + p <= d * p
  {
    assert d * p == c * p + (d - c) * p;
    assert (d - c) * p == p + (d - c - 1) * p;
  }

  lemma Remainder(x: nat, y: nat, c: nat, p: nat)
    requires p > 0 && x == y + c * p && y < p
    ensures y == x % p
  {
    var d, z := x / p, x % p;
    assert x == z + d * p;
    if c < d {
      MoreMultiples(c, d, p);
    } else if d < c {
      MoreMultiples(d, c, p);
    }
  }

  /** The counter is the 128-bit sum of iv and k with the carry out of the top dropped, and the only block
      with that value. */
  lemma CounterWraps(iv: Block, k: nat, block: Block)
    ensures Value(block) == (Value(iv) + k) % Pow256(16) <==> block == Counter(iv, k)
  {
    hide Bytes, Value, Pow256;
    var c := ValueOfBytes(Value(iv) + k, |iv|);
    ValueBound(Counter(iv, k));
    Remainder(Value(iv) + k, Value(Counter(iv, k)), c, Pow256(16));
    BytesOfValue(block, 0);
    BytesOfValue(Counter(iv, k), 0);
  }

  /** Add one to a big-endian byte string, dropping the final carry. */
  function Increment(b: seq<byte>): (r: seq<byte>)
    ensures |r| == |b|
  {
    if b == [] then []
    else
      var p, last := b[..|b| - 1], b[|b| - 1];
      if last < 255 then p + [last + 1] else Increment(p) + [0]
  }

  lemma {:induction false} IncrementIsPlusOne(v: nat, n: nat)
    ensures Increment(Bytes(v, n)) == Bytes(v + 1, n)
    decreases n
  {
    if n > 0 {
      var b := Bytes(v, n);
      var last := (v % 256);
      assert b[..n - 1] == Bytes(v / 256, n - 1) && b[n - 1] == last;
      if v % 256 == 255 {
        IncrementIsPlusOne(v / 256, n - 1);
        assert (v + 1) / 256 == v / 256 + 1 && (v + 1) % 256 == 0;
      } else {
        assert (v + 1) / 256 == v / 256 && (v + 1) % 256 == v % 256 + 1;
      }
    }
  }

  // ----- counter mode: the simple form -----

  function KeyByte(E: Cipher, iv: Block, i: nat): (k: byte) {
    E(Counter(iv, i / 16))[i % 16]
  }

  function Ctr(E: Cipher, iv: Block, data: seq<byte>): (r: seq<byte>)
    ensures |r| == |data|
  {
    seq(|data|, i requires 0 <= i < |data| => XorByte(data[i], KeyByte(E, iv, i)))
  }

  /** Applying counter mode twice with the same iv restores the input. */
  lemma CtrTwice(E: Cipher, iv: Block, data: seq<byte>)
    ensures Ctr(E, iv, Ctr(E, iv, data)) == data
  {
    forall i | 0 <= i < |data|
      ensures Ctr(E, iv, Ctr(E, iv, data))[i] == data[i]
    {
      ByteBits();
      XorTwice(data[i], KeyByte(E, iv, i), BYTE_BITS);
    }
  }

  // ----- counter mode: the code -----

  /** Bytes in memory read as one machine word, least significant byte first. */
  function Load(s: seq<byte>): (w: nat) {
    if s == [] then 0 else s[0] + 256 * Load(s[1..])
  }

  function Store(w: nat, n: nat): (s: seq<byte>)
    ensures |s| == n
    decreases n, w
  {
    if n == 0 then [] else [w % 256] + Store(w / 256, n - 1)
  }

  lemma StoreNone(w: nat)
    ensures Store(w, 0) == []
  {
  }

  lemma LoadStep(s: seq<byte>)
    requires s != []
    ensures Load(s) == s[0] + 256 * Load(s[1..])
  {
  }

  lemma StoreStep(w: nat, low: byte, n: nat)
    ensures Store(256 * w + low, n + 1) == [low] + Store(w, n)
  {
    assert (256 * w + low) / 256 == w && (256 * w + low) % 256 == low;
  }

  lemma XorLowByte(a: nat, b: nat, c: byte, d: byte, n: nat)
    ensures XorN(c + 256 * a, d + 256 * b, n + BYTE_BITS) == 256 * XorN(a, b, n) + XorByte(c, d)
  {
    ByteBits();
    XorSplit(a, b, c, d, BYTE_BITS, n);
  }

  /** A word-wide exclusive or is one exclusive or per byte. */
  lemma {:induction false} WordXor(s: seq<byte>, t: seq<byte>)
    requires |s| == |t|
    ensures Store(XorN(Load(s), Load(t), BYTE_BITS * |s|), |s|) == Xor(s, t)
  {
    hide XorN, XorByte, Load, Store;
    if s == [] {
      StoreNone(XorN(Load(s), Load(t), 0));
    } else {
      var a, b, n := Load(s[1..]), Load(t[1..]), BYTE_BITS * |s[1..]|;
      LoadStep(s);
      LoadStep(t);
      XorLowByte(a, b, s[0], t[0], n);
      StoreStep(XorN(a, b, n), XorByte(s[0], t[0]), |s| - 1);
      WordXor(s[1..], t[1..]);
      assert Xor(s, t) == [XorByte(s[0], t[0])] + Xor(s[1..], t[1..]);
    }
  }

  method PutBytes(a: array<byte>, at: nat, s: seq<byte>)
    requires at + |s| <= a.Length
    modifies a
    ensures forall k :: 0 <= k < a.Length ==> a[k] == if at <= k < at + |s| then s[k - at] else old(a[k])
  {
    for i := 0 to |s|
      invariant forall k :: 0 <= k < a.Length ==> a[k] == if at <= k < at + i then s[k - at] else old(a[k])
    {
      a[at + i] := s[i];
    }
  }

  /** One machine word of the word path. */
  method XorWord(out: array<byte>, inp: array<byte>, pos: nat, key: seq<byte>)
    requires |key| == 8 && pos + 8 <= inp.Length && pos + 8 <= out.Length
    modifies out
    ensures forall k :: 0 <= k < out.Length ==>
      out[k] == if pos <= k < pos + 8 then XorByte(old(inp[k]), key[k - pos]) else old(out[k])
  {
    hide XorByte, XorN, Load, Store;
    var word := inp[pos..pos + 8];
    WordXor(word, key);
    PutBytes(out, pos, Store(XorN(Load(word), Load(key), BYTE_BITS * 8), 8));
  }

  /** The word path: two 64-bit words at offset pos. */
  method XorWords(out: array<byte>, inp: array<byte>, pos: nat, key: Block)
    requires pos + 16 <= inp.Length && pos + 16 <= out.Length
    modifies out
    ensures forall k :: 0 <= k < out.Length ==>
      out[k] == if pos <= k < pos + 16 then XorByte(old(inp[k]), key[k - pos]) else old(out[k])
  {
    hide XorByte;
    XorWord(out, inp, pos, key[..8]);
    XorWord(out, inp, pos + 8, key[8..]);
  }

  /** The byte path: n bytes, at most one block, at offset pos. */
  method XorBytes(out: array<byte>, inp: array<byte>, pos: nat, key: Block, n: nat)
    requires n <= 16 && pos + n <= inp.Length && pos + n <= out.Length
    modifies out
    ensures forall k :: 0 <= k < out.Length ==>
      out[k] == if pos <= k < pos + n then XorByte(old(inp[k]), key[k - pos]) else old(out[k])
  {
    hide XorByte;
    for i := 0 to n
      invariant forall k :: 0 <= k < out.Length ==>
        out[k] == if pos <= k < pos + i then XorByte(old(inp[k]), key[k - pos]) else old(out[k])
      invariant forall k :: pos + i <= k < inp.Length ==> inp[k] == old(inp[k])
    {
      out[pos + i] := XorByte(inp[pos + i], key[i]);
    }
  }

  /** The bytes from i on are done, and a carry is left to add to those before. */
  ghost predicate Carrying(b: seq<byte>, i: nat, tail: seq<byte>)
    requires i <= |b|
  {
    Increment(b) == Increment(b[..i]) + tail
  }

  lemma CarryStart(b: seq<byte>)
    ensures Carrying(b, |b|, [])
  {
    assert b[..|b|] == b;
  }

  lemma IncrementLast(b: seq<byte>, i: nat)
    requires i < |b|
    ensures Increment(b[..i + 1]) == if b[i] == 255 then Increment(b[..i]) + [0] else b[..i] + [b[i] + 1]
  {
    assert b[..i + 1][..i] == b[..i];
  }

  lemma CarryStep(b: seq<byte>, i: nat, tail: seq<byte>)
    requires i < |b| && Carrying(b, i + 1, tail) && b[i] == 255
    ensures Carrying(b, i, [0] + tail)
  {
    IncrementLast(b, i);
    Regroup(Increment(b[..i]), [0], tail);
    hide Increment;
  }

  lemma AroundAt(p: seq<byte>, x: byte, t: seq<byte>, k: nat)
    requires k < |p| + 1 + |t|
    ensures (p + [x] + t)[k] == if k < |p| then p[k] else if k == |p| then x else t[k - |p| - 1]
  {
  }

  lemma CarryStops(b: seq<byte>, i: nat, tail: seq<byte>)
    requires i < |b| && |tail| == |b| - i - 1 && Carrying(b, i + 1, tail) && b[i] != 255
    ensures forall k :: 0 <= k < |b| ==>
      Increment(b)[k] == if k < i then b[k] else if k == i then b[i] + 1 else tail[k - i - 1]
  {
    hide Increment;
    IncrementLast(b, i);
    var sum := b[..i] + [b[i] + 1] + tail;
    assert Increment(b) == sum;
    forall k | 0 <= k < |b|
      ensures sum[k] == if k < i then b[k] else if k == i then b[i] + 1 else tail[k - i - 1]
    {
      AroundAt(b[..i], b[i] + 1, tail, k);
    }
  }

  lemma CarryEnds(b: seq<byte>, tail: seq<byte>)
    requires Carrying(b, 0, tail)
    ensures Increment(b) == tail
  {
    assert b[..0] == [];
  }

  method IncrementInPlace(ivx: array<byte>)
    modifies ivx
    ensures ivx[..] == Increment(old(ivx[..]))
  {
    hide Increment, Carrying;
    ghost var b := ivx[..];
    ghost var tail: seq<byte> := [];
    var i := ivx.Length;
    CarryStart(b);
    while i > 0
      invariant 0 <= i <= ivx.Length && |tail| == ivx.Length - i && Carrying(b, i, tail)
      invariant forall k :: 0 <= k < i ==> ivx[k] == b[k]
      invariant forall k :: i <= k < ivx.Length ==> ivx[k] == tail[k - i]
    {
      i := i - 1;
      ivx[i] := (ivx[i] as int + 1) % 256;
      if ivx[i] != 0 {
        CarryStops(b, i, tail);
        return;
      }
      CarryStep(b, i, tail);
      tail := [0] + tail;
    }
    CarryEnds(b, tail);
  }

  lemma SameBlock(pos: nat, i: nat)
    requires pos % 16 == 0 && i < 16
    ensures (pos + i) / 16 == pos / 16 && (pos + i) % 16 == i
  {
  }

  /** aes_ctr. The buffers may be the same; `aligned` says whether both start on a word boundary. */
  method AesCtr(out: array<byte>, inp: array<byte>, ecc: Option<Cipher>, iv: Block, aligned: bool)
    requires inp.Length <= out.Length
    modifies out
    ensures ecc.None? ==> out[..] == old(out[..])
    ensures ecc.Some? ==> out[..] == Ctr(ecc.value, iv, old(inp[..])) + old(out[inp.Length..])
    ensures ecc.Some? ==> forall i, c: Block ::
      0 <= i < inp.Length && Value(c) == (Value(iv) + i / 16) % Pow256(16) ==>
        out[i] == XorByte(old(inp[i]), ecc.value(c)[i % 16])
  {
    hide XorByte, Bytes, Value, Increment, Pow256;
    if ecc.None? {
      return;
    }
    var E := ecc.value;
    var n := inp.Length;
    var ivx := new byte[16](i requires 0 <= i < 16 => iv[i]);
    assert ivx[..] == Counter(iv, 0) by { BytesOfValue(iv, 0); }
    var pos := 0;
    while pos < n
      invariant 0 <= pos <= n && (pos < n ==> pos % 16 == 0)
      invariant fresh(ivx) && ivx.Length == 16
      invariant pos < n ==> ivx[..] == Counter(iv, pos / 16)
      invariant forall k :: 0 <= k < out.Length ==>
        out[k] == if k < pos then XorByte(old(inp[k]), KeyByte(E, iv, k)) else old(out[k])
      invariant forall k :: pos <= k < n ==> inp[k] == old(inp[k])
    {
      var key := E(ivx[..]);
      var m := if n - pos < 16 then n - pos else 16;
      if m < 16 || !aligned {
        XorBytes(out, inp, pos, key, m);
      } else {
        XorWords(out, inp, pos, key);
      }
      forall k | pos <= k < pos + m
        ensures key[k - pos] == KeyByte(E, iv, k)
      {
        SameBlock(pos, k - pos);
      }
      pos := pos + m;
      if pos < n {
        IncrementIsPlusOne(Value(iv) + (pos - 16) / 16, 16);
        IncrementInPlace(ivx);
      }
    }
    forall i, c: Block | 0 <= i < n && Value(c) == (Value(iv) + i / 16) % Pow256(16)
      ensures out[i] == XorByte(old(inp[i]), E(c)[i % 16])
    {
      CounterWraps(iv, i / 16, c);
    }
  }
}
