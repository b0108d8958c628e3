/** The users of the SRTP keystream: packet encryption in counter mode (section 4.1.1 of RFC 3711),
    key derivation (sections 4.3.1 and 4.3.3) and f8 mode (section 4.1.2.1). */
module SrtpCiphers {
  import opened Options
  import opened Words
  import opened Keystream

  function Zeros(n: nat): (z: seq<byte>)
    ensures |z| == n
  {
    seq(n, _ => 0)
  }

  // ----- aes_cm_encrypt -----

  type Salt = s: seq<byte> | |s| == 14 witness seq(14, _ => 0)
  type Ssrc = s: seq<byte> | |s| == 4 witness seq(4, _ => 0)

  /** IV = (k_s * 2^16) XOR (SSRC * 2^64) XOR (i * 2^16), for a packet index i of 48 bits. */
  function PacketIv(salt: Salt, ssrc: Ssrc, index: nat): (iv: Block) {
    Xor(salt + Zeros(2), Zeros(4) + ssrc + Bytes(index, 6) + Zeros(2))
  }

  lemma {:induction false} ZeroBytes(n: nat)
    ensures Bytes(0, n) == Zeros(n)
  {
    if n > 0 { ZeroBytes(n - 1); }
  }

  /** The two halves of the index that the code exclusive-ors in separately form the 48-bit index
      followed by the zeroed block counter. */
  lemma IndexHalves(index: u32)
    ensures Bytes(index / U16, 4) + Bytes(index % U16 * U16, 4) == Bytes(index, 6) + Zeros(2)
  {
    hide Bytes;
    assert Pow256(2) == U16;
    BytesSplit(index / U16, index % U16, 4, 2);
    BytesSplit(index % U16, 0, 2, 2);
    ZeroBytes(2);
  }

  lemma {:induction false} ZeroValue(b: seq<byte>, n: nat)
    ensures Value(b + Zeros(n)) == Value(b) * Pow256(n)
    decreases n
  {
    var s := b + Zeros(n);
    if n == 0 {
      assert s == b;
    } else {
      assert s[..|s| - 1] == b + Zeros(n - 1);
      ZeroValue(b, n - 1);
    }
  }

  lemma XorByteZero(a: byte)
    ensures XorByte(a, 0) == a
  {
    ByteBits();
    XorZero(a, BYTE_BITS);
    XorSymmetric(a, 0, BYTE_BITS);
  }

  /** A 32-bit number in four bytes, the most significant first. */
  function BigEndian(v: u32): (b: seq<byte>)
    ensures |b| == 4
  {
    [v / 0x100_0000, v / 0x1_0000 % 0x100, v / 0x100 % 0x100, v % 0x100]
  }

  lemma FourBytes(v: u32)
    ensures Bytes(v, 4) == BigEndian(v)
  {
    assert v / 256 / 256 == v / 0x1_0000 && v / 256 / 256 / 256 == v / 0x100_0000;
    assert Bytes(v / 0x100_0000, 1) == [v / 0x100_0000];
    assert Bytes(v / 0x1_0000, 2) == [v / 0x100_0000, v / 0x1_0000 % 0x100];
    assert Bytes(v / 0x100, 3) == [v / 0x100_0000, v / 0x1_0000 % 0x100, v / 0x100 % 0x100];
  }

  /** The counter start of a packet, byte by byte: the SSRC enters at bytes 4 to 7 and the index at bytes 10
      to 13, and the block counter in the last two bytes starts at zero. */
  function IvBytes(salt: Salt, ssrc: Ssrc, index: u32): (iv: Block) {
    salt[..4]
    + [XorByte(salt[4], ssrc[0]), XorByte(salt[5], ssrc[1]), XorByte(salt[6], ssrc[2]), XorByte(salt[7], ssrc[3])]
    + salt[8..10]
    + [XorByte(salt[10], index / 0x100_0000), XorByte(salt[11], index / 0x1_0000 % 0x100)]
    + [XorByte(salt[12], index / 0x100 % 0x100), XorByte(salt[13], index % 0x100)]
    + [0, 0]
  }

  lemma IndexBytes(index: u32)
    ensures Bytes(index, 6) == [0, 0] + BigEndian(index)
  {
    hide BigEndian;
    FourBytes(index);
    assert Pow256(4) == U32;
    BytesSplit(0, index, 2, 4);
    ZeroBytes(2);
    hide Bytes;
  }

  lemma PacketIvBytes(salt: Salt, ssrc: Ssrc, index: u32)
    ensures PacketIv(salt, ssrc, index) == IvBytes(salt, ssrc, index)
  {
    hide XorByte, Bytes;
    IndexBytes(index);
    forall k | 0 <= k < 14 ensures XorByte(salt[k], 0) == salt[k] { XorByteZero(salt[k]); }
    XorByteZero(0);
    var mask := Zeros(4) + ssrc + ([0, 0] + BigEndian(index)) + Zeros(2);
    var l, r := PacketIv(salt, ssrc, index), IvBytes(salt, ssrc, index);
    forall k | 0 <= k < 16 ensures l[k] == r[k] {
      assert l[k] == XorByte((salt + Zeros(2))[k], mask[k]);
    }
  }

  method XorInto(a: array<byte>, at: nat, w: seq<byte>)
    requires at + |w| <= a.Length
    modifies a
    ensures forall k :: 0 <= k < a.Length ==>
      a[k] == if at <= k < at + |w| then XorByte(old(a[k]), w[k - at]) else old(a[k])
  {
    hide XorByte;
    for i := 0 to |w|
      invariant forall k :: 0 <= k < a.Length ==>
        a[k] == if at <= k < at + i then XorByte(old(a[k]), w[k - at]) else old(a[k])
    {
      a[at + i] := XorByte(a[at + i], w[i]);
    }
  }

  method AesCmEncrypt(E: Option<Cipher>, salt: Salt, ssrc: Ssrc, s: array<byte>, index: u32, aligned: bool)
    modifies s
    ensures s[..] == match E case None => old(s[..]) case Some(e) => Ctr(e, PacketIv(salt, ssrc, index), old(s[..]))
    ensures E.Some? ==> forall i, c: Block ::
      0 <= i < s.Length && Value(c) == (Value(IvBytes(salt, ssrc, index)) + i / 16) % Pow256(16) ==>
        s[i] == XorByte(old(s[i]), E.value(c)[i % 16])
  {
    hide XorByte, Bytes, Ctr, IvBytes, Value, Pow256;
    PacketIvBytes(salt, ssrc, index);
    var iv := new byte[16](i requires 0 <= i < 16 => if i < 14 then salt[i] else 0);
    var idxh, idxl := Bytes(index / U16, 4), Bytes(index % U16 * U16, 4);
    assert iv[..] == salt + Zeros(2);
    XorInto(iv, 4, ssrc);
    XorInto(iv, 8, idxh);
    XorInto(iv, 12, idxl);
    ghost var start := salt + Zeros(2);
    ghost var mask := Zeros(4) + ssrc + idxh + idxl;
    assert mask == Zeros(4) + ssrc + Bytes(index, 6) + Zeros(2) by {
      IndexHalves(index);
      assert mask == Zeros(4) + ssrc + (idxh + idxl);
    }
    forall k | 0 <= k < 4
      ensures iv[k] == XorByte(start[k], 0)
    {
      XorByteZero(start[k]);
    }
    assert iv[..] == Xor(start, mask);
    AesCtr(s, s, E, iv[..], aligned);
  }

  /** Within 2^16 blocks the counter only changes the last two bytes. */
  lemma CounterOfPacket(salt: Salt, ssrc: Ssrc, index: nat, block: u16)
    ensures Counter(PacketIv(salt, ssrc, index), block) == PacketIv(salt, ssrc, index)[..14] + Bytes(block, 2)
  {
    hide XorByte, Bytes;
    var iv := PacketIv(salt, ssrc, index);
    XorByteZero(0);
    assert iv == iv[..14] + Zeros(2);
    ZeroValue(iv[..14], 2);
    assert Pow256(2) == U16;
    BytesSplit(Value(iv[..14]), block, 14, 2);
    BytesOfValue(iv[..14], 0);
  }

  lemma XorByteCancels(s: byte, a: byte, b: byte)
    ensures XorByte(s, a) == XorByte(s, b) <==> a == b
  {
    ByteBits();
    XorSymmetric(s, a, BYTE_BITS);
    XorSymmetric(s, b, BYTE_BITS);
    XorTwice(a, s, BYTE_BITS);
    XorTwice(b, s, BYTE_BITS);
  }

  lemma SamePrefixSamePacket(salt: Salt, ssrc: Ssrc, ssrc': Ssrc, index: u32, index': u32)
    requires PacketIv(salt, ssrc, index)[..14] == PacketIv(salt, ssrc', index')[..14]
    ensures ssrc == ssrc' && index == index'
  {
    hide XorByte, Bytes;
    var iv, iv' := PacketIv(salt, ssrc, index), PacketIv(salt, ssrc', index');
    var id, id' := ssrc + Bytes(index, 6), ssrc' + Bytes(index', 6);
    forall k | 0 <= k < 10
      ensures id[k] == id'[k]
    {
      assert iv[..14][k + 4] == iv'[..14][k + 4];
      XorByteCancels(salt[k + 4], id[k], id'[k]);
    }
    assert id == id';
    assert id[..4] == ssrc && id'[..4] == ssrc';
    assert id[4..] == Bytes(index, 6) && id'[4..] == Bytes(index', 6);
    assert Pow256(6) == 0x1_0000_0000_0000;
    BytesInjective(index, index', 6);
  }

  /** Under one salt, two keystream blocks are the same counter block exactly when they belong to the
      same SSRC, the same 32-bit packet index and the same block number. */
  lemma CounterBlocksAreDistinct(salt: Salt, ssrc: Ssrc, ssrc': Ssrc, index: u32, index': u32, block: u16, block': u16)
    ensures Counter(PacketIv(salt, ssrc, index), block) == Counter(PacketIv(salt, ssrc', index'), block')
       <==> ssrc == ssrc' && index == index' && block == block'
  {
    hide XorByte, Bytes, Counter, PacketIv;
    CounterOfPacket(salt, ssrc, index, block);
    CounterOfPacket(salt, ssrc', index', block');
    var iv, iv' := PacketIv(salt, ssrc, index), PacketIv(salt, ssrc', index');
    var c, c' := iv[..14] + Bytes(block, 2), iv'[..14] + Bytes(block', 2);
    if c == c' {
      assert c[..14] == iv[..14] && c'[..14] == iv'[..14];
      assert c[14..] == Bytes(block, 2) && c'[14..] == Bytes(block', 2);
      assert Pow256(2) == U16;
      BytesInjective(block, block', 2);
      SamePrefixSamePacket(salt, ssrc, ssrc', index, index');
    }
  }

  /** So the blocks that two packets of a session are encrypted with never coincide: block number n of one
      packet, as the encryption uses it, is that of another only if it is the same packet and number. */
  lemma BlocksUsedAreDistinct(salt: Salt, ssrc: Ssrc, ssrc': Ssrc, index: u32, index': u32,
                              block: u16, block': u16, c: Block, c': Block)
    requires Value(c) == (Value(IvBytes(salt, ssrc, index)) + block) % Pow256(16)
    requires Value(c') == (Value(IvBytes(salt, ssrc', index')) + block') % Pow256(16)
    ensures c == c' <==> ssrc == ssrc' && index == index' && block == block'
  {
    hide Value, Pow256, Counter, PacketIv, IvBytes;
    PacketIvBytes(salt, ssrc, index);
    PacketIvBytes(salt, ssrc', index');
    CounterWraps(PacketIv(salt, ssrc, index), block, c);
    CounterWraps(PacketIv(salt, ssrc', index'), block', c');
    CounterBlocksAreDistinct(salt, ssrc, ssrc', index, index', block, block');
  }

  // ----- prf_n -----

  lemma TwoZeroBytes(x: seq<byte>)
    ensures Value(x + Zeros(2)) == Value(x) * 0x1_0000
  {
    assert Pow256(2) == 0x1_0000;
    ZeroValue(x, 2);
  }

  lemma ZeroXorByte(a: byte)
    ensures XorByte(0, a) == a
  {
    ByteBits();
    XorZero(a, BYTE_BITS);
  }

  /** Byte i of a derived key is that of the cipher output for the counter x * 2^16 plus the block number. */
  lemma PrfByte(E: Cipher, x: Salt, n: nat, i: nat, c: Block)
    requires i < n && Value(c) == (Value(x) * 0x1_0000 + i / 16) % Pow256(16)
    ensures Ctr(E, x + Zeros(2), Zeros(n))[i] == E(c)[i % 16]
  {
    hide XorByte, Value, Pow256, Counter;
    TwoZeroBytes(x);
    CounterWraps(x + Zeros(2), i / 16, c);
    ZeroXorByte(E(c)[i % 16]);
  }

  /** The key derivation function: the first n keystream bytes for the counter start x * 2^16. */
  method PrfN(E: Cipher, x: Salt, n: nat, aligned: bool) returns (out: array<byte>)
    requires n <= 32
    ensures fresh(out) && out[..] == Ctr(E, x + Zeros(2), Zeros(n))
    ensures forall i, c: Block ::
      0 <= i < n && Value(c) == (Value(x) * 0x1_0000 + i / 16) % Pow256(16) ==> out[i] == E(c)[i % 16]
  {
    hide XorByte, Bytes, Value, Pow256, KeyByte;
    var iv: Block := x + seq(2, _ => 0);
    assert iv == x + Zeros(2);
    var o := new byte[32];
    var len := if n > 16 then 32 else 16;
    var zero := new byte[len](_ => 0);
    assert zero[..] == Zeros(len);
    AesCtr(o, zero, Some(E), iv, aligned);
    out := new byte[n](i requires 0 <= i < n reads o => o[i]);
    forall i | 0 <= i < n
      ensures out[i] == Ctr(E, iv, Zeros(n))[i]
    {
      assert o[..][i] == Ctr(E, iv, Zeros(len))[i];
    }
    forall i, c: Block | 0 <= i < n && Value(c) == (Value(x) * 0x1_0000 + i / 16) % Pow256(16)
      ensures out[i] == E(c)[i % 16]
    {
      PrfByte(E, x, n, i, c);
    }
  }

  // ----- aes_128_f8_encrypt -----

  /** S(j) = E(IV' XOR j XOR S(j-1)), with a 32-bit block number. */
  function F8Next(E: Cipher, ivx: Block, j: u32, last: Block): (s: Block) {
    E(Xor(Xor(ivx, Zeros(12) + Bytes(j, 4)), last))
  }

  /** S(j), from S(-1) = 0. */
  function F8Block(E: Cipher, ivx: Block, j: nat): (s: Block)
    decreases j
  {
    F8Next(E, ivx, j % U32, if j == 0 then Zeros(16) else F8Block(E, ivx, j - 1))
  }

  /** S(j - 1). */
  function F8Previous(E: Cipher, ivx: Block, j: nat): (s: Block) {
    if j == 0 then Zeros(16) else F8Block(E, ivx, j - 1)
  }

  function F8Byte(E: Cipher, ivx: Block, i: nat): (k: byte) {
    F8Block(E, ivx, i / 16)[i % 16]
  }

  function F8(E: Cipher, ivx: Block, data: seq<byte>): (r: seq<byte>)
    ensures |r| == |data|
  {
    seq(|data|, i requires 0 <= i < |data| => XorByte(data[i], F8Byte(E, ivx, i)))
  }

  lemma F8Twice(E: Cipher, ivx: Block, data: seq<byte>)
    ensures F8(E, ivx, F8(E, ivx, data)) == data
  {
    hide F8Block;
    forall i | 0 <= i < |data|
      ensures F8(E, ivx, F8(E, ivx, data))[i] == data[i]
    {
      ByteBits();
      XorTwice(data[i], F8Byte(E, ivx, i), BYTE_BITS);
    }
  }

  lemma NumberedAt(ivx: Block, number: seq<byte>, k: nat)
    requires |number| == 4 && k < 16
    ensures Xor(ivx, Zeros(12) + number)[k] == if k < 12 then ivx[k] else XorByte(ivx[k], number[k - 12])
  {
    XorByteZero(ivx[k]);
    hide XorByte;
  }

  /** One round: the next running key block. */
  method F8Round(E: Cipher, ivx: Block, j: u32, last: Block) returns (key: Block)
    ensures key == F8Next(E, ivx, j, last)
  {
    hide XorByte, Bytes, Xor, Zeros;
    var x := new byte[16](i requires 0 <= i < 16 => ivx[i]);
    var number := Bytes(j, 4);
    XorInto(x, 12, number);
    ghost var numbered := Xor(ivx, Zeros(12) + number);
    forall k | 0 <= k < 16 ensures x[k] == numbered[k] { NumberedAt(ivx, number, k); }
    XorWords(x, x, 0, last);
    assert x[..] == Xor(numbered, last);
    key := E(x[..]);
  }

  lemma F8BlockBytes(E: Cipher, ivx: Block, j: nat)
    ensures forall k :: 16 * j <= k < 16 * j + 16 ==> F8Byte(E, ivx, k) == F8Block(E, ivx, j)[k - 16 * j]
  {
    hide F8Block;
    forall k | 16 * j <= k < 16 * j + 16
      ensures F8Byte(E, ivx, k) == F8Block(E, ivx, j)[k - 16 * j]
    {
      SameBlock(16 * j, k - 16 * j);
    }
  }

  lemma F8Start(E: Cipher, ivx: Block, zeros: Block)
    requires forall i :: 0 <= i < 16 ==> zeros[i] == 0
    ensures zeros == F8Previous(E, ivx, 0)
  {
  }

  lemma F8Unfold(E: Cipher, ivx: Block, j: nat)
    ensures F8Block(E, ivx, j) == F8Next(E, ivx, j % U32, F8Previous(E, ivx, j)) == F8Previous(E, ivx, j + 1)
  {
  }

  /** The cipher input for key block j > 0: IV' and the key block before, with the block number, big-endian,
      in the last four bytes. */
  function F8Input(ivx: Block, last: Block, j: u32): (b: Block) {
    Xor(ivx[..12], last[..12]) + Xor(Xor(ivx[12..], BigEndian(j)), last[12..])
  }

  /** The key blocks of f8 mode, from the first on. */
  ghost predicate F8Keys(E: Cipher, ivx: Block, keys: seq<Block>) {
    && (keys != [] ==> keys[0] == E(ivx))
    && (forall j :: 0 < j < |keys| ==> keys[j] == E(F8Input(ivx, keys[j - 1], j % 0x1_0000_0000)))
  }

  lemma F8NextIs(E: Cipher, ivx: Block, j: u32, last: Block)
    ensures F8Next(E, ivx, j, last) == E(F8Input(ivx, last, j))
  {
    hide XorByte, Bytes, BigEndian;
    FourBytes(j);
    var l, r := Xor(Xor(ivx, Zeros(12) + Bytes(j, 4)), last), F8Input(ivx, last, j);
    forall k | 0 <= k < 16 ensures l[k] == r[k] {
      NumberedAt(ivx, Bytes(j, 4), k);
    }
    assert l == r;
  }

  lemma F8First(E: Cipher, ivx: Block)
    ensures F8Block(E, ivx, 0) == E(ivx)
  {
    hide XorByte, Bytes;
    ZeroBytes(4);
    var x := Xor(Xor(ivx, Zeros(12) + Bytes(0, 4)), Zeros(16));
    forall k | 0 <= k < 16 ensures x[k] == ivx[k] { XorByteZero(ivx[k]); }
    assert x == ivx;
  }

  /** The recurrence has exactly one solution of each length. */
  lemma {:induction false} F8KeysAre(E: Cipher, ivx: Block, keys: seq<Block>, j: nat)
    requires F8Keys(E, ivx, keys) && j < |keys|
    ensures keys[j] == F8Block(E, ivx, j)
    decreases j
  {
    hide F8Next, F8Input;
    if j == 0 {
      F8First(E, ivx);
    } else {
      F8KeysAre(E, ivx, keys, j - 1);
      F8NextIs(E, ivx, j % U32, keys[j - 1]);
    }
  }

  function F8Blocks(E: Cipher, ivx: Block, n: nat): (keys: seq<Block>)
    ensures |keys| == n && forall j :: 0 <= j < n ==> keys[j] == F8Block(E, ivx, j)
  {
    seq(n, j requires 0 <= j < n => F8Block(E, ivx, j))
  }

  lemma F8KeysExist(E: Cipher, ivx: Block, n: nat)
    ensures F8Keys(E, ivx, F8Blocks(E, ivx, n))
  {
    hide F8Next, F8Input, F8Blocks;
    var keys := F8Blocks(E, ivx, n);
    F8First(E, ivx);
    forall j | 0 < j < n
      ensures keys[j] == E(F8Input(ivx, keys[j - 1], j % U32))
    {
      F8NextIs(E, ivx, j % U32, keys[j - 1]);
    }
  }

  lemma F8ByteIs(E: Cipher, ivx: Block, i: nat)
    ensures F8Byte(E, ivx, i) == F8Block(E, ivx, i / 16)[i % 16]
  {
  }

  method AesF8Encrypt(E: Cipher, saltE: Cipher, iv: Block, s: array<byte>)
    modifies s
    ensures s[..] == F8(E, saltE(iv), old(s[..]))
    ensures forall keys: seq<Block>, i ::
      F8Keys(E, saltE(iv), keys) && 0 <= i < s.Length && i / 16 < |keys| ==>
        s[i] == XorByte(old(s[i]), keys[i / 16][i % 16])
  {
    hide XorByte, Bytes, F8Byte, F8Block, F8Next, F8Previous, F8Keys;
    var ivx := saltE(iv);
    var n := s.Length;
    var last: Block := seq(16, _ => 0);
    F8Start(E, ivx, last);
    var pos, j: u32 := 0, 0;
    ghost var blocks := 0;
    while pos < n
      invariant 0 <= pos <= n && (pos < n ==> pos == 16 * blocks && j == blocks % U32)
      invariant pos < n ==> last == F8Previous(E, ivx, blocks)
      invariant forall k :: 0 <= k < n ==>
        s[k] == if k < pos then XorByte(old(s[k]), F8Byte(E, ivx, k)) else old(s[k])
    {
      var key := F8Round(E, ivx, j, last);
      F8Unfold(E, ivx, blocks);
      var m := if n - pos < 16 then n - pos else 16;
      if m < 16 {
        XorBytes(s, s, pos, key, m);
      } else {
        XorWords(s, s, pos, key);
      }
      F8BlockBytes(E, ivx, blocks);
      pos := pos + m;
      if pos == n {
        break;
      }
      AddMod32(blocks, 1);
      j := (j as int + 1) % U32;
      last := key;
      blocks := blocks + 1;
    }
    forall keys: seq<Block>, i | F8Keys(E, ivx, keys) && 0 <= i < n && i / 16 < |keys|
      ensures s[i] == XorByte(old(s[i]), keys[i / 16][i % 16])
    {
      F8KeysAre(E, ivx, keys, i / 16);
      F8ByteIs(E, ivx, i);
    }
  }
}
