/**
  Blocks are 16 bytes. Cipher block chaining, section 6.2 of NIST SP 800-38A, and PKCS#7 padding,
  section 6.3 of RFC 5652. The block cipher is any permutation of the blocks.
 */
module Cbc {
  import opened Wrappers
  import opened Base64

  type Bytes = seq<Byte>

  datatype BlockCipher = BlockCipher(enc: Bytes -> Bytes, dec: Bytes -> Bytes)

  ghost predicate Invertible(c: BlockCipher, b: Bytes) {
    |c.enc(b)| == 16 && |c.dec(b)| == 16 && c.dec(c.enc(b)) == b && c.enc(c.dec(b)) == b
  }

  /** What is assumed of AES under one key. */
  ghost predicate IsPermutation(c: BlockCipher) {
    forall b: Bytes :: |b| == 16 ==> Invertible(c, b)
  }

  function EncryptBlock(c: BlockCipher, b: Bytes): (r: Bytes)
    requires IsPermutation(c) && |b| == 16
    ensures |r| == 16
  {
    assert Invertible(c, b);
    c.enc(b)
  }

  function DecryptBlock(c: BlockCipher, b: Bytes): (r: Bytes)
    requires IsPermutation(c) && |b| == 16
    ensures |r| == 16
  {
    assert Invertible(c, b);
    c.dec(b)
  }

  lemma BlockUndone(c: BlockCipher, b: Bytes)
    requires IsPermutation(c) && |b| == 16
    ensures DecryptBlock(c, EncryptBlock(c, b)) == b && EncryptBlock(c, DecryptBlock(c, b)) == b
  {
    assert Invertible(c, b);
  }

  // ---------- exclusive or ----------

  /** Of the lowest `bits` bits. */
  function XorBits(a: nat, b: nat, bits: nat): nat {
    if bits == 0 then 0
    else (if a % 2 == b % 2 then 0 else 1) + 2 * XorBits(a / 2, b / 2, bits - 1)
  }

  function Pow2(n: nat): nat { if n == 0 then 1 else 2 * Pow2(n - 1) }

  lemma {:induction false} XorTwice(a: nat, b: nat, bits: nat)
    requires a < Pow2(bits)
    ensures XorBits(XorBits(a, b, bits), b, bits) == a && XorBits(a, b, bits) < Pow2(bits)
  {
    if bits == 0 {
    } else {
      XorTwice(a / 2, b / 2, bits - 1);
      var x := XorBits(a, b, bits);
      assert x / 2 == XorBits(a / 2, b / 2, bits - 1);
      assert x % 2 == if a % 2 == b % 2 then 0 else 1;
    }
  }

  lemma {:induction false} XorBound(a: nat, b: nat, bits: nat)
    ensures XorBits(a, b, bits) < Pow2(bits)
  {
    if bits == 0 {
    } else {
      XorBound(a / 2, b / 2, bits - 1);
    }
  }

  lemma Pow2Of8()
    ensures Pow2(8) == 256
  {
    assert Pow2(4) == 16;
  }

  function Xor(a: Byte, b: Byte): Byte {
    XorBound(a, b, 8);
    Pow2Of8();
    XorBits(a, b, 8)
  }

  lemma XorUndone(a: Byte, b: Byte)
    ensures Xor(Xor(a, b), b) == a
  {
    Pow2Of8();
    XorTwice(a, b, 8);
  }

  /** Bit k of a number. */
  predicate Bit(x: nat, k: nat) {
    if k == 0 then x % 2 == 1 else Bit(x / 2, k - 1)
  }

  lemma {:induction false} XorBitwise(a: nat, b: nat, bits: nat, k: nat)
    requires k < bits
    ensures Bit(XorBits(a, b, bits), k) <==> Bit(a, k) != Bit(b, k)
  {
    var x := XorBits(a, b, bits);
    assert x / 2 == XorBits(a / 2, b / 2, bits - 1);
    assert x % 2 == if a % 2 == b % 2 then 0 else 1;
    if k == 0 {
    } else {
      XorBitwise(a / 2, b / 2, bits - 1, k - 1);
    }
  }

  function XorBlock(a: Bytes, b: Bytes): (r: Bytes)
    requires |a| == |b| == 16
    ensures |r| == 16
  {
    seq(16, i requires 0 <= i < 16 => Xor(a[i], b[i]))
  }

  /** Exclusive or: a bit is set exactly where the two blocks differ. */
  lemma XorIsExclusiveOr(a: Bytes, b: Bytes, i: nat, k: nat)
    requires |a| == |b| == 16 && i < 16 && k < 8
    ensures Bit(XorBlock(a, b)[i], k) <==> Bit(a[i], k) != Bit(b[i], k)
  {
    XorBitwise(a[i], b[i], 8, k);
  }

  lemma {:induction false} XorZero(a: nat, bits: nat)
    requires a < Pow2(bits)
    ensures XorBits(a, 0, bits) == a
  {
    if bits == 0 {
    } else {
      XorZero(a / 2, bits - 1);
    }
  }

  lemma XorBlockZero(a: Bytes)
    requires |a| == 16
    ensures XorBlock(a, Repeat(0, 16)) == a
  {
    Pow2Of8();
    forall i | 0 <= i < 16 ensures XorBlock(a, Repeat(0, 16))[i] == a[i] {
      XorZero(a[i], 8);
    }
  }

  lemma XorBlockUndone(a: Bytes, b: Bytes)
    requires |a| == |b| == 16
    ensures XorBlock(XorBlock(a, b), b) == a
  {
    forall i | 0 <= i < 16 ensures XorBlock(XorBlock(a, b), b)[i] == a[i] {
      XorUndone(a[i], b[i]);
    }
  }

  // ---------- chaining ----------

  ghost function Encrypted(c: BlockCipher, iv: Bytes, data: Bytes): (r: Bytes)
    requires IsPermutation(c) && |iv| == 16 && |data| % 16 == 0
    ensures |r| == |data|
    decreases |data|
  {
    if data == [] then []
    else
      var block := EncryptBlock(c, XorBlock(data[..16], iv));
      block + Encrypted(c, block, data[16..])
  }

  ghost function Decrypted(c: BlockCipher, iv: Bytes, data: Bytes): (r: Bytes)
    requires IsPermutation(c) && |iv| == 16 && |data| % 16 == 0
    ensures |r| == |data|
    decreases |data|
  {
    if data == [] then []
    else XorBlock(DecryptBlock(c, data[..16]), iv) + Decrypted(c, data[..16], data[16..])
  }

  /** Block i of a text. */
  function Block(data: Bytes, i: nat): Bytes
    requires 16 * i + 16 <= |data|
  {
    data[16 * i..16 * i + 16]
  }

  /** Each ciphertext block is the image of its plaintext block, exclusive or the ciphertext block before. */
  lemma {:induction false} CiphertextBlocks(c: BlockCipher, iv: Bytes, data: Bytes, i: nat)
    requires IsPermutation(c) && |iv| == 16 && |data| % 16 == 0 && 16 * i + 16 <= |data|
    ensures var e := Encrypted(c, iv, data);
            Block(e, i) == c.enc(XorBlock(Block(data, i), if i == 0 then iv else Block(e, i - 1)))
    decreases i
  {
    var block, tail := data[..16], data[16..];
    var first := EncryptBlock(c, XorBlock(block, iv));
    var rest := Encrypted(c, first, tail);
    var e := first + rest;
    EncryptedUnfolds(c, iv, data);
    assert data == block + tail;
    if i == 0 {
      assert Block(e, 0) == first && Block(data, 0) == block;
    } else {
      CiphertextBlocks(c, first, tail, i - 1);
      NextBlock(block, tail, i);
      NextBlock(first, rest, i);
      if i == 1 {
        assert Block(e, 0) == first;
      } else {
        NextBlock(first, rest, i - 1);
      }
    }
  }

  lemma EncryptedUnfolds(c: BlockCipher, iv: Bytes, data: Bytes)
    requires IsPermutation(c) && |iv| == 16 && |data| % 16 == 0 && data != []
    ensures var first := EncryptBlock(c, XorBlock(data[..16], iv));
            |data| >= 16 && Encrypted(c, iv, data) == first + Encrypted(c, first, data[16..])
  {
  }

  lemma NextBlock(first: Bytes, rest: Bytes, i: nat)
    requires |first| == 16 && i > 0 && 16 * i <= |rest|
    ensures Block(first + rest, i) == Block(rest, i - 1)
  {
  }

  lemma {:induction false} DecryptUndoesEncrypt(c: BlockCipher, iv: Bytes, data: Bytes)
    requires IsPermutation(c) && |iv| == 16 && |data| % 16 == 0
    ensures Decrypted(c, iv, Encrypted(c, iv, data)) == data
    decreases |data|
  {
    if data == [] {
    } else {
      var x := XorBlock(data[..16], iv);
      var block, rest := EncryptBlock(c, x), Encrypted(c, EncryptBlock(c, x), data[16..]);
      assert (block + rest)[..16] == block && (block + rest)[16..] == rest;
      BlockUndone(c, x);
      XorBlockUndone(data[..16], iv);
      DecryptUndoesEncrypt(c, block, data[16..]);
      assert data == data[..16] + data[16..];
    }
  }

  lemma {:induction false} EncryptUndoesDecrypt(c: BlockCipher, iv: Bytes, data: Bytes)
    requires IsPermutation(c) && |iv| == 16 && |data| % 16 == 0
    ensures Encrypted(c, iv, Decrypted(c, iv, data)) == data
    decreases |data|
  {
    if data == [] {
    } else {
      var block := data[..16];
      var plain, rest := XorBlock(DecryptBlock(c, block), iv), Decrypted(c, block, data[16..]);
      assert (plain + rest)[..16] == plain && (plain + rest)[16..] == rest;
      BlockUndone(c, block);
      XorBlockUndone(DecryptBlock(c, block), iv);
      EncryptUndoesDecrypt(c, block, data[16..]);
      assert data == data[..16] + data[16..];
    }
  }

  // ---------- padding ----------

  function Repeat(b: Byte, n: nat): (r: Bytes)
    ensures |r| == n
  {
    seq(n, i => b)
  }

  function Padded(data: Bytes): (r: Bytes)
    ensures |r| % 16 == 0 && r != []
  {
    var padding := 16 - |data| % 16;
    data + Repeat(padding, padding)
  }

  function Unpadded(data: Bytes): Option<Bytes> {
    if data == [] then None
    else
      var padding := data[|data| - 1];
      if padding == 0 || padding > 16 || padding > |data| then None
      else if forall i :: |data| - padding <= i < |data| ==> data[i] == padding then Some(data[..|data| - padding])
      else None
  }

  /** To the next whole block, and at least by one byte; each byte added is their number. */
  lemma PaddingIsPkcs7(data: Bytes)
    ensures var r := Padded(data);
            && data <= r && |data| < |r| <= |data| + 16 && |r| % 16 == 0
            && forall i :: |data| <= i < |r| ==> r[i] == |r| - |data|
  {
  }

  /** Whole blocks unpad to `p` exactly when they are the padding of `p`. */
  lemma UnpadExactly(data: Bytes, p: Bytes)
    requires |data| % 16 == 0
    ensures Unpadded(data) == Some(p) <==> data == Padded(p)
  {
    if Unpadded(data) == Some(p) {
      var padding := data[|data| - 1];
      assert data[|data| - padding..] == Repeat(padding, padding);
      assert data == p + Repeat(padding, padding);
      assert |p| % 16 == (16 - padding) % 16;
    }
    if data == Padded(p) {
      var padding := 16 - |p| % 16;
      assert data[|data| - 1] == Repeat(padding, padding)[padding - 1];
      assert data[..|p|] == p;
    }
  }

  // ---------- the loops ----------

  /** The first i bytes are done, and chaining on from `prev` finishes the job. */
  ghost predicate Chained(c: BlockCipher, data: Bytes, i: nat, prev: Bytes, done: Bytes, all: Bytes)
    requires IsPermutation(c) && |data| % 16 == 0
  {
    i <= |data| && i % 16 == 0 && |prev| == 16 && done + Encrypted(c, prev, data[i..]) == all
  }

  lemma ChainBlock(c: BlockCipher, data: Bytes, i: nat, prev: Bytes, done: Bytes, all: Bytes)
    requires IsPermutation(c) && |data| % 16 == 0
    requires Chained(c, data, i, prev, done, all) && i < |data|
    ensures i + 16 <= |data|
    ensures var block := EncryptBlock(c, XorBlock(data[i..i + 16], prev));
            |block| == 16 && Chained(c, data, i + 16, block, done + block, all)
  {
    var rest := data[i..];
    assert rest[..16] == data[i..i + 16] && rest[16..] == data[i + 16..];
    var block := EncryptBlock(c, XorBlock(data[i..i + 16], prev));
    assert done + (block + Encrypted(c, block, data[i + 16..])) == done + block + Encrypted(c, block, data[i + 16..]);
  }

  method WriteBlock(buffer: array<Byte>, i: nat, block: Bytes)
    requires |block| == 16 && i + 16 <= buffer.Length
    modifies buffer
    ensures buffer[..i + 16] == old(buffer[..i]) + block && buffer[i + 16..] == old(buffer[i + 16..])
  {
    for k := 0 to 16
      invariant buffer[..i + k] == old(buffer[..i]) + block[..k]
      invariant buffer[i + 16..] == old(buffer[i + 16..])
    {
      buffer[i + k] := block[k];
    }
  }

  lemma SameTail(a: Bytes, b: Bytes, i: nat)
    requires i + 16 <= |a| && i + 16 <= |b| && a[i..] == b[i..]
    ensures a[i..i + 16] == b[i..i + 16] && a[i + 16..] == b[i + 16..]
  {
    assert a[i..][..16] == a[i..i + 16] && b[i..][..16] == b[i..i + 16];
    assert a[i..][16..] == a[i + 16..] && b[i..][16..] == b[i + 16..];
  }

  /** Chains the buffer through the cipher in place, block by block. */
  method EncryptBlocks(c: BlockCipher, iv: Bytes, buffer: array<Byte>)
    requires IsPermutation(c) && |iv| == 16 && buffer.Length % 16 == 0
    modifies buffer
    ensures buffer[..] == Encrypted(c, iv, old(buffer[..]))
  {
    var prev := iv;
    var i := 0;
    ghost var data := buffer[..];
    assert data[0..] == data;
    while i < buffer.Length
      invariant 0 <= i <= buffer.Length
      invariant Chained(c, data, i, prev, buffer[..i], Encrypted(c, iv, data))
      invariant buffer[..][i..] == data[i..]
    {
      ghost var done := buffer[..i];
      ChainBlock(c, data, i, prev, done, Encrypted(c, iv, data));
      SameTail(buffer[..], data, i);
      var block := EncryptBlock(c, XorBlock(buffer[i..i + 16], prev));
      WriteBlock(buffer, i, block);
      prev := block;
      i := i + 16;
    }
    assert buffer[..i] == buffer[..];
  }

  ghost predicate Unchained(c: BlockCipher, data: Bytes, i: nat, prev: Bytes, done: Bytes, all: Bytes)
    requires IsPermutation(c) && |data| % 16 == 0
  {
    i <= |data| && i % 16 == 0 && |prev| == 16 && done + Decrypted(c, prev, data[i..]) == all
  }

  lemma UnchainBlock(c: BlockCipher, data: Bytes, i: nat, prev: Bytes, done: Bytes, all: Bytes)
    requires IsPermutation(c) && |data| % 16 == 0
    requires Unchained(c, data, i, prev, done, all) && i < |data|
    ensures i + 16 <= |data|
    ensures var block := XorBlock(DecryptBlock(c, data[i..i + 16]), prev);
            Unchained(c, data, i + 16, data[i..i + 16], done + block, all)
  {
    var next, rest := data[i..i + 16], data[i + 16..];
    assert data[i..] == next + rest;
    FirstBlockDecrypted(c, prev, next, rest);
    var block := XorBlock(DecryptBlock(c, next), prev);
    assert done + (block + Decrypted(c, next, rest)) == done + block + Decrypted(c, next, rest);
  }

  lemma FirstBlockDecrypted(c: BlockCipher, prev: Bytes, block: Bytes, rest: Bytes)
    requires IsPermutation(c) && |prev| == |block| == 16 && |rest| % 16 == 0
    ensures Decrypted(c, prev, block + rest) == XorBlock(DecryptBlock(c, block), prev) + Decrypted(c, block, rest)
  {
    assert (block + rest)[..16] == block && (block + rest)[16..] == rest;
  }

  method DecryptBlocks(c: BlockCipher, iv: Bytes, source: Bytes) returns (plain: array<Byte>)
    requires IsPermutation(c) && |iv| == 16 && |source| % 16 == 0
    ensures fresh(plain) && plain[..] == Decrypted(c, iv, source)
  {
    plain := new Byte[|source|](_ => 0);
    var prev := iv;
    var i := 0;
    assert source[0..] == source;
    while i < |source|
      invariant 0 <= i <= |source|
      invariant Unchained(c, source, i, prev, plain[..i], Decrypted(c, iv, source))
    {
      UnchainBlock(c, source, i, prev, plain[..i], Decrypted(c, iv, source));
      var block := XorBlock(DecryptBlock(c, source[i..i + 16]), prev);
      WriteBlock(plain, i, block);
      prev := source[i..i + 16];
      i := i + 16;
    }
    assert plain[..i] == plain[..];
  }
}
