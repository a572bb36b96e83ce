/**
 * The XOR keystream cipher of client_tcp.py (`derive_key_bytes`,
 * `encrypt_bytes`, `decrypt_bytes`).  SHA-256 is a foreign primitive here:
 * it is the parameter `hash`, any function from bytes to a 32-byte digest.
 */
module Cipher {
  import opened Common

  const BLOCK: nat := 32
  /** Counters are written with `to_bytes(8, 'big')`, so they stay below 2^64. */
  const COUNTER_LIMIT: nat := 0x1_0000_0000_0000_0000

  type Digest = d: Bytes | |d| == 32 witness seq(32, _ => 0 as Byte)

  function Pow256(n: nat): (r: nat)
    ensures r >= 1
  {
    if n == 0 then 1 else 256 * Pow256(n - 1)
  }

  /** `n.to_bytes(width, 'big')`: most significant byte first. */
  function BigEndian(n: nat, width: nat): (r: Bytes)
    requires n < Pow256(width)
    ensures |r| == width
  {
    if width == 0 then [] else BigEndian(n / 256, width - 1) + [(n % 256) as Byte]
  }

  /** `int.from_bytes(s, 'big')`, the inverse reading of a big-endian field. */
  function BigEndianValue(s: Bytes): nat
  {
    if s == [] then 0 else BigEndianValue(s[..|s| - 1]) * 256 + s[|s| - 1] as nat
  }

  /** The 8-byte counter field reads back as the counter: distinct blocks hash distinct inputs. */
  lemma {:induction false} BigEndianRoundTrip(n: nat, width: nat)
    requires n < Pow256(width)
    ensures BigEndianValue(BigEndian(n, width)) == n
  {
    if width > 0 {
      var s := BigEndian(n, width);
      assert s[..|s| - 1] == BigEndian(n / 256, width - 1);
      BigEndianRoundTrip(n / 256, width - 1);
      assert ((n % 256) as Byte) as nat == n % 256;
    }
  }

  lemma Pow256Of8()
    ensures Pow256(8) == COUNTER_LIMIT
  {
  }

  /** Keystream block `counter`: sha256(secret + counter.to_bytes(8, 'big')). */
  function Block(hash: Bytes -> Digest, secret: Bytes, counter: nat): (r: Digest)
    requires counter < COUNTER_LIMIT
  {
    Pow256Of8();
    hash(secret + BigEndian(counter, 8))
  }

  /** Byte i of the keystream: byte i % 32 of block i / 32. */
  function KeyByte(hash: Bytes -> Digest, secret: Bytes, i: nat): Byte
    requires i < BLOCK * COUNTER_LIMIT
  {
    Block(hash, secret, i / BLOCK)[i % BLOCK]
  }

  /** `derive_key_bytes`: concatenate keystream blocks until `length` bytes, then truncate. */
  method DeriveKeyBytes(hash: Bytes -> Digest, secret: Bytes, length: int) returns (key: Bytes)
    requires length <= BLOCK * COUNTER_LIMIT
    ensures |key| == Max(0, length)
    ensures forall i :: 0 <= i < |key| ==> key[i] == KeyByte(hash, secret, i)
  {
    var out: Bytes := [];
    var counter: nat := 0;
    while |out| < length
      invariant |out| == BLOCK * counter <= BLOCK * COUNTER_LIMIT
      invariant forall i :: 0 <= i < |out| ==> out[i] == KeyByte(hash, secret, i)
      decreases length - |out|
    {
      var block := Block(hash, secret, counter);
      out := out + block;
      counter := counter + 1;
    }
    key := if length <= 0 then [] else out[..length];
  }

  /** The cipher's meaning: byte k of the output is byte k of the input XOR keystream byte k. */
  function Xored(hash: Bytes -> Digest, data: Bytes, secret: Bytes): (r: Bytes)
    requires |data| <= BLOCK * COUNTER_LIMIT
    ensures |r| == |data|
  {
    seq(|data|, k requires 0 <= k < |data| => data[k] ^ KeyByte(hash, secret, k))
  }

  /**
   * `encrypt_bytes`: fills a zeroed bytearray block by block; block i uses
   * keystream block i // 32, so the pad is exactly `derive_key_bytes(key, len(data))`.
   */
  method EncryptBytes(hash: Bytes -> Digest, data: Bytes, secret: Bytes) returns (r: Bytes)
    requires |data| <= BLOCK * COUNTER_LIMIT
    ensures |r| == |data|
    ensures forall k :: 0 <= k < |data| ==> r[k] == data[k] ^ KeyByte(hash, secret, k)
  {
    var out := new Byte[|data|];
    var i := 0;
    while i < |data|
      invariant 0 <= i && i % BLOCK == 0
      invariant forall k :: 0 <= k < i && k < |data| ==> out[k] == data[k] ^ KeyByte(hash, secret, k)
      decreases |data| - i
    {
      var ks := Block(hash, secret, i / BLOCK);
      var chunk := data[i .. Min(i + BLOCK, |data|)];
      XorChunk(out, i, chunk, ks);
      forall k | i <= k < i + |chunk|
        ensures out[k] == data[k] ^ KeyByte(hash, secret, k)
      {
        BlockOffset(i, k - i);
      }
      i := i + BLOCK;
    }
    r := out[..];
  }

  /** The inner loop of `encrypt_bytes`: out[at + j] = chunk[j] ^ ks[j] for each byte of the chunk. */
  method XorChunk(out: array<Byte>, at: nat, chunk: Bytes, ks: Digest)
    requires at + |chunk| <= out.Length && |chunk| <= BLOCK
    modifies out
    ensures forall k :: 0 <= k < out.Length ==>
      out[k] == (if at <= k < at + |chunk| then chunk[k - at] ^ ks[k - at] else old(out[k]))
  {
    var j := 0;
    while j < |chunk|
      invariant 0 <= j <= |chunk|
      invariant forall k :: 0 <= k < out.Length ==>
        out[k] == (if at <= k < at + j then chunk[k - at] ^ ks[k - at] else old(out[k]))
    {
      out[at + j] := chunk[j] ^ ks[j];
      j := j + 1;
    }
  }

  lemma BlockOffset(i: nat, j: nat)
    requires i % BLOCK == 0 && j < BLOCK
    ensures (i + j) / BLOCK == i / BLOCK && (i + j) % BLOCK == j
  {
  }

  /** `decrypt_bytes` is `encrypt_bytes` with the same key. */
  method DecryptBytes(hash: Bytes -> Digest, data: Bytes, secret: Bytes) returns (r: Bytes)
    requires |data| <= BLOCK * COUNTER_LIMIT
    ensures r == Xored(hash, data, secret)
  {
    r := EncryptBytes(hash, data, secret);
  }

  /** Decrypting an encryption with the same key returns the plaintext, for every hash function. */
  lemma DecryptInvertsEncrypt(hash: Bytes -> Digest, data: Bytes, secret: Bytes)
    requires |data| <= BLOCK * COUNTER_LIMIT
    ensures Xored(hash, Xored(hash, data, secret), secret) == data
  {
    var c := Xored(hash, data, secret);
    forall k | 0 <= k < |data|
      ensures Xored(hash, c, secret)[k] == data[k]
    {
      var p := KeyByte(hash, secret, k);
      assert (data[k] ^ p) ^ p == data[k];
    }
  }
}
