/** HMAC-SHA-512 and the key derivation over it, against RFC 2104 and RFC 5869. */
module Hkdf {
  import opened BigEndian
  import Spec = Sha512Spec
  import Sha512
  import Byte = AesBytes

  // ---- HMAC ------------------------------------------------------------------------------

  /** The key brought to one block: hashed when longer, then filled with zeros. */
  function BlockKey(key: seq<bv8>): (r: seq<bv8>)
    ensures |r| == 128
  {
    var k := if |key| > 128 then Spec.Digest(key) else key;
    k + Spec.Zeros(128 - |k|)
  }

  function Masked(k: seq<bv8>, m: bv8): (r: seq<bv8>)
    ensures |r| == |k|
  {
    seq(|k|, i requires 0 <= i < |k| => Byte.Xor(k[i], m))
  }

  /** Section 2 of RFC 2104. */
  function Hmac(key: seq<bv8>, data: seq<bv8>): (r: seq<bv8>)
    ensures |r| == 64
  {
    var k := BlockKey(key);
    Spec.Digest(Masked(k, 0x5C) + Spec.Digest(Masked(k, 0x36) + data))
  }

  /** Section 2 of RFC 2104 in its own words: the key, hashed if it is longer than a block, is filled with
      zeros to one block; the text is hashed behind the block under 0x36, and that digest behind the
      block under 0x5C. */
  lemma HmacIsStandard(key: seq<bv8>, data: seq<bv8>) returns (k: seq<bv8>, ipad: seq<bv8>, opad: seq<bv8>)
    ensures |k| == |ipad| == |opad| == 128
    ensures |key| <= 128 ==> k[..|key|] == key && forall i | |key| <= i < 128 :: k[i] == 0
    ensures |key| > 128 ==> k[..64] == Spec.Digest(key) && forall i | 64 <= i < 128 :: k[i] == 0
    ensures forall i | 0 <= i < 128 :: ipad[i] == k[i] ^ 0x36 && opad[i] == k[i] ^ 0x5C
    ensures Hmac(key, data) == Spec.Digest(opad + Spec.Digest(ipad + data))
  {
    hide Spec.Digest;
    k := BlockKey(key);
    ipad, opad := Masked(k, 0x36), Masked(k, 0x5C);
  }

  /** The two masked keys. */
  method MaskKey(key: array<bv8>, keyLen: nat) returns (ipad: array<bv8>, opad: array<bv8>)
    requires keyLen <= key.Length && keyLen <= 128
    ensures fresh(ipad) && fresh(opad) && ipad.Length == 128 && opad.Length == 128
    ensures ipad[..] == Masked(key[..keyLen] + Spec.Zeros(128 - keyLen), 0x36)
    ensures opad[..] == Masked(key[..keyLen] + Spec.Zeros(128 - keyLen), 0x5C)
  {
    hide Byte.Xor;
    ipad, opad := new bv8[128](_ => 0), new bv8[128](_ => 0);
    for i := 0 to keyLen
      invariant ipad != opad
      invariant forall k :: 0 <= k < 128 ==> ipad[k] == (if k < i then key[k] else 0) && opad[k] == ipad[k]
    {
      ipad[i], opad[i] := key[i], key[i];
    }
    ghost var padded := key[..keyLen] + Spec.Zeros(128 - keyLen);
    for i := 0 to 128
      invariant ipad != opad
      invariant forall k :: 0 <= k < 128 ==> ipad[k] == if k < i then Byte.Xor(padded[k], 0x36) else padded[k]
      invariant forall k :: 0 <= k < 128 ==> opad[k] == if k < i then Byte.Xor(padded[k], 0x5C) else padded[k]
    {
      ipad[i] := Byte.Xor(ipad[i], 0x36);
      opad[i] := Byte.Xor(opad[i], 0x5C);
    }
  }

  /** `hmac_sha512`. */
  method HmacSha512(key: array<bv8>, keyLen: nat, data: array<bv8>, dataLen: nat, digest: array<bv8>)
    requires keyLen <= key.Length && dataLen <= data.Length && digest.Length == 64
    modifies digest
    ensures digest[..] == Hmac(old(key[..keyLen]), old(data[..dataLen]))
  {
    hide Spec.Digest, Masked, Spec.Zeros;
    var k, n := key, keyLen;
    if keyLen > 128 {
      k, n := new bv8[64], 64;
      Sha512.HashBuffer(key, keyLen, k);
      assert k[..64] == k[..];
    }
    var ipad, opad := MaskKey(k, n);
    Sha512.HashJoined(ipad, data, dataLen, digest);
    assert digest[..64] == digest[..];
    Sha512.HashJoined(opad, digest, 64, digest);
  }

  // ---- HKDF ------------------------------------------------------------------------------

  /** `hkdf_sha512_extract`: a missing salt counts as sixty-four zeros. */
  method Extract(salt: array<bv8>, saltLen: nat, ikm: array<bv8>, ikmLen: nat, prk: array<bv8>)
    requires saltLen <= salt.Length && ikmLen <= ikm.Length && prk.Length == 64
    modifies prk
    ensures prk[..] == Hmac(if saltLen == 0 then Spec.Zeros(64) else old(salt[..saltLen]), old(ikm[..ikmLen]))
  {
    hide Hmac;
    if saltLen == 0 {
      var zero := new bv8[64](_ => 0);
      assert zero[..64] == Spec.Zeros(64);
      HmacSha512(zero, 64, ikm, ikmLen, prk);
    } else {
      HmacSha512(salt, saltLen, ikm, ikmLen, prk);
    }
  }

  /** T(i) of section 2.3 of RFC 5869, the counter in one byte. */
  function T(prk: seq<bv8>, info: seq<bv8>, i: nat): (r: seq<bv8>)
    ensures |r| == if i == 0 then 0 else 64
  {
    if i == 0 then [] else Hmac(prk, T(prk, info, i - 1) + info + [LowByte(i)])
  }

  /** T(1) to T(n) in a row. */
  function Output(prk: seq<bv8>, info: seq<bv8>, n: nat): (r: seq<bv8>)
    ensures |r| == 64 * n
  {
    if n == 0 then [] else Output(prk, info, n - 1) + T(prk, info, n)
  }

  /** The first `len` bytes of output keying material. */
  function Expanded(prk: seq<bv8>, info: seq<bv8>, len: nat): (r: seq<bv8>)
    ensures |r| == len
  {
    Output(prk, info, (len + 63) / 64)[..len]
  }

  /** What the kernel keeps of the context string. */
  function Clipped(info: seq<bv8>): seq<bv8> { if |info| > 128 then info[..128] else info }

  /** More output only adds to the end of less. */
  lemma {:induction false} OutputGrows(prk: seq<bv8>, info: seq<bv8>, m: nat, n: nat)
    requires m <= n
    ensures Output(prk, info, m) == Output(prk, info, n)[..64 * m]
    decreases n
  {
    hide T;
    if m < n {
      OutputGrows(prk, info, m, n - 1);
      var less := Output(prk, info, n - 1);
      assert (less + T(prk, info, n))[..64 * m] == less[..64 * m];
    }
  }

  lemma ExpandedGrows(prk: seq<bv8>, info: seq<bv8>, m: nat, n: nat)
    requires m <= n
    ensures Expanded(prk, info, m) == Expanded(prk, info, n)[..m]
  {
    hide Output;
    var p, q := (m + 63) / 64, (n + 63) / 64;
    OutputGrows(prk, info, p, q);
    assert Output(prk, info, q)[..64 * p][..m] == Output(prk, info, q)[..n][..m];
  }

  /** Section 2.3 of RFC 5869: the first block of output is the code of the context and 1, and every further
      one that of the block before it, the context and its own number. */
  lemma NextBlock(prk: seq<bv8>, info: seq<bv8>, n: nat)
    ensures Expanded(prk, info, 64) == Hmac(prk, info + [1])
    ensures n >= 1 ==> Expanded(prk, info, 64 * n + 64)[64 * n..]
                       == Hmac(prk, Expanded(prk, info, 64 * n)[64 * (n - 1)..] + info + [LowByte(n + 1)])
  {
    hide Hmac, LowByte;
    OneByte();
    assert T(prk, info, 0) + info == info;
    assert Output(prk, info, 0) + T(prk, info, 1) == T(prk, info, 1);
    assert Output(prk, info, 1) == T(prk, info, 1);
    if n >= 1 {
      WholeBlocks(prk, info, n);
      WholeBlocks(prk, info, n + 1);
    }
  }

  lemma OneByte()
    ensures LowByte(1) == 1
  {
  }

  lemma WholeBlocks(prk: seq<bv8>, info: seq<bv8>, n: nat)
    requires n >= 1
    ensures Expanded(prk, info, 64 * n)[64 * (n - 1)..] == T(prk, info, n)
  {
    hide T;
    assert (64 * n + 63) / 64 == n;
    assert Output(prk, info, n)[..64 * n] == Output(prk, info, n);
  }

  /** The bytes hashed in turn `i`. */
  method Gather(t: array<bv8>, info: array<bv8>, infoLen: nat, i: nat) returns (temp: array<bv8>, tempLen: nat)
    requires t.Length == 64 && infoLen <= info.Length && i >= 1
    ensures fresh(temp) && temp.Length == 193 && tempLen <= 193
    ensures temp[..tempLen] == (if i > 1 then t[..] else []) + Clipped(info[..infoLen]) + [LowByte(i)]
  {
    hide LowByte;
    temp, tempLen := new bv8[193], 0;
    if i > 1 {
      CopyIn(temp, 0, t, 64);
      tempLen := 64;
      assert t[..64] == t[..];
    }
    var copyLen := if infoLen > 128 then 128 else infoLen;
    CopyIn(temp, tempLen, info, copyLen);
    assert info[..copyLen] == Clipped(info[..infoLen]);
    tempLen := tempLen + copyLen;
    temp[tempLen] := LowByte(i);
    tempLen := tempLen + 1;
  }

  /** `memcpy` of the first `count` bytes of `src` to position `at`. */
  method CopyIn(temp: array<bv8>, at: nat, src: array<bv8>, count: nat)
    requires count <= src.Length && at + count <= temp.Length && temp != src
    modifies temp
    ensures temp[..at + count] == old(temp[..at]) + src[..count]
  {
    for k := 0 to count
      invariant temp[..at + k] == old(temp[..at]) + src[..k]
    {
      temp[at + k] := src[k];
    }
  }

  /**
   * `hkdf_sha512_expand`: the output of RFC 5869 for the first 128 bytes of the context string, the
   * counter taken modulo 256.
   */
  method Expand(prk: array<bv8>, info: array<bv8>, infoLen: nat, okm: array<bv8>, okmLen: nat)
    requires prk.Length == 64 && infoLen <= info.Length && okmLen <= okm.Length && okm != prk && okm != info
    modifies okm
    ensures okm[..okmLen] == Expanded(prk[..], Clipped(info[..infoLen]), okmLen)
    ensures infoLen <= 128 ==> okm[..okmLen] == Expanded(prk[..], info[..infoLen], okmLen)
    ensures okm[okmLen..] == old(okm[okmLen..])
  {
    hide T;
    ghost var p, c := prk[..], Clipped(info[..infoLen]);
    var t := new bv8[64];
    var n := (okmLen + 63) / 64;
    var offset := 0;
    for i := 1 to n + 1
      invariant offset == (if 64 * (i - 1) <= okmLen then 64 * (i - 1) else okmLen)
      invariant i > 1 ==> t[..] == T(p, c, i - 1)
      invariant okm[..offset] == Output(p, c, i - 1)[..offset]
      invariant okm[okmLen..] == old(okm[okmLen..])
    {
      assert Output(p, c, i - 1)[..offset] == Output(p, c, i - 1);
      NextT(prk, info, infoLen, t, i);
      var copyBytes := if offset + 64 > okmLen then okmLen - offset else 64;
      CopyOut(t, okm, offset, copyBytes, okmLen);
      OutputPart(p, c, i, offset, copyBytes);
      offset := offset + copyBytes;
    }
  }

  /** One turn: from T(i - 1) to T(i). */
  method NextT(prk: array<bv8>, info: array<bv8>, infoLen: nat, t: array<bv8>, i: nat)
    requires prk.Length == 64 && infoLen <= info.Length && t.Length == 64 && i >= 1 && t != prk && t != info
    requires i > 1 ==> t[..] == T(prk[..], Clipped(info[..infoLen]), i - 1)
    modifies t
    ensures t[..] == T(prk[..], Clipped(info[..infoLen]), i)
  {
    hide Hmac, LowByte, Clipped;
    var temp, tempLen := Gather(t, info, infoLen, i);
    assert prk[..64] == prk[..];
    HmacSha512(prk, 64, temp, tempLen, t);
  }

  method CopyOut(t: array<bv8>, okm: array<bv8>, offset: nat, count: nat, okmLen: nat)
    requires t.Length == 64 && count <= 64 && offset + count <= okmLen <= okm.Length && t != okm
    modifies okm
    ensures okm[..offset + count] == old(okm[..offset]) + t[..count]
    ensures okm[okmLen..] == old(okm[okmLen..])
  {
    for k := 0 to count
      invariant okm[..offset + k] == old(okm[..offset]) + t[..k]
      invariant okm[okmLen..] == old(okm[okmLen..])
    {
      okm[offset + k] := t[k];
    }
  }

  lemma OutputPart(p: seq<bv8>, c: seq<bv8>, i: nat, offset: nat, count: nat)
    requires i >= 1 && offset == 64 * (i - 1) && count <= 64
    ensures Output(p, c, i)[..offset + count] == Output(p, c, i - 1) + T(p, c, i)[..count]
  {
    hide T;
  }

  /** Context strings that differ only after 128 bytes derive the same key. */
  lemma LongContextsCollide(prk: seq<bv8>, info: seq<bv8>, tail: seq<bv8>, other: seq<bv8>, len: nat)
    requires |info| == 128
    ensures Expanded(prk, Clipped(info + tail), len) == Expanded(prk, Clipped(info + other), len)
  {
    hide Expanded;
    assert Clipped(info + tail) == info == Clipped(info + other);
  }
}
