/**
 * The streaming hash as the kernel keeps it: eight words of state, a bit counter and a buffer of
 * one block.
 */
module Sha512 {
  import opened BigEndian
  import opened Sha512Spec

  const Wrap: nat := 0x1_0000_0000_0000_0000

  lemma Remainder(k: nat, r: nat)
    ensures (128 * k + r) % 128 == r % 128
  {
  }

  lemma BitRemainder(q: nat, r: nat)
    requires r < 0x2000_0000_0000_0000
    ensures 8 * (0x2000_0000_0000_0000 * q + r) % Wrap == 8 * r
  {
    assert 8 * (0x2000_0000_0000_0000 * q + r) == Wrap * q + 8 * r;
  }

  /** The position in the buffer, from the bit counter, even after the counter has wrapped. */
  lemma ActiveOf(n: nat)
    ensures 8 * n % Wrap / 8 % 128 == n % 128
  {
    var q, r := n / 0x2000_0000_0000_0000, n % 0x2000_0000_0000_0000;
    BitRemainder(q, r);
    Remainder(0x40_0000_0000_0000 * q, r);
  }

  lemma NextBitlen(n: nat)
    ensures (8 * n % Wrap + 8) % Wrap == 8 * (n + 1) % Wrap
  {
    var q, r := 8 * n / Wrap, 8 * n % Wrap;
    assert 8 * n == Wrap * q + r;
  }

  // ---- sha512_transform ------------------------------------------------------------------

  lemma ScheduledStep(b: Block, i: nat)
    ensures i < 16 ==> (Scheduled(b, i)
      == Join(b[8 * i], b[8 * i + 1], b[8 * i + 2], b[8 * i + 3], b[8 * i + 4], b[8 * i + 5], b[8 * i + 6], b[8 * i + 7]))
    ensures i >= 16 ==> (Scheduled(b, i)
      == Add(Add(Add(SmallSigma1(Scheduled(b, i - 2)), Scheduled(b, i - 7)), SmallSigma0(Scheduled(b, i - 15))), Scheduled(b, i - 16)))
  {
    hide Join, Add, SmallSigma0, SmallSigma1;
  }

  /** The message schedule. */
  method Schedule(data: array<bv8>) returns (m: array<bv64>)
    requires data.Length == 128
    ensures fresh(m) && m.Length == 80
    ensures forall i :: 0 <= i < 80 ==> m[i] == Scheduled(data[..], i)
  {
    hide Join, Add, SmallSigma0, SmallSigma1, Scheduled;
    m := new bv64[80];
    var i, j := 0, 0;
    while i < 16
      invariant 0 <= i <= 16 && j == 8 * i
      invariant forall k :: 0 <= k < i ==> m[k] == Scheduled(data[..], k)
    {
      ScheduledStep(data[..], i);
      m[i] := Join(data[j], data[j + 1], data[j + 2], data[j + 3], data[j + 4], data[j + 5], data[j + 6], data[j + 7]);
      i, j := i + 1, j + 8;
    }
    while i < 80
      invariant 16 <= i <= 80
      invariant forall k :: 0 <= k < i ==> m[k] == Scheduled(data[..], k)
    {
      ScheduledStep(data[..], i);
      m[i] := Add(Add(Add(SmallSigma1(m[i - 2]), m[i - 7]), SmallSigma0(m[i - 15])), m[i - 16]);
      i := i + 1;
    }
  }

  /** The eighty rounds. */
  method Mix(ks: seq<bv64>, h0: Hash, data: array<bv8>, m: array<bv64>) returns (w: Work)
    requires |ks| == 80 && data.Length == 128 && m.Length == 80
    requires forall k :: 0 <= k < 80 ==> m[k] == Scheduled(data[..], k)
    ensures w == Rounds(ks, h0, data[..], 80)
  {
    hide Add, Ch, Maj, BigSigma0, BigSigma1, Scheduled;
    var a, b, c, d := h0[0], h0[1], h0[2], h0[3];
    var e, f, g, h := h0[4], h0[5], h0[6], h0[7];
    for i := 0 to 80
      invariant Rounds(ks, h0, data[..], i) == Work(a, b, c, d, e, f, g, h)
    {
      var t1 := Add(Add(Add(Add(h, BigSigma1(e)), Ch(e, f, g)), ks[i]), m[i]);
      var t2 := Add(BigSigma0(a), Maj(a, b, c));
      h := g;
      g := f;
      f := e;
      e := Add(d, t1);
      d := c;
      c := b;
      b := a;
      a := Add(t1, t2);
    }
    w := Work(a, b, c, d, e, f, g, h);
  }

  /** `sha512_transform`. */
  method Transform(state: array<bv64>, data: array<bv8>)
    requires state.Length == 8 && data.Length == 128
    modifies state
    ensures state[..] == Compress(old(state[..]), data[..])
  {
    hide Rounds, Add, K;
    var m := Schedule(data);
    var w := Mix(K(), state[..], data, m);
    AddWork(state, w);
  }

  method AddWork(state: array<bv64>, w: Work)
    requires state.Length == 8
    modifies state
    ensures state[..] == AddUp(old(state[..]), w)
  {
    hide Add;
    AddHalf(state, 0, w.a, w.b, w.c, w.d);
    AddHalf(state, 4, w.e, w.f, w.g, w.h);
    assert state[..] == state[..4] + state[4..];
  }

  method AddHalf(state: array<bv64>, from: nat, a: bv64, b: bv64, c: bv64, d: bv64)
    requires state.Length == 8 && from + 4 <= 8
    modifies state
    ensures forall i :: 0 <= i < 8 && !(from <= i < from + 4) ==> state[i] == old(state[i])
    ensures state[from] == Add(old(state[from]), a) && state[from + 1] == Add(old(state[from + 1]), b)
    ensures state[from + 2] == Add(old(state[from + 2]), c) && state[from + 3] == Add(old(state[from + 3]), d)
  {
    hide Add;
    state[from] := Add(state[from], a);
    state[from + 1] := Add(state[from + 1], b);
    state[from + 2] := Add(state[from + 2], c);
    state[from + 3] := Add(state[from + 3], d);
  }

  lemma JoinZeros(s: seq<bv8>, j: nat, k: nat)
    ensures s + Zeros(j) + Zeros(k) == s + Zeros(j + k)
  {
  }

  /** Bytes `8i` to `8i + 7` of the digest. */
  method StoreWord(w: bv64, digest: array<bv8>, i: nat)
    requires digest.Length == 64 && i < 8
    modifies digest
    ensures forall k :: 0 <= k < 8 * i ==> digest[k] == old(digest[k])
    ensures forall r :: 0 <= r < 8 ==> digest[i * 8 + r] == BeByte(w, r)
  {
    hide BeByte;
    digest[i * 8] := BeByte(w, 0);
    digest[i * 8 + 1] := BeByte(w, 1);
    digest[i * 8 + 2] := BeByte(w, 2);
    digest[i * 8 + 3] := BeByte(w, 3);
    digest[i * 8 + 4] := BeByte(w, 4);
    digest[i * 8 + 5] := BeByte(w, 5);
    digest[i * 8 + 6] := BeByte(w, 6);
    digest[i * 8 + 7] := BeByte(w, 7);
    forall r | 0 <= r < 8
      ensures digest[i * 8 + r] == BeByte(w, r)
    {
      assert r == 0 || r == 1 || r == 2 || r == 3 || r == 4 || r == 5 || r == 6 || r == 7;
    }
  }

  /** `digest` holds the bytes of the first `n` words. */
  ghost predicate Stored(digest: array<bv8>, h: Hash, n: nat)
    requires digest.Length == 64 && n <= 8
    reads digest
  {
    forall k :: 0 <= k < 8 * n ==> digest[k] == Bytes(h)[k]
  }

  lemma StoredMore(digest: array<bv8>, h: Hash, n: nat)
    requires digest.Length == 64 && n < 8
    requires Stored(digest, h, n)
    requires forall r :: 0 <= r < 8 ==> digest[n * 8 + r] == BeByte(h[n], r)
    ensures Stored(digest, h, n + 1)
  {
    hide BeByte;
    forall k | 8 * n <= k < 8 * n + 8
      ensures digest[k] == Bytes(h)[k]
    {
      var r := k - 8 * n;
      assert k / 8 == n && k % 8 == r;
      assert digest[n * 8 + r] == BeByte(h[n], r);
    }
  }

  // ---- The context -----------------------------------------------------------------------

  /** The blocks of `s` before block `q` are compressed and its other bytes wait in the buffer. */
  ghost predicate Held(state: array<bv64>, buffer: array<bv8>, s: seq<bv8>, q: nat, active: nat)
    reads state, buffer
  {
    && state.Length == 8 && buffer.Length == 128 && active <= 128
    && |s| == 128 * q + active
    && state[..] == Fold(s, q)
    && buffer[..active] == s[128 * q..]
  }

  class Context {
    const state: array<bv64>
    const buffer: array<bv8>
    var bitlen: nat
    /** Every byte taken in since the start, and how many blocks of it are compressed. */
    ghost var message: seq<bv8>
    ghost var blocks: nat

    ghost predicate Valid()
      reads this, state, buffer
    {
      && Held(state, buffer, message, blocks, |message| % 128)
      && bitlen == 8 * |message| % Wrap
    }

    ghost predicate Sized() { state.Length == 8 && buffer.Length == 128 }

    constructor ()
      ensures Sized() && fresh(state) && fresh(buffer)
    {
      state := new bv64[8];
      buffer := new bv8[128];
      bitlen := 0;
      message := [];
      blocks := 0;
    }

    /** `sha512_init`. */
    method Init()
      requires Sized()
      modifies this, state
      ensures Valid() && message == []
    {
      hide Compress, Initial;
      forall i | 0 <= i < 8 {
        state[i] := Initial()[i];
      }
      bitlen := 0;
      message := [];
      blocks := 0;
      assert state[..] == Initial();
    }

    /** Puts one byte into the buffer. */
    method Put(b: bv8, active: nat, ghost s: seq<bv8>, ghost q: nat)
      requires Held(state, buffer, s, q, active) && active < 128
      modifies buffer
      ensures Held(state, buffer, s + [b], q, active + 1)
    {
      hide Compress, Fold;
      FoldPrefix(s, [b], q);
      ghost var was := buffer[..active];
      buffer[active] := b;
      assert buffer[..active + 1] == was + [b];
      assert (s + [b])[128 * q..] == s[128 * q..] + [b];
    }

    /** Compresses a full buffer. */
    method Flush(ghost s: seq<bv8>, ghost q: nat)
      requires Held(state, buffer, s, q, 128)
      modifies state
      ensures Held(state, buffer, s, q + 1, 0)
    {
      hide Compress;
      assert buffer[..] == buffer[..128] == s[128 * q..128 * (q + 1)];
      Transform(state, buffer);
    }

    /** `sha512_update`: the context holds the longer message. */
    method Update(data: array<bv8>, len: nat)
      requires Valid() && data != buffer && len <= data.Length
      modifies this, state, buffer
      ensures Valid() && message == old(message) + data[..len]
    {
      hide Fold, Held;
      Opened();
      var active: nat := bitlen / 8 % 128;
      ghost var m := message;
      assert m + data[..0] == m;
      for i := 0 to len
        invariant message == m + data[..i] && active < 128
        invariant Held(state, buffer, message, blocks, active)
        invariant bitlen == 8 * |message| % Wrap
      {
        NextBitlen(|message|);
        Put(data[i], active, message, blocks);
        message := message + [data[i]];
        assert m + data[..i + 1] == message;
        active := active + 1;
        bitlen := (bitlen + 8) % Wrap;
        if active == 128 {
          Flush(message, blocks);
          blocks := blocks + 1;
          active := 0;
        }
      }
      Closed(active);
    }

    /** What the counter of a valid context says. */
    lemma Opened()
      requires Valid()
      ensures Held(state, buffer, message, blocks, bitlen / 8 % 128) && bitlen / 8 % 128 < 128
    {
      ActiveOf(|message|);
    }

    lemma Closed(active: nat)
      requires Held(state, buffer, message, blocks, active) && active < 128
      requires bitlen == 8 * |message| % Wrap
      ensures Valid()
    {
      Remainder(blocks, active);
    }

    /** Puts zeros up to position `limit`. */
    method PutZeros(from: nat, limit: nat, ghost s: seq<bv8>, ghost q: nat)
      requires Held(state, buffer, s, q, from) && from <= limit <= 128
      modifies buffer
      ensures Held(state, buffer, s + Zeros(limit - from), q, limit)
    {
      hide Held, Fold;
      var active := from;
      assert s + Zeros(0) == s;
      while active < limit
        invariant from <= active <= limit
        invariant Held(state, buffer, s + Zeros(active - from), q, active)
      {
        Put(0, active, s + Zeros(active - from), q);
        assert s + Zeros(active - from) + [0] == s + Zeros(active - from + 1);
        active := active + 1;
      }
    }

    /** Puts the bit length. */
    method PutLength(bits: nat, ghost s: seq<bv8>, ghost q: nat)
      requires Held(state, buffer, s, q, 120)
      modifies buffer
      ensures Held(state, buffer, s + Digits(bits, 8), q, 128)
    {
      hide Held, Fold, LowByte, Drop;
      assert s + Digits(bits, 8)[..0] == s;
      for i := 0 to 8
        invariant Held(state, buffer, s + Digits(bits, 8)[..i], q, 120 + i)
      {
        Put(LowByte(Drop(bits, 7 - i)), 120 + i, s + Digits(bits, 8)[..i], q);
        assert s + Digits(bits, 8)[..i] + [LowByte(Drop(bits, 7 - i))] == s + Digits(bits, 8)[..i + 1];
      }
      assert Digits(bits, 8)[..8] == Digits(bits, 8);
    }

    /** The padding of `sha512_final`. */
    method PutPadding() returns (ghost q: nat)
      requires Valid()
      modifies state, buffer
      ensures Held(state, buffer, Padded(message), q, 128)
    {
      hide Held, Fold, Digits, Zeros;
      Opened();
      Active();
      var active: nat := bitlen / 8 % 128;
      ghost var s := message + [0x80];
      q := blocks;
      Put(0x80, active, message, q);
      active := active + 1;
      if active > 112 {
        PutZeros(active, 128, s, q);
        s := s + Zeros(128 - active);
        Flush(s, q);
        q := q + 1;
        active := 0;
      }
      PutZeros(active, 112, s, q);
      s := s + Zeros(112 - active);
      PutZeros(112, 120, s, q);
      PutLength(bitlen, s + Zeros(8), q);
      JoinZeros(message + [0x80], 127 - |message| % 128, 112);
    }

    lemma Active()
      requires Valid()
      ensures bitlen / 8 % 128 == |message| % 128
    {
      ActiveOf(|message|);
    }

    /** `sha512_final`: the digest of everything taken in. */
    method Final(digest: array<bv8>)
      requires Valid() && digest.Length == 64 && digest != buffer
      modifies state, buffer, digest
      ensures digest[..] == Digest(message)
    {
      hide Held, Fold, BeByte, Padded, Bytes;
      ghost var q := PutPadding();
      Flush(Padded(message), q);
      Finished(q + 1);
      StoreDigest(digest);
    }

    lemma Finished(q: nat)
      requires Held(state, buffer, Padded(message), q, 0)
      ensures Sized() && Bytes(state[..]) == Digest(message)
    {
      hide Fold, Padded, Bytes;
    }

    /** The byte loop of `sha512_final`. */
    method StoreDigest(digest: array<bv8>)
      requires Sized() && digest.Length == 64
      modifies digest
      ensures digest[..] == Bytes(state[..])
    {
      hide BeByte, Bytes;
      for i := 0 to 8
        invariant Stored(digest, state[..], i)
      {
        StoreWord(state[i], digest, i);
        StoredMore(digest, state[..], i);
      }
    }
  }

  /** `sha512`: the digest of one buffer. */
  method HashBuffer(data: array<bv8>, len: nat, digest: array<bv8>)
    requires digest.Length == 64 && len <= data.Length
    modifies digest
    ensures digest[..] == Digest(old(data[..len]))
  {
    hide Digest, Held;
    var ctx := new Context();
    ctx.Init();
    ctx.Update(data, len);
    assert [] + data[..len] == data[..len];
    ctx.Final(digest);
  }

  /** The digest of two buffers taken in one after the other is that of the two joined: the way a
      message is cut makes no difference. */
  method HashJoined(first: array<bv8>, second: array<bv8>, len: nat, digest: array<bv8>)
    requires digest.Length == 64 && len <= second.Length
    modifies digest
    ensures digest[..] == Digest(old(first[..]) + old(second[..len]))
  {
    hide Digest, Held;
    var ctx := new Context();
    ctx.Init();
    ctx.Update(first, first.Length);
    ctx.Update(second, len);
    assert [] + first[..first.Length] + second[..len] == first[..] + second[..len];
    ctx.Final(digest);
  }
}
