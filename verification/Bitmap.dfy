/** A bitmap over bytes: bit `f % 8` of byte `f / 8` is clear exactly when frame `f` is free. */
module Bitmap {
  import opened Sets

  /** `1 << k` */
  function Mask(k: nat): bv8
    requires k < 8
  {
    if k == 0 then 1 else if k == 1 then 2 else if k == 2 then 4 else if k == 3 then 8
    else if k == 4 then 16 else if k == 5 then 32 else if k == 6 then 64 else 128
  }

  predicate Test(b: bv8, k: nat)
    requires k < 8
  {
    b & Mask(k) != 0
  }

  lemma TestSet(b: bv8, i: nat, j: nat)
    requires i < 8 && j < 8
    ensures Test(b | Mask(i), j) <==> i == j || Test(b, j)
  {
  }

  lemma TestClear(b: bv8, i: nat, j: nat)
    requires i < 8 && j < 8
    ensures Test(b & !Mask(i), j) <==> i != j && Test(b, j)
  {
  }

  /** A byte has a clear bit exactly when it is not 0xFF. */
  lemma ClearBitExists(b: bv8)
    ensures b != 0xFF <==> exists k :: 0 <= k < 8 && !Test(b, k)
  {
    if b != 0xFF {
      assert !Test(b, 0) || !Test(b, 1) || !Test(b, 2) || !Test(b, 3)
          || !Test(b, 4) || !Test(b, 5) || !Test(b, 6) || !Test(b, 7);
    }
  }

  predicate IsFree(bm: seq<bv8>, f: nat)
    requires f / 8 < |bm|
  {
    !Test(bm[f / 8], f % 8)
  }

  /** Bytes needed for `n` frames. */
  function Bytes(n: nat): nat {
    (n + 7) / 8
  }

  ghost function FreeFrames(bm: seq<bv8>, n: nat): (s: set<nat>)
    requires n <= 8 * |bm|
    ensures forall f: nat :: f in s <==> f < n && IsFree(bm, f)
  {
    set f | f in Range(n) && f / 8 < |bm| && IsFree(bm, f)
  }

  method MarkUsed(a: array<bv8>, f: nat)
    requires f / 8 < a.Length
    modifies a
    ensures forall h: nat | h / 8 < a.Length :: IsFree(a[..], h) <==> h != f && old(IsFree(a[..], h))
  {
    ghost var before := a[..];
    a[f / 8] := a[f / 8] | Mask(f % 8);
    forall h: nat | h / 8 < a.Length
      ensures IsFree(a[..], h) <==> h != f && IsFree(before, h)
    {
      TestSet(before[f / 8], f % 8, h % 8);
    }
  }

  method MarkFree(a: array<bv8>, f: nat)
    requires f / 8 < a.Length
    modifies a
    ensures forall h: nat | h / 8 < a.Length :: IsFree(a[..], h) <==> h == f || old(IsFree(a[..], h))
  {
    ghost var before := a[..];
    a[f / 8] := a[f / 8] & !Mask(f % 8);
    forall h: nat | h / 8 < a.Length
      ensures IsFree(a[..], h) <==> h == f || IsFree(before, h)
    {
      TestClear(before[f / 8], f % 8, h % 8);
    }
  }
}
