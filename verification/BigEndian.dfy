/** Numbers as big-endian bytes. */
module BigEndian {
  /** The low byte of a number. */
  function LowByte(n: nat): bv8 { (n % 256) as bv8 }

  /** `n` without its last `k` bytes. */
  function Drop(n: nat, k: nat): nat { if k == 0 then n else Drop(n, k - 1) / 256 }

  /** The last `k` bytes of `n`, the most significant first. */
  function Digits(n: nat, k: nat): (r: seq<bv8>)
    ensures |r| == k
  {
    seq(k, j requires 0 <= j < k => LowByte(Drop(n, k - 1 - j)))
  }

  function Pow256(k: nat): (p: nat)
    ensures p > 0
  {
    if k == 0 then 1 else 256 * Pow256(k - 1)
  }

  lemma LowByteIsZero(n: nat)
    ensures LowByte(n) == 0 <==> n % 256 == 0
  {
  }

  lemma {:induction false} DropBelow(n: nat, k: nat)
    ensures Drop(n, k) == 0 <==> n < Pow256(k)
    decreases k
  {
    if k > 0 {
      DropFirst(n, k - 1);
      DropBelow(n / 256, k - 1);
    }
  }

  lemma {:induction false} DropFirst(n: nat, k: nat)
    ensures Drop(n, k + 1) == Drop(n / 256, k)
    decreases k
  {
    if k > 0 {
      DropFirst(n, k - 1);
    }
  }

  /** Leading zero bytes say that the number is small. */
  lemma {:induction false} ZeroTop(n: nat, low: nat, high: nat)
    requires low <= high && Drop(n, high) == 0
    requires forall k :: low <= k < high ==> LowByte(Drop(n, k)) == 0
    ensures Drop(n, low) == 0
    decreases high
  {
    hide LowByte;
    if low < high {
      LowByteIsZero(Drop(n, high - 1));
      ZeroTop(n, low, high - 1);
    }
  }

  lemma TopIsZero(n: nat, low: nat, high: nat)
    requires low <= high && Drop(n, low) == 0
    ensures forall j :: 0 <= j < high - low ==> Digits(n, high)[j] == 0
  {
    hide LowByte, Drop;
    forall j | 0 <= j < high - low
      ensures Digits(n, high)[j] == 0
    {
      DropMore(n, low, high - 1 - j);
      LowByteIsZero(0);
    }
  }

  lemma TopWasZero(n: nat, low: nat, high: nat)
    requires low <= high && Drop(n, high) == 0
    requires forall j :: 0 <= j < high - low ==> Digits(n, high)[j] == 0
    ensures Drop(n, low) == 0
  {
    hide LowByte, Drop;
    forall k | low <= k < high
      ensures LowByte(Drop(n, k)) == 0
    {
      assert Digits(n, high)[high - 1 - k] == 0;
    }
    ZeroTop(n, low, high);
  }

  /** `n` fits in its last `low` bytes exactly when the bytes above them are zero. */
  lemma WideDigits(n: nat, low: nat, high: nat)
    requires low <= high && n < Pow256(high)
    ensures n < Pow256(low) <==> forall j :: 0 <= j < high - low ==> Digits(n, high)[j] == 0
  {
    hide Digits, Drop, Pow256;
    DropBelow(n, low);
    DropBelow(n, high);
    if n < Pow256(low) {
      TopIsZero(n, low, high);
    } else if forall j :: 0 <= j < high - low ==> Digits(n, high)[j] == 0 {
      TopWasZero(n, low, high);
      assert false;
    }
  }

  lemma LowDigits(n: nat, low: nat, high: nat)
    requires low <= high
    ensures Digits(n, high)[high - low..] == Digits(n, low)
  {
    hide LowByte, Drop;
  }

  lemma {:induction false} DropMore(n: nat, low: nat, k: nat)
    requires low <= k && Drop(n, low) == 0
    ensures Drop(n, k) == 0
    decreases k
  {
    if low < k {
      DropMore(n, low, k - 1);
    }
  }

  /** The number that big-endian bytes stand for. */
  function Value(s: seq<bv8>): nat { if s == [] then 0 else 256 * Value(s[..|s| - 1]) + (s[|s| - 1] as nat) }

  function ToByte(m: nat): bv8
    requires m < 256
  {
    m as bv8
  }

  function FromByte(b: bv8): (m: nat)
    ensures m < 256
  {
    b as nat
  }

  lemma ToUndoesFrom(b: bv8)
    ensures ToByte(FromByte(b)) == b
  {
  }

  function IfSet(b: bool, v: bv8): bv8 { if b then v else 0 }

  function Weight(b: bool, v: nat): nat { if b then v else 0 }

  /** A byte from its eight bits. */
  lemma FromBits(a: bool, b: bool, c: bool, d: bool, e: bool, f: bool, g: bool, h: bool) returns (r: bv8)
    ensures FromByte(r) == Weight(a, 128) + Weight(b, 64) + Weight(c, 32) + Weight(d, 16)
                           + (Weight(e, 8) + Weight(f, 4) + Weight(g, 2) + Weight(h, 1))
  {
    r := IfSet(a, 128) | IfSet(b, 64) | IfSet(c, 32) | IfSet(d, 16) | IfSet(e, 8) | IfSet(f, 4) | IfSet(g, 2) | IfSet(h, 1);
  }

  lemma HalfByte(v: nat) returns (a: bool, b: bool, c: bool, d: bool)
    requires v < 16
    ensures v == Weight(a, 8) + Weight(b, 4) + Weight(c, 2) + Weight(d, 1)
    ensures 16 * v == Weight(a, 128) + Weight(b, 64) + Weight(c, 32) + Weight(d, 16)
  {
    a, b, c, d := v >= 8, v % 8 >= 4, v % 4 >= 2, v % 2 == 1;
  }

  lemma Built(m: nat) returns (r: bv8)
    requires m < 256
    ensures FromByte(r) == m
  {
    hide FromByte, Weight;
    var a, b, c, d := HalfByte(m / 16);
    var e, f, g, h := HalfByte(m % 16);
    r := FromBits(a, b, c, d, e, f, g, h);
  }

  lemma FromUndoesTo(m: nat)
    requires m < 256
    ensures FromByte(ToByte(m)) == m
  {
    hide ToByte, FromByte;
    var r := Built(m);
    ToUndoesFrom(r);
  }

  lemma LowByteValue(n: nat)
    ensures LowByte(n) as nat == n % 256
  {
    FromUndoesTo(n % 256);
    assert FromByte(ToByte(n % 256)) == LowByte(n) as nat;
  }

  /** A number that fits its bytes is the number they stand for. */
  lemma {:induction false} ValueOfDigits(n: nat, k: nat)
    requires n < Pow256(k)
    ensures Value(Digits(n, k)) == n
    decreases k
  {
    hide LowByte, Drop;
    if k > 0 {
      var front := Digits(n, k)[..k - 1];
      forall j | 0 <= j < k - 1 ensures front[j] == Digits(n / 256, k - 1)[j] {
        DropFirst(n, k - 2 - j);
      }
      assert front == Digits(n / 256, k - 1);
      ValueOfDigits(n / 256, k - 1);
      DropNone(n);
      LowByteValue(n);
      assert Digits(n, k)[k - 1] == LowByte(n);
    }
  }

  lemma DropNone(n: nat)
    ensures Drop(n, 0) == n
  {
  }
}
