/**
 * Multiplication of 128-bit strings as section 6.3 of NIST SP 800-38D defines it: bit 0 is the
 * leftmost, and the product is linear in both arguments, commutative, and has a unit.
 */
module GhashField {
  type Bits = s: seq<bool> | |s| == 128 witness seq(128, _ => false)

  function Zero(): Bits { seq(128, _ => false) }

  /** The string 1 followed by zeros, which is the unit of the product. */
  function One(): Bits { seq(128, i => i == 0) }

  /** The reduction string 11100001 followed by zeros. */
  function R(): Bits { seq(128, i => i == 0 || i == 1 || i == 2 || i == 7) }

  function Xor(a: Bits, b: Bits): Bits { seq(128, i requires 0 <= i < 128 => a[i] != b[i]) }

  function ShiftRight(v: Bits): Bits { seq(128, i requires 0 <= i < 128 => i > 0 && v[i - 1]) }

  /** `a` or nothing. */
  function If(c: bool, a: Bits): Bits { if c then a else Zero() }

  /** One step of the sequence V of the standard. */
  function Next(v: Bits): Bits { Xor(ShiftRight(v), If(v[127], R())) }

  function V(y: Bits, i: nat): Bits { if i == 0 then y else Next(V(y, i - 1)) }

  /** The sequence Z of the standard. */
  function Z(x: Bits, y: Bits, i: nat): Bits
    requires i <= 128
  {
    if i == 0 then Zero() else Xor(Z(x, y, i - 1), If(x[i - 1], V(y, i - 1)))
  }

  function Product(x: Bits, y: Bits): Bits { Z(x, y, 128) }

  // ---- The group -------------------------------------------------------------------------

  lemma Same(a: Bits, b: Bits)
    requires forall i :: 0 <= i < 128 ==> a[i] == b[i]
    ensures a == b
  {
  }

  lemma Swap(p: Bits, q: Bits, r: Bits, s: Bits)
    ensures Xor(Xor(p, q), Xor(r, s)) == Xor(Xor(p, r), Xor(q, s))
  {
    Same(Xor(Xor(p, q), Xor(r, s)), Xor(Xor(p, r), Xor(q, s)));
  }

  lemma XorZero(a: Bits)
    ensures Xor(a, Zero()) == a == Xor(Zero(), a)
  {
    Same(Xor(a, Zero()), a);
    Same(Xor(Zero(), a), a);
  }

  lemma XorSelf(a: Bits)
    ensures Xor(a, a) == Zero()
  {
    Same(Xor(a, a), Zero());
  }

  lemma IfXor(c: bool, d: bool, a: Bits)
    ensures If(c != d, a) == Xor(If(c, a), If(d, a))
  {
    hide Xor, Zero;
    XorZero(a);
    XorZero(Zero());
    XorSelf(a);
  }

  lemma IfOfXor(c: bool, a: Bits, b: Bits)
    ensures If(c, Xor(a, b)) == Xor(If(c, a), If(c, b))
  {
    hide Xor, Zero;
    XorZero(Zero());
  }

  // ---- Linearity -------------------------------------------------------------------------

  lemma NextXor(a: Bits, b: Bits)
    ensures Next(Xor(a, b)) == Xor(Next(a), Next(b))
  {
    Same(ShiftRight(Xor(a, b)), Xor(ShiftRight(a), ShiftRight(b)));
    IfXor(a[127], b[127], R());
    Swap(ShiftRight(a), If(a[127], R()), ShiftRight(b), If(b[127], R()));
  }

  lemma NextZero()
    ensures Next(Zero()) == Zero()
  {
    Same(Next(Zero()), Zero());
  }

  lemma {:induction false} VXor(a: Bits, b: Bits, i: nat)
    ensures V(Xor(a, b), i) == Xor(V(a, i), V(b, i))
  {
    hide Xor, Next;
    if i > 0 {
      VXor(a, b, i - 1);
      NextXor(V(a, i - 1), V(b, i - 1));
    }
  }

  lemma {:induction false} ZXorLeft(a: Bits, b: Bits, y: Bits, i: nat)
    requires i <= 128
    ensures Z(Xor(a, b), y, i) == Xor(Z(a, y, i), Z(b, y, i))
  {
    hide V, If;
    if i == 0 {
      XorZero(Zero());
    } else {
      ZXorLeft(a, b, y, i - 1);
      var v := V(y, i - 1);
      IfXor(a[i - 1], b[i - 1], v);
      Swap(Z(a, y, i - 1), If(a[i - 1], v), Z(b, y, i - 1), If(b[i - 1], v));
    }
  }

  lemma {:induction false} ZXorRight(x: Bits, a: Bits, b: Bits, i: nat)
    requires i <= 128
    ensures Z(x, Xor(a, b), i) == Xor(Z(x, a, i), Z(x, b, i))
  {
    hide V, If, Xor;
    if i == 0 {
      XorZero(Zero());
    } else {
      ZXorRight(x, a, b, i - 1);
      VXor(a, b, i - 1);
      IfOfXor(x[i - 1], V(a, i - 1), V(b, i - 1));
      Swap(Z(x, a, i - 1), If(x[i - 1], V(a, i - 1)), Z(x, b, i - 1), If(x[i - 1], V(b, i - 1)));
    }
  }

  /** The product distributes over exclusive or on the left. */
  lemma ProductXorLeft(a: Bits, b: Bits, y: Bits)
    ensures Product(Xor(a, b), y) == Xor(Product(a, y), Product(b, y))
  {
    hide Xor, Z;
    ZXorLeft(a, b, y, 128);
  }

  /** And on the right. */
  lemma ProductXorRight(x: Bits, a: Bits, b: Bits)
    ensures Product(x, Xor(a, b)) == Xor(Product(x, a), Product(x, b))
  {
    hide Xor, Z;
    ZXorRight(x, a, b, 128);
  }

  // ---- Unit and commutativity ------------------------------------------------------------

  /** The string with bit `k` alone. */
  function Unit(k: nat): Bits { seq(128, i => i == k) }

  lemma NextUnit(k: nat)
    requires k < 127
    ensures Next(Unit(k)) == Unit(k + 1)
  {
    XorZero(ShiftRight(Unit(k)));
    Same(ShiftRight(Unit(k)), Unit(k + 1));
  }

  lemma {:induction false} VOne(k: nat)
    requires k < 128
    ensures V(One(), k) == Unit(k)
  {
    hide Next;
    if k == 0 {
      Same(One(), Unit(0));
    } else {
      VOne(k - 1);
      NextUnit(k - 1);
    }
  }

  /** The bits of `x` before `k`. */
  function Prefix(x: Bits, k: nat): Bits { seq(128, i requires 0 <= i < 128 => i < k && x[i]) }

  lemma PrefixGrows(x: Bits, k: nat)
    requires k < 128
    ensures Prefix(x, k + 1) == Xor(Prefix(x, k), If(x[k], Unit(k)))
    ensures Prefix(x, 0) == Zero() && Prefix(x, 128) == x
  {
    Same(Prefix(x, k + 1), Xor(Prefix(x, k), If(x[k], Unit(k))));
    Same(Prefix(x, 0), Zero());
    Same(Prefix(x, 128), x);
  }

  lemma {:induction false} ZOne(x: Bits, k: nat)
    requires k <= 128
    ensures Z(x, One(), k) == Prefix(x, k)
  {
    hide V, Xor, If, Prefix, One, Unit;
    if k == 0 {
      PrefixGrows(x, 0);
    } else {
      ZOne(x, k - 1);
      VOne(k - 1);
      PrefixGrows(x, k - 1);
    }
  }

  /** One is a unit. */
  lemma ProductOne(x: Bits)
    ensures Product(x, One()) == x
  {
    hide Z, Prefix, One;
    ZOne(x, 128);
    PrefixGrows(x, 0);
  }

  lemma IfNext(c: bool, v: Bits)
    ensures If(c, Next(v)) == Next(If(c, v))
  {
    hide Next, Zero;
    NextZero();
  }

  /** Stepping the second argument steps the product. */
  lemma {:induction false} ZNext(x: Bits, y: Bits, i: nat)
    requires i <= 128
    ensures Z(x, Next(y), i) == Next(Z(x, y, i))
  {
    hide Next, If, Xor;
    if i == 0 {
      NextZero();
    } else {
      ZNext(x, y, i - 1);
      VNext(y, i - 1);
      IfNext(x[i - 1], V(y, i - 1));
      NextXor(Z(x, y, i - 1), If(x[i - 1], V(y, i - 1)));
    }
  }

  lemma {:induction false} VNext(y: Bits, i: nat)
    ensures V(Next(y), i) == Next(V(y, i))
  {
    hide Next;
    if i > 0 {
      VNext(y, i - 1);
    }
  }

  /** The product with the bit `k` alone is `k` steps of the other argument. */
  lemma {:induction false} ProductV(x: Bits, k: nat)
    ensures Product(x, V(One(), k)) == V(x, k)
  {
    hide Next, Z, One;
    if k == 0 {
      ProductOne(x);
    } else {
      ProductV(x, k - 1);
      ZNext(x, V(One(), k - 1), 128);
    }
  }

  lemma {:induction false} ZOfZero(x: Bits, i: nat)
    requires i <= 128
    ensures Z(x, Zero(), i) == Zero()
  {
    hide Xor, Zero;
    if i > 0 {
      ZOfZero(x, i - 1);
      VZero(i - 1);
      XorZero(Zero());
    }
  }

  lemma {:induction false} VZero(i: nat)
    ensures V(Zero(), i) == Zero()
  {
    hide Next, Zero;
    if i > 0 {
      VZero(i - 1);
      NextZero();
    }
  }

  lemma {:induction false} ProductPrefix(x: Bits, y: Bits, k: nat)
    requires k <= 128
    ensures Product(x, Prefix(y, k)) == Z(y, x, k)
  {
    hide V, Xor, Prefix, One, Unit, Zero, Product;
    ProductZero(x);
    if k == 0 {
      PrefixGrows(y, 0);
    } else {
      ProductPrefix(x, y, k - 1);
      PrefixGrows(y, k - 1);
      ProductXorRight(x, Prefix(y, k - 1), If(y[k - 1], Unit(k - 1)));
      VOne(k - 1);
      ProductV(x, k - 1);
    }
  }

  lemma ProductZero(x: Bits)
    ensures Product(x, Zero()) == Zero()
  {
    hide Z, Zero;
    ZOfZero(x, 128);
  }

  /** The product does not depend on the order of its arguments. */
  lemma ProductCommutes(x: Bits, y: Bits)
    ensures Product(x, y) == Product(y, x)
  {
    hide Z, Prefix;
    ProductPrefix(x, y, 128);
    PrefixGrows(y, 0);
  }

  // ---- Associativity ---------------------------------------------------------------------

  lemma {:induction false} ProductOfV(x: Bits, y: Bits, k: nat)
    ensures Product(x, V(y, k)) == V(Product(x, y), k)
  {
    hide Next, Z;
    if k > 0 {
      ProductOfV(x, y, k - 1);
      ZNext(x, V(y, k - 1), 128);
    }
  }

  lemma UnitAssociates(a: Bits, c: Bits, k: nat)
    requires k < 128
    ensures Product(Product(a, Unit(k)), c) == Product(a, Product(Unit(k), c))
  {
    hide Product, V, Unit;
    VOne(k);
    ProductV(a, k);
    ProductV(c, k);
    ProductCommutes(V(a, k), c);
    ProductCommutes(Unit(k), c);
    ProductOfV(c, a, k);
    ProductOfV(a, c, k);
    ProductCommutes(a, c);
  }

  lemma {:induction false} PrefixAssociates(a: Bits, b: Bits, c: Bits, k: nat)
    requires k <= 128
    ensures Product(Product(a, Prefix(b, k)), c) == Product(a, Product(Prefix(b, k), c))
  {
    hide Product, Prefix, Unit, Xor, Zero;
    if k == 0 {
      PrefixGrows(b, 0);
      ZeroAssociates(a, c);
    } else {
      var p, e := Prefix(b, k - 1), If(b[k - 1], Unit(k - 1));
      PrefixAssociates(a, b, c, k - 1);
      PrefixGrows(b, k - 1);
      ProductXorRight(a, p, e);
      ProductXorLeft(Product(a, p), Product(a, e), c);
      ProductXorLeft(p, e, c);
      ProductXorRight(a, Product(p, c), Product(e, c));
      UnitAssociates(a, c, k - 1);
      ZeroAssociates(a, c);
    }
  }

  lemma ZeroAssociates(a: Bits, c: Bits)
    ensures Product(Product(a, Zero()), c) == Product(a, Product(Zero(), c))
  {
    hide Product, Zero;
    ProductZero(a);
    ProductZero(c);
    ProductCommutes(Zero(), c);
  }

  /** The product does not depend on its grouping. */
  lemma ProductAssociates(a: Bits, b: Bits, c: Bits)
    ensures Product(Product(a, b), c) == Product(a, Product(b, c))
  {
    hide Product, Prefix;
    PrefixAssociates(a, b, c, 128);
    PrefixGrows(b, 0);
  }

  // ---- Powers of x -----------------------------------------------------------------------

  /** The string whose only bit is number `k`, which stands for x^k. */
  function Mono(k: nat): Bits { seq(128, i => i == k) }

  lemma NextMono(k: nat)
    requires k < 127
    ensures Next(Mono(k)) == Mono(k + 1)
  {
    Same(Next(Mono(k)), Mono(k + 1));
  }

  lemma {:induction false} VMono(k: nat, i: nat)
    requires k + i < 128
    ensures V(Mono(k), i) == Mono(k + i)
    decreases i
  {
    hide Next, Mono;
    if i > 0 {
      VMono(k, i - 1);
      NextMono(k + i - 1);
    }
  }

  lemma {:induction false} ZMono(a: nat, y: Bits, k: nat)
    requires a < 128 && k <= 128
    ensures Z(Mono(a), y, k) == if a < k then V(y, a) else Zero()
    decreases k
  {
    hide Xor, V, Zero;
    if k > 0 {
      ZMono(a, y, k - 1);
      XorZero(V(y, a));
      XorZero(Zero());
    }
  }

  /** Powers of x multiply by adding exponents, and x^128 is 1 + x + x^2 + x^7. With linearity this is all
      of the product. */
  lemma PowersMultiply(a: nat, b: nat)
    requires a < 128 && b < 128
    ensures a + b < 128 ==> Product(Mono(a), Mono(b)) == Mono(a + b)
    ensures Product(Mono(1), Mono(127)) == seq(128, i => i == 0 || i == 1 || i == 2 || i == 7)
  {
    ZMono(a, Mono(b), 128);
    if a + b < 128 {
      VMono(b, a);
    }
    ZMono(1, Mono(127), 128);
    assert V(Mono(127), 0) == Mono(127);
    Same(Next(Mono(127)), seq(128, i => i == 0 || i == 1 || i == 2 || i == 7));
  }
}
