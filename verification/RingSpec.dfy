/** Cycle-bit rings over values: a producer and a consumer that share only the slots of a ring
    and one phase bit each behave like an unbounded first-in first-out queue. */
module RingSpec {

  /** A transfer request block: four 32-bit words; bit 0 of the last is the cycle bit. */
  datatype Trb = Trb(d0: bv32, d1: bv32, d2: bv32, d3: bv32)

  const TYPE_LINK: bv32 := 6

  function Cycle(t: Trb): bv32 { t.d3 & 1 }

  function TypeOf(t: Trb): bv32 { (t.d3 >> 10) & 0x3F }

  /** The block as the producer writes it in phase `c`. */
  function Stamp(t: Trb, c: bv32): Trb { t.(d3 := t.d3 | c) }

  /** Blocks given to the producer: cycle bit clear and not a Link. */
  predicate Plain(t: Trb) { t.d3 & 1 == 0 && TypeOf(t) != TYPE_LINK }

  predicate Phase(c: bv32) { c == 0 || c == 1 }

  function Flip(c: bv32): bv32 { c ^ 1 }

  lemma StampCycle(t: Trb, c: bv32)
    requires Plain(t) && Phase(c)
    ensures Cycle(Stamp(t, c)) == c
  {
    StampBit(t.d3, c);
  }

  lemma StampBit(d: bv32, c: bv32)
    requires d & 1 == 0 && Phase(c)
    ensures (d | c) & 1 == c
  {
  }

  lemma StampType(t: Trb, c: bv32)
    requires Phase(c)
    ensures TypeOf(Stamp(t, c)) == TypeOf(t)
  {
    assert ((t.d3 | c) >> 10) & 0x3F == (t.d3 >> 10) & 0x3F;
  }

  lemma FlipFacts(c: bv32)
    requires Phase(c)
    ensures Phase(Flip(c)) && Flip(c) != c && Flip(Flip(c)) == c
  {
  }

  // ---- Slots and the queue they hold -----------------------------------------------------

  /** The first `n` slots, with the producer about to write slot `enq` in phase `pcs` and the
      consumer about to read slot `deq` in phase `ccs`, hold exactly the queue `q`. */
  ghost predicate Ring(slots: seq<Trb>, n: nat, enq: nat, pcs: bv32, deq: nat, ccs: bv32, q: seq<Trb>) {
    && n <= |slots| && enq < n && deq < n && Phase(pcs) && Phase(ccs)
    && (forall k | 0 <= k < |q| :: Plain(q[k]))
    && if pcs == ccs then
         && deq <= enq && |q| == enq - deq
         && (forall i | deq <= i < enq :: slots[i] == Stamp(q[i - deq], pcs))
         && (forall i | 0 <= i < deq :: Cycle(slots[i]) == pcs)
         && (forall i | enq <= i < n :: Cycle(slots[i]) != pcs)
       else
         && enq <= deq && |q| == n - deq + enq
         && (forall i | deq <= i < n :: slots[i] == Stamp(q[i - deq], ccs))
         && (forall i | 0 <= i < enq :: slots[i] == Stamp(q[n - deq + i], pcs))
         && (forall i | enq <= i < deq :: Cycle(slots[i]) == ccs)
  }

  /** The next write position and phase. */
  function NextSlot(i: nat, n: nat): nat { if i + 1 >= n then 0 else i + 1 }

  function NextPhase(i: nat, n: nat, c: bv32): bv32 { if i + 1 >= n then Flip(c) else c }

  /** With room for one more, a write appends to the queue; slots from `n` on do not matter. */
  lemma Produce(slots: seq<Trb>, slots': seq<Trb>, n: nat, enq: nat, pcs: bv32, deq: nat, ccs: bv32, q: seq<Trb>, t: Trb)
    requires Ring(slots, n, enq, pcs, deq, ccs, q) && Plain(t) && |q| < n
    requires |slots'| == |slots| && slots'[enq] == Stamp(t, pcs)
    requires forall i | 0 <= i < n && i != enq :: slots'[i] == slots[i]
    ensures Ring(slots', n, NextSlot(enq, n), NextPhase(enq, n, pcs), deq, ccs, q + [t])
  {
    hide Stamp, Plain, Cycle, Flip;
    FlipFacts(pcs);
    forall k | 0 <= k < |q| ensures Cycle(Stamp(q[k], pcs)) == pcs && Cycle(Stamp(q[k], ccs)) == ccs {
      StampCycle(q[k], pcs);
      StampCycle(q[k], ccs);
    }
    StampCycle(t, pcs);
  }

  /** The slot at the read position shows the consumer's phase exactly when the queue is not
      empty; it then holds the head, and stepping past it removes the head. */
  lemma Consume(slots: seq<Trb>, n: nat, enq: nat, pcs: bv32, deq: nat, ccs: bv32, q: seq<Trb>)
    requires Ring(slots, n, enq, pcs, deq, ccs, q)
    ensures Cycle(slots[deq]) == ccs <==> q != []
    ensures q != [] ==> slots[deq] == Stamp(q[0], ccs)
    ensures q != [] ==> Ring(slots, n, enq, pcs, NextSlot(deq, n), NextPhase(deq, n, ccs), q[1..])
  {
    hide Stamp, Plain, Cycle, Flip;
    FlipFacts(ccs);
    forall k | 0 <= k < |q| ensures Cycle(Stamp(q[k], pcs)) == pcs && Cycle(Stamp(q[k], ccs)) == ccs {
      StampCycle(q[k], pcs);
      StampCycle(q[k], ccs);
    }
  }

  lemma Fresh(slots: seq<Trb>, n: nat)
    requires 0 < n <= |slots| && forall i | 0 <= i < n :: slots[i] == Trb(0, 0, 0, 0)
    ensures Ring(slots, n, 0, 1, 0, 1, [])
  {
  }
}
