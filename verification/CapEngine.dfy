/** The capability engine in memory: slot tables and the endpoint pool updated in place. Each
    operation is proved against CapSpec and IpcSpec. */
module CapEngine {
  import opened CapSpec
  import opened IpcSpec

  const RIGHT_SEND: bv32 := 1
  const RIGHT_RECV: bv32 := 2

  lemma PoolShape(s: Sys, born: Birth)
    requires Authority(s, born)
    ensures |s.pool| == |s.used| == POOL_SIZE
  {
  }

  /** Parking and delivering do not touch authority. */
  lemma AuthorityIgnoresState(s: Sys, s': Sys, born: Birth)
    requires Authority(s, born) && s'.tables == s.tables && s'.used == s.used && |s'.pool| == POOL_SIZE
    ensures Authority(s', born)
  {
    forall tab, i | tab in s'.tables && 0 <= i < TABLE_SIZE ensures SlotOk(s'.tables[tab][i], s', born) {
      assert SlotOk(s.tables[tab][i], s, born);
    }
  }

  /** A single right that a lookup granted is in the slot, and was in the endpoint from the start. */
  lemma OneRight(s: Sys, born: Birth, tab: nat, idx: nat, b: bv32)
    requires Authority(s, born) && tab in s.tables && (b == RIGHT_SEND || b == RIGHT_RECV)
    requires idx < TABLE_SIZE && s.tables[tab][idx].kind == EndpointCap ==> s.tables[tab][idx].target < |s.pool|
    requires Lookup(s, tab, idx, EndpointCap, b) == Ok
    ensures Has(s.tables[tab][idx].rights, b)
    ensures s.tables[tab][idx].target in born && Has(born[s.tables[tab][idx].target], b)
  {
    hide Lookup, Authority, Shaped;
    AuthorityWithin(s, born);
    LookupOkIff(s, tab, idx, EndpointCap, b);
    assert WithinBirth(s, born, tab, idx, b);
    assert Bit(b) && Has(b, b);
  }

  class Engine {
    var tables: map<nat, Table>
    var pool: seq<Endpoint>
    var used: seq<bool>
    /** Message buffers of the tasks, by address. */
    var mem: map<nat, Msg>

    ghost function View(): Sys
      reads this
    {
      Sys(tables, pool, used)
    }

    /** The rights each endpoint was created with. */
    ghost var born: Birth

    /** The authority invariant holds and every parked message buffer exists. */
    ghost predicate Valid()
      reads this
    {
      && Authority(View(), born)
      && forall e | 0 <= e < POOL_SIZE :: Sound(Link(pool[e], mem))
    }

    constructor (mem: map<nat, Msg>)
      requires 0 !in mem
      ensures Valid() && tables == map[] && this.mem == mem && used == seq(POOL_SIZE, _ => false)
    {
      tables := map[];
      pool := seq(POOL_SIZE, _ => FreshEndpoint(0));
      used := seq(POOL_SIZE, _ => false);
      this.mem := mem;
      born := map[];
    }

    method TableInit(tab: nat)
      requires Valid()
      modifies this`tables
      ensures Valid() && tables == old(tables)[tab := EmptyTable()]
    {
      hide Subset;
      ApplyKeepsAuthority(View(), born, InitTable(tab));
      var table: Table := EmptyTable();
      for i := 0 to TABLE_SIZE
        invariant forall k | 0 <= k < i :: table[k] == EMPTY
      {
        table := table[i := EMPTY];
      }
      assert table == EmptyTable();
      tables := tables[tab := table];
    }

    method FreeSlotAt(tab: nat, idx: nat) returns (err: Err)
      requires Valid() && tab in tables
      modifies this`tables
      ensures Valid() && Outcome(View(), err) == FreeOp(old(View()), tab, idx)
      ensures Shaped(old(View())) && Shaped(View())
      ensures if idx < TABLE_SIZE then err == Ok && tables[tab][idx].kind == Null && OtherLookupsSame(old(View()), View(), tab, idx)
              else err == ErrBounds && tables == old(tables)
    {
      hide Subset, Shaped, OtherLookupsSame, Lookup;
      AuthorityShaped(View(), born);
      if idx < TABLE_SIZE {
        FreeSeen(View(), born, tab, idx);
      }
      ApplyKeepsAuthority(View(), born, FreeSlot(tab, idx));
      if idx >= TABLE_SIZE {
        return ErrBounds;
      }
      tables := tables[tab := tables[tab][idx := EMPTY]];
      return Ok;
    }

    /** The first unused endpoint of the pool, now taken; -1 when all are in use. */
    method PoolAlloc() returns (e: int)
      requires |used| == POOL_SIZE
      modifies this`used
      ensures var k := FirstUnused(old(used), 0);
              if k == POOL_SIZE then e == -1 && used == old(used) else e == k && used == old(used)[k := true]
    {
      for i := 0 to POOL_SIZE
        invariant used == old(used) && FirstUnused(used, 0) == FirstUnused(used, i)
      {
        if !used[i] {
          used := used[i := true];
          return i;
        }
      }
      return -1;
    }

    /** The first free slot of a table; -1 when it is full. */
    method AllocSlot(tab: nat) returns (idx: int)
      requires tab in tables
      ensures idx == -1 <==> forall i | 0 <= i < TABLE_SIZE :: tables[tab][i].kind != Null
      ensures idx != -1 ==> 0 <= idx < TABLE_SIZE && tables[tab][idx].kind == Null
                            && forall i | 0 <= i < idx :: tables[tab][i].kind != Null
    {
      for i := 0 to TABLE_SIZE
        invariant forall k | 0 <= k < i :: tables[tab][k].kind != Null
      {
        if tables[tab][i].kind == Null {
          return i;
        }
      }
      return -1;
    }

    method CheckSlot(tab: nat, idx: nat, kind: CapType, required: bv32) returns (err: Err)
      requires Valid() && tab in tables
      ensures idx < TABLE_SIZE && tables[tab][idx].kind == EndpointCap ==> tables[tab][idx].target < |pool|
      ensures err == Lookup(View(), tab, idx, kind, required)
      ensures err == Ok <==>
                && idx < TABLE_SIZE && kind != Null && tables[tab][idx].kind == kind
                && (kind == EndpointCap ==> pool[tables[tab][idx].target].generation == tables[tab][idx].generation)
                && forall b: bv32 | Bit(b) && Has(required, b) :: Has(tables[tab][idx].rights, b)
      ensures idx >= TABLE_SIZE <==> err == ErrBounds
      ensures idx < TABLE_SIZE ==> (err == ErrNull <==> tables[tab][idx].kind == Null)
      ensures idx < TABLE_SIZE && tables[tab][idx].kind != Null ==> (err == ErrType <==> tables[tab][idx].kind != kind)
      ensures idx < TABLE_SIZE && tables[tab][idx].kind == kind == EndpointCap ==>
                (err == ErrStale <==> pool[tables[tab][idx].target].generation != tables[tab][idx].generation)
    {
      hide Grants, Shaped, Authority, Bit, Has;
      AuthorityShaped(View(), born);
      ShapedAt(View(), tab, idx);
      LookupOkIff(View(), tab, idx, kind, required);
      if idx >= TABLE_SIZE {
        return ErrBounds;
      }
      var slot := tables[tab][idx];
      if slot.kind == Null {
        return ErrNull;
      }
      if slot.kind != kind {
        return ErrType;
      }
      if slot.kind == EndpointCap {
        var ep := pool[slot.target];
        if ep.generation != slot.generation {
          return ErrStale;
        }
      }
      if !Grants(slot.rights, required) {
        return ErrAccess;
      }
      return Ok;
    }

    method EndpointCreate(tab: nat, idx: nat, rights: bv32, owner: nat) returns (err: Err)
      requires Valid() && tab in tables
      modifies this`tables, this`pool, this`used, this`born
      ensures Valid() && Outcome(View(), err) == CreateOp(old(View()), tab, idx, rights, owner)
      ensures Shaped(old(View())) && born == NextBirth(old(View()), old(born), Create(tab, idx, rights, owner))
      ensures Shaped(View())
      ensures err == Ok <==> idx < TABLE_SIZE && old(tables)[tab][idx].kind == Null && exists e :: 0 <= e < |old(used)| && !old(used)[e]
      ensures err == Ok ==> Opens(View(), tab, idx, EndpointCap, rights) && OtherLookupsSame(old(View()), View(), tab, idx)
    {
      hide Authority, Shaped, SlotOk, Opens, OtherLookupsSame;
      CreateSeen(View(), born, tab, idx, rights, owner);
      ApplyKeepsAuthority(View(), born, Create(tab, idx, rights, owner));
      PoolShape(View(), born);
      if idx >= TABLE_SIZE {
        return ErrBounds;
      }
      if tables[tab][idx].kind != Null {
        return ErrOccupied;
      }
      var e := PoolAlloc();
      if e == -1 {
        return ErrPool;
      }
      born := born[e := rights];
      pool := pool[e := FreshEndpoint(owner)];
      tables := tables[tab := tables[tab][idx := Slot(EndpointCap, rights, pool[e].generation, e)]];
      return Ok;
    }

    method CapDerive(tab: nat, src: nat, dst: nat, rights: bv32) returns (err: Err)
      requires Valid() && tab in tables
      modifies this`tables
      ensures Valid()
      ensures src < TABLE_SIZE && old(tables)[tab][src].kind == EndpointCap ==> old(tables)[tab][src].target < |pool|
      ensures Outcome(View(), err) == DeriveOp(old(View()), tab, src, dst, rights)
      ensures Shaped(old(View())) && Shaped(View())
      ensures err == Ok ==> && src < TABLE_SIZE && dst < TABLE_SIZE && old(tables)[tab][dst].kind == Null
                            && Covers(old(tables)[tab][src].rights, rights)
                            && Opens(View(), tab, dst, old(tables)[tab][src].kind, rights)
                            && OtherLookupsSame(old(View()), View(), tab, dst)
    {
      hide Subset, Shaped, Authority, SlotOk, Opens, OtherLookupsSame, Lookup, Covers;
      DeriveSeen(View(), born, tab, src, dst, rights);
      if src < TABLE_SIZE {
        SubsetIffCovers(rights, tables[tab][src].rights);
      }
      ApplyKeepsAuthority(View(), born, Derive(tab, src, dst, rights));
      AuthorityShaped(View(), born);
      ShapedAt(View(), tab, src);
      if src >= TABLE_SIZE || dst >= TABLE_SIZE {
        return ErrBounds;
      }
      var from := tables[tab][src];
      if from.kind == Null {
        return ErrNull;
      }
      if from.kind == EndpointCap && pool[from.target].generation != from.generation {
        return ErrStale;
      }
      if !Subset(rights, from.rights) {
        return ErrRights;
      }
      if tables[tab][dst].kind != Null {
        return ErrOccupied;
      }
      tables := tables[tab := tables[tab][dst := Slot(from.kind, rights, from.generation, from.target)]];
      return Ok;
    }

    method RevokeEndpoint(tab: nat, idx: nat) returns (err: Err)
      requires Valid() && tab in tables
      modifies this`pool
      ensures Valid()
      ensures idx < TABLE_SIZE && tables[tab][idx].kind == EndpointCap ==> tables[tab][idx].target < |old(pool)|
      ensures Outcome(View(), err) == RevokeOp(old(View()), tab, idx)
      ensures err == Ok ==> Net(pool, mem) == NetStep(Net(old(pool), old(mem)), Withdraw(tables[tab][idx].target))
    {
      hide Shaped, Authority, SlotOk;
      ApplyKeepsAuthority(View(), born, Revoke(tab, idx));
      AuthorityShaped(View(), born);
      PoolShape(View(), born);
      ShapedAt(View(), tab, idx);
      if idx >= TABLE_SIZE {
        return ErrBounds;
      }
      var slot := tables[tab][idx];
      if slot.kind != EndpointCap {
        return ErrType;
      }
      var ep := pool[slot.target];
      pool := pool[slot.target := Endpoint(ep.generation + 1, Idle, 0, ep.owner, 0)];
      return Ok;
    }

    /** Sends through a capability with the send right: delivers to a parked receiver or parks.
        `cur` is the calling task, 0 for the kernel. */
    method CapSend(tab: nat, idx: nat, msg: nat, cur: nat) returns (err: Err, wake: nat, block: nat)
      requires Valid() && tab in tables && msg in mem
      modifies this`pool, this`mem
      ensures Valid()
      ensures idx < TABLE_SIZE && tables[tab][idx].kind == EndpointCap ==> tables[tab][idx].target < |old(pool)|
      ensures var look := Lookup(old(View()), tab, idx, EndpointCap, RIGHT_SEND);
              look != Ok ==> err == look && pool == old(pool) && mem == old(mem) && wake == block == 0
      ensures err == Ok ==>
                && idx < TABLE_SIZE && Has(tables[tab][idx].rights, 1)
                && tables[tab][idx].target in born && Has(born[tables[tab][idx].target], 1)
      ensures Lookup(old(View()), tab, idx, EndpointCap, RIGHT_SEND) == Ok ==>
                var e := tables[tab][idx].target; var r := Send(Link(old(pool)[e], old(mem)), msg, cur);
                && err == r.err && wake == r.wake && block == r.block
                && mem == r.link.mem && pool == old(pool)[e := r.link.ep]
                && Net(pool, mem) == NetStep(Net(old(pool), old(mem)), Talk(e, DoSend(msg, cur)))
    {
      hide Authority, Shaped, SlotOk, Bit, Has;
      ghost var s0 := View();
      PoolShape(s0, born);
      wake, block := 0, 0;
      err := CheckSlot(tab, idx, EndpointCap, RIGHT_SEND);
      if err != Ok {
        return;
      }
      OneRight(s0, born, tab, idx, RIGHT_SEND);
      var e := tables[tab][idx].target;
      var ep := pool[e];
      assert Sound(Link(ep, mem));
      if ep.state == RecvWaiting {
        if ep.pending != 0 {
          mem := mem[ep.pending := mem[msg]];
        }
        wake := ep.parked;
        pool := pool[e := ep.(state := Idle, pending := 0, parked := 0)];
      } else if ep.state == Idle {
        pool := pool[e := ep.(state := SendWaiting, pending := msg, parked := cur)];
        block := cur;
      } else {
        err := ErrState;
      }
      AuthorityIgnoresState(s0, View(), born);
    }

    /** Receives through a capability with the receive right: takes the message of a parked
        sender or parks. */
    method CapRecv(tab: nat, idx: nat, out: nat, cur: nat) returns (err: Err, wake: nat, block: nat)
      requires Valid() && tab in tables && out in mem
      modifies this`pool, this`mem
      ensures Valid()
      ensures idx < TABLE_SIZE && tables[tab][idx].kind == EndpointCap ==> tables[tab][idx].target < |old(pool)|
      ensures var look := Lookup(old(View()), tab, idx, EndpointCap, RIGHT_RECV);
              look != Ok ==> err == look && pool == old(pool) && mem == old(mem) && wake == block == 0
      ensures err == Ok ==>
                && idx < TABLE_SIZE && Has(tables[tab][idx].rights, 2)
                && tables[tab][idx].target in born && Has(born[tables[tab][idx].target], 2)
      ensures Lookup(old(View()), tab, idx, EndpointCap, RIGHT_RECV) == Ok ==>
                var e := tables[tab][idx].target; var r := Recv(Link(old(pool)[e], old(mem)), out, cur);
                && err == r.err && wake == r.wake && block == r.block
                && mem == r.link.mem && pool == old(pool)[e := r.link.ep]
                && Net(pool, mem) == NetStep(Net(old(pool), old(mem)), Talk(e, DoRecv(out, cur)))
    {
      hide Authority, Shaped, SlotOk, Bit, Has;
      ghost var s0 := View();
      PoolShape(s0, born);
      wake, block := 0, 0;
      err := CheckSlot(tab, idx, EndpointCap, RIGHT_RECV);
      if err != Ok {
        return;
      }
      OneRight(s0, born, tab, idx, RIGHT_RECV);
      var e := tables[tab][idx].target;
      var ep := pool[e];
      assert Sound(Link(ep, mem));
      if ep.state == SendWaiting {
        if ep.pending != 0 {
          mem := mem[out := mem[ep.pending]];
        }
        wake := ep.parked;
        pool := pool[e := ep.(state := Idle, pending := 0, parked := 0)];
      } else if ep.state == Idle {
        pool := pool[e := ep.(state := RecvWaiting, pending := out, parked := cur)];
        block := cur;
      } else {
        err := ErrState;
      }
      AuthorityIgnoresState(s0, View(), born);
    }
  }
}
