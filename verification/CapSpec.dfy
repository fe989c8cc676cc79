/** The capability engine over values: slot tables, the endpoint pool, and what every run of
    create, derive, free and revoke keeps. */
module CapSpec {

  const TABLE_SIZE: nat := 64
  const POOL_SIZE: nat := 16

  datatype CapType = Null | EndpointCap | MemoryCap | IrqCap | DevPortCap

  datatype Err = Ok | ErrNull | ErrAccess | ErrRights | ErrStale | ErrFull | ErrBounds | ErrType | ErrState | ErrPool | ErrOccupied

  /** `target` is the pool index of the endpoint that the capability names. */
  datatype Slot = Slot(kind: CapType, rights: bv32, generation: nat, target: nat)

  const EMPTY: Slot := Slot(Null, 0, 0, 0)

  datatype EpState = Idle | SendWaiting | RecvWaiting

  /** `pending` is a message address, 0 for none; `parked` a task identifier, 0 for none. */
  datatype Endpoint = Endpoint(generation: nat, state: EpState, pending: nat, owner: nat, parked: nat)

  function FreshEndpoint(owner: nat): Endpoint { Endpoint(0, Idle, 0, owner, 0) }

  function Revoked(ep: Endpoint): Endpoint { Endpoint(ep.generation + 1, Idle, 0, ep.owner, 0) }

  type Table = t: seq<Slot> | |t| == TABLE_SIZE witness seq(TABLE_SIZE, _ => EMPTY)

  /** All slot tables, by table number, and the endpoint pool. */
  datatype Sys = Sys(tables: map<nat, Table>, pool: seq<Endpoint>, used: seq<bool>)

  /** Every bit of `a` is a bit of `b`. */
  predicate Subset(a: bv32, b: bv32) { a & !b == 0 }

  /** Every required bit is granted. */
  predicate Grants(rights: bv32, required: bv32) { rights & required == required }

  lemma SubsetTransitive(a: bv32, b: bv32, c: bv32)
    requires Subset(a, b) && Subset(b, c)
    ensures Subset(a, c)
  {
    assert a & !c == (a & b) & !c by { assert a & b == a; }
  }

  /** The checks of a lookup, in order. */
  function Lookup(s: Sys, tab: nat, idx: nat, kind: CapType, required: bv32): Err
    requires tab in s.tables
    requires idx < TABLE_SIZE && s.tables[tab][idx].kind == EndpointCap ==> s.tables[tab][idx].target < |s.pool|
  {
    if idx >= TABLE_SIZE then ErrBounds
    else
      var slot := s.tables[tab][idx];
      if slot.kind == Null then ErrNull
      else if slot.kind != kind then ErrType
      else if slot.kind == EndpointCap && s.pool[slot.target].generation != slot.generation then ErrStale
      else if !Grants(slot.rights, required) then ErrAccess
      else Ok
  }

  /** Index of the first unused endpoint from `i` on, or `|used|`. */
  function FirstUnused(used: seq<bool>, i: nat): (k: nat)
    requires i <= |used|
    ensures i <= k <= |used|
    ensures k < |used| ==> !used[k]
    ensures forall j | i <= j < k :: used[j]
    decreases |used| - i
  {
    if i == |used| then i else if !used[i] then i else FirstUnused(used, i + 1)
  }

  datatype Op =
    | InitTable(tab: nat)
    | Create(tab: nat, idx: nat, rights: bv32, owner: nat)
    | Derive(tab: nat, src: nat, dst: nat, rights: bv32)
    | FreeSlot(tab: nat, idx: nat)
    | Revoke(tab: nat, idx: nat)

  datatype Outcome = Outcome(sys: Sys, err: Err)

  function EmptyTable(): Table { seq(TABLE_SIZE, _ => EMPTY) }

  function PutSlot(s: Sys, tab: nat, idx: nat, slot: Slot): Sys
    requires tab in s.tables && idx < TABLE_SIZE
  {
    s.(tables := s.tables[tab := s.tables[tab][idx := slot]])
  }

  /** What every operation keeps about the shape: endpoint slots name used endpoints. */
  ghost predicate Shaped(s: Sys) {
    && |s.pool| == |s.used| == POOL_SIZE
    && forall tab, i | tab in s.tables && 0 <= i < TABLE_SIZE && s.tables[tab][i].kind == EndpointCap ::
         NamesUsed(s, tab, i)
  }

  ghost predicate NamesUsed(s: Sys, tab: nat, i: nat)
    requires tab in s.tables && i < TABLE_SIZE && |s.pool| == |s.used| == POOL_SIZE
  {
    s.tables[tab][i].target < POOL_SIZE && s.used[s.tables[tab][i].target]
  }

  function CreateOp(s: Sys, tab: nat, idx: nat, rights: bv32, owner: nat): Outcome
    requires tab in s.tables && |s.pool| == |s.used|
  {
    if idx >= TABLE_SIZE then Outcome(s, ErrBounds)
    else if s.tables[tab][idx].kind != Null then Outcome(s, ErrOccupied)
    else
      var e := FirstUnused(s.used, 0);
      if e == |s.used| then Outcome(s, ErrPool)
      else
        var s1 := s.(used := s.used[e := true], pool := s.pool[e := FreshEndpoint(owner)]);
        Outcome(PutSlot(s1, tab, idx, Slot(EndpointCap, rights, 0, e)), Ok)
  }

  function DeriveOp(s: Sys, tab: nat, src: nat, dst: nat, rights: bv32): Outcome
    requires tab in s.tables
    requires src < TABLE_SIZE && s.tables[tab][src].kind == EndpointCap ==> s.tables[tab][src].target < |s.pool|
  {
    if src >= TABLE_SIZE || dst >= TABLE_SIZE then Outcome(s, ErrBounds)
    else
      var from := s.tables[tab][src];
      if from.kind == Null then Outcome(s, ErrNull)
      else if from.kind == EndpointCap && s.pool[from.target].generation != from.generation then Outcome(s, ErrStale)
      else if !Subset(rights, from.rights) then Outcome(s, ErrRights)
      else if s.tables[tab][dst].kind != Null then Outcome(s, ErrOccupied)
      else Outcome(PutSlot(s, tab, dst, from.(rights := rights)), Ok)
  }

  function FreeOp(s: Sys, tab: nat, idx: nat): Outcome
    requires tab in s.tables
  {
    if idx >= TABLE_SIZE then Outcome(s, ErrBounds) else Outcome(PutSlot(s, tab, idx, EMPTY), Ok)
  }

  function RevokeOp(s: Sys, tab: nat, idx: nat): Outcome
    requires tab in s.tables
    requires idx < TABLE_SIZE && s.tables[tab][idx].kind == EndpointCap ==> s.tables[tab][idx].target < |s.pool|
  {
    if idx >= TABLE_SIZE then Outcome(s, ErrBounds)
    else if s.tables[tab][idx].kind != EndpointCap then Outcome(s, ErrType)
    else
      var e := s.tables[tab][idx].target;
      Outcome(s.(pool := s.pool[e := Revoked(s.pool[e])]), Ok)
  }

  /** One operation; operations on tables that do not exist yet change nothing. */
  ghost function Apply(s: Sys, op: Op): Outcome
    requires Shaped(s)
  {
    match op
    case InitTable(tab) => Outcome(s.(tables := s.tables[tab := EmptyTable()]), Ok)
    case Create(tab, idx, rights, owner) => if tab in s.tables then CreateOp(s, tab, idx, rights, owner) else Outcome(s, ErrNull)
    case Derive(tab, src, dst, rights) =>
      if tab in s.tables then (ShapedAt(s, tab, src); DeriveOp(s, tab, src, dst, rights)) else Outcome(s, ErrNull)
    case FreeSlot(tab, idx) => if tab in s.tables then FreeOp(s, tab, idx) else Outcome(s, ErrNull)
    case Revoke(tab, idx) =>
      if tab in s.tables then (ShapedAt(s, tab, idx); RevokeOp(s, tab, idx)) else Outcome(s, ErrNull)
  }

  lemma ShapedAt(s: Sys, tab: nat, idx: nat)
    requires Shaped(s) && tab in s.tables
    ensures idx < TABLE_SIZE && s.tables[tab][idx].kind == EndpointCap ==> s.tables[tab][idx].target < |s.pool|
  {
    if idx < TABLE_SIZE && s.tables[tab][idx].kind == EndpointCap {
      assert NamesUsed(s, tab, idx);
    }
  }

  // ---- Authority -------------------------------------------------------------------------

  /** The rights each endpoint was created with. */
  type Birth = map<nat, bv32>

  /** What creation records. */
  ghost function NextBirth(s: Sys, born: Birth, op: Op): Birth
    requires Shaped(s)
  {
    if op.Create? && Apply(s, op).err == Ok then born[FirstUnused(s.used, 0) := op.rights] else born
  }

  /** A slot that names an endpoint grants no more than the endpoint was created with, and its
      generation is that of an endpoint that was never revoked. */
  ghost predicate SlotOk(slot: Slot, s: Sys, born: Birth) {
    slot.kind == EndpointCap ==>
      && slot.target < |s.used| && s.used[slot.target]
      && slot.target in born && Subset(slot.rights, born[slot.target])
      && slot.generation == 0
  }

  ghost predicate Authority(s: Sys, born: Birth) {
    && |s.pool| == |s.used| == POOL_SIZE
    && forall tab, i | tab in s.tables && 0 <= i < TABLE_SIZE :: SlotOk(s.tables[tab][i], s, born)
  }

  lemma AuthorityShaped(s: Sys, born: Birth)
    requires Authority(s, born)
    ensures Shaped(s)
  {
    forall tab, i | tab in s.tables && 0 <= i < TABLE_SIZE && s.tables[tab][i].kind == EndpointCap
      ensures NamesUsed(s, tab, i)
    {
      assert SlotOk(s.tables[tab][i], s, born);
    }
  }

  lemma PutKeepsAuthority(s: Sys, s1: Sys, born: Birth, born1: Birth, tab: nat, idx: nat, slot: Slot)
    requires Authority(s, born) && tab in s.tables && idx < TABLE_SIZE
    requires s1.tables == s.tables && |s1.pool| == |s1.used| == POOL_SIZE
    requires forall e | e in born && e < POOL_SIZE && s.used[e] :: s1.used[e] && e in born1 && born1[e] == born[e]
    requires SlotOk(slot, s1, born1)
    ensures Authority(PutSlot(s1, tab, idx, slot), born1)
  {
    var s' := PutSlot(s1, tab, idx, slot);
    forall t, i | t in s'.tables && 0 <= i < TABLE_SIZE ensures SlotOk(s'.tables[t][i], s', born1) {
      if (t, i) == (tab, idx) {
        assert s'.tables[t][i] == slot;
      } else {
        assert s'.tables[t][i] == s.tables[t][i];
        assert SlotOk(s.tables[t][i], s, born);
      }
    }
  }

  /** Every operation keeps the authority invariant. */
  lemma ApplyKeepsAuthority(s: Sys, born: Birth, op: Op)
    requires Authority(s, born)
    ensures Shaped(s)
    ensures Authority(Apply(s, op).sys, NextBirth(s, born, op))
  {
    hide Subset;
    AuthorityShaped(s, born);
    var s' := Apply(s, op).sys;
    match op
    case InitTable(tab) =>
      forall t, i | t in s'.tables && 0 <= i < TABLE_SIZE ensures SlotOk(s'.tables[t][i], s', born) {
        assert t != tab ==> SlotOk(s.tables[t][i], s, born);
      }
    case Create(tab, idx, rights, owner) =>
      if Apply(s, op).err == Ok {
        var e := FirstUnused(s.used, 0);
        var s1 := s.(used := s.used[e := true], pool := s.pool[e := FreshEndpoint(owner)]);
        SubsetSelf(rights);
        PutKeepsAuthority(s, s1, born, born[e := rights], tab, idx, Slot(EndpointCap, rights, 0, e));
      }
    case Derive(tab, src, dst, rights) =>
      if Apply(s, op).err == Ok {
        var from := s.tables[tab][src];
        assert SlotOk(from, s, born);
        if from.kind == EndpointCap {
          SubsetTransitive(rights, from.rights, born[from.target]);
        }
        PutKeepsAuthority(s, s, born, born, tab, dst, from.(rights := rights));
      }
    case FreeSlot(tab, idx) =>
      if Apply(s, op).err == Ok {
        PutKeepsAuthority(s, s, born, born, tab, idx, EMPTY);
      }
    case Revoke(tab, idx) =>
      forall t, i | t in s'.tables && 0 <= i < TABLE_SIZE ensures SlotOk(s'.tables[t][i], s', born) {
        assert SlotOk(s.tables[t][i], s, born);
      }
  }

  lemma SubsetSelf(a: bv32)
    ensures Subset(a, a)
  {
  }

  ghost function Run(s: Sys, born: Birth, ops: seq<Op>): (r: Sys)
    requires Authority(s, born)
    ensures Authority(r, RunBirth(s, born, ops))
    decreases ops
  {
    if ops == [] then s
    else
      ApplyKeepsAuthority(s, born, ops[0]);
      Run(Apply(s, ops[0]).sys, NextBirth(s, born, ops[0]), ops[1..])
  }

  ghost function RunBirth(s: Sys, born: Birth, ops: seq<Op>): Birth
    requires Authority(s, born)
    decreases ops
  {
    if ops == [] then born
    else
      ApplyKeepsAuthority(s, born, ops[0]);
      RunBirth(Apply(s, ops[0]).sys, NextBirth(s, born, ops[0]), ops[1..])
  }

  /** Once in use an endpoint stays in use, its birth rights are never rewritten, and its
      generation never goes back. */
  lemma EndpointsOnlyAge(s: Sys, born: Birth, op: Op, e: nat)
    requires Authority(s, born) && e < POOL_SIZE && s.used[e]
    ensures Shaped(s)
    ensures Apply(s, op).sys.used[e] && Apply(s, op).sys.pool[e].generation >= s.pool[e].generation
    ensures e in born ==> e in NextBirth(s, born, op) && NextBirth(s, born, op)[e] == born[e]
  {
    hide Subset;
    AuthorityShaped(s, born);
  }

  /** No slot of any table grants more than `rights` on endpoint `e`. */
  ghost predicate RightsWithin(s: Sys, e: nat, rights: bv32) {
    forall tab, i | tab in s.tables && 0 <= i < TABLE_SIZE ::
      s.tables[tab][i].kind == EndpointCap && s.tables[tab][i].target == e ==> Subset(s.tables[tab][i].rights, rights)
  }

  /** No escalation: whatever a run creates, derives, frees and revokes, in whichever tables, a
      slot never grants more rights on an endpoint than that endpoint was created with. */
  lemma {:induction false} RightsNeverGrow(s: Sys, born: Birth, ops: seq<Op>, e: nat, rights: bv32)
    requires Authority(s, born) && e < POOL_SIZE && s.used[e] && e in born && born[e] == rights
    ensures RightsWithin(Run(s, born, ops), e, rights)
    decreases ops
  {
    hide Subset, Apply, NextBirth;
    if ops != [] {
      ApplyKeepsAuthority(s, born, ops[0]);
      EndpointsOnlyAge(s, born, ops[0], e);
      RightsNeverGrow(Apply(s, ops[0]).sys, NextBirth(s, born, ops[0]), ops[1..], e, rights);
    }
  }

  /** No lookup through any slot of any table succeeds for endpoint `e`. */
  ghost predicate NoneReaches(s: Sys, e: nat)
    requires Shaped(s)
  {
    forall tab, i, kind, required | tab in s.tables && 0 <= i < TABLE_SIZE && s.tables[tab][i].kind == EndpointCap ::
      s.tables[tab][i].target < |s.pool|
      && (s.tables[tab][i].target == e ==> Lookup(s, tab, i, kind, required) != Ok)
  }

  lemma StaleReachesNone(s: Sys, born: Birth, e: nat)
    requires Authority(s, born) && Shaped(s) && e < POOL_SIZE && s.pool[e].generation > 0
    ensures NoneReaches(s, e)
  {
    forall tab, i | tab in s.tables && 0 <= i < TABLE_SIZE ensures SlotOk(s.tables[tab][i], s, born) {
    }
  }

  /** Revocation is final: after an endpoint has been revoked, no slot of any table, existing or
      minted later, ever passes a lookup for it again. */
  lemma {:induction false} RevokedForever(s: Sys, born: Birth, ops: seq<Op>, e: nat)
    requires Authority(s, born) && e < POOL_SIZE && s.used[e] && s.pool[e].generation > 0
    ensures Shaped(Run(s, born, ops))
    ensures NoneReaches(Run(s, born, ops), e)
    decreases ops
  {
    hide Subset, Apply, NextBirth, Lookup;
    AuthorityShaped(Run(s, born, ops), RunBirth(s, born, ops));
    if ops == [] {
      StaleReachesNone(s, born, e);
    } else {
      ApplyKeepsAuthority(s, born, ops[0]);
      EndpointsOnlyAge(s, born, ops[0], e);
      RevokedForever(Apply(s, ops[0]).sys, NextBirth(s, born, ops[0]), ops[1..], e);
    }
  }

  /** A successful revocation is such a state, and before it the holder's slot was live exactly
      when the endpoint had never been revoked. */
  lemma RevokeMakesStale(s: Sys, born: Birth, tab: nat, idx: nat)
    requires Authority(s, born) && tab in s.tables && idx < TABLE_SIZE && s.tables[tab][idx].kind == EndpointCap
    ensures Shaped(s) && Apply(s, Revoke(tab, idx)).err == Ok
    ensures var e := s.tables[tab][idx].target;
            && e < POOL_SIZE && Apply(s, Revoke(tab, idx)).sys.pool[e].generation > 0
            && (Lookup(s, tab, idx, EndpointCap, 0) == Ok <==> s.pool[e].generation == 0)
  {
    AuthorityShaped(s, born);
    assert SlotOk(s.tables[tab][idx], s, born);
  }

  /** Right after boot nothing exists. */
  lemma BootAuthority(pool: seq<Endpoint>)
    requires |pool| == POOL_SIZE
    ensures Authority(Sys(map[], pool, seq(POOL_SIZE, _ => false)), map[])
  {
  }

  // ---- What a lookup promises ------------------------------------------------------------

  /** A single right. */
  predicate Bit(b: bv32) { b != 0 && b & (b - 1) == 0 }

  predicate Has(rights: bv32, b: bv32) { rights & b != 0 }

  /** Every single right in `required` is in `rights`. */
  ghost predicate Covers(rights: bv32, required: bv32) {
    forall b: bv32 | Bit(b) && Has(required, b) :: Has(rights, b)
  }

  /** The lowest right of a non-empty set of rights. */
  function Lowest(x: bv32): bv32 { x & (0 - x) }

  lemma LowestIsBit(x: bv32)
    requires x != 0
    ensures Bit(Lowest(x)) && x & Lowest(x) == Lowest(x)
  {
  }

  lemma GrantedBit(rights: bv32, required: bv32, b: bv32)
    requires Grants(rights, required) && Has(required, b)
    ensures Has(rights, b)
  {
    assert required & b == (rights & required) & b;
  }

  function Lacking(rights: bv32, required: bv32): bv32 { required & !rights }

  lemma LackingSome(rights: bv32, required: bv32)
    requires !Grants(rights, required)
    ensures Lacking(rights, required) != 0
  {
  }

  lemma LackingPart(rights: bv32, required: bv32, b: bv32)
    requires b != 0 && Lacking(rights, required) & b == b
    ensures Has(required, b) && !Has(rights, b)
  {
  }

  lemma MissingBit(rights: bv32, required: bv32) returns (b: bv32)
    requires !Grants(rights, required)
    ensures Bit(b) && Has(required, b) && !Has(rights, b)
  {
    hide Grants, Has, Lacking, Lowest;
    LackingSome(rights, required);
    b := Lowest(Lacking(rights, required));
    LowestIsBit(Lacking(rights, required));
    LackingPart(rights, required, b);
  }

  /** The mask test of the lookup asks for each right by itself. */
  lemma GrantsIffCovers(rights: bv32, required: bv32)
    ensures Grants(rights, required) <==> Covers(rights, required)
  {
    hide Grants, Has, Bit;
    if Grants(rights, required) {
      forall b: bv32 | Bit(b) && Has(required, b) ensures Has(rights, b) {
        GrantedBit(rights, required, b);
      }
    } else {
      var b := MissingBit(rights, required);
    }
  }

  lemma SubsetIsGrants(a: bv32, b: bv32)
    ensures Subset(a, b) <==> Grants(b, a)
  {
  }

  /** And so does the mask test of derivation. */
  lemma SubsetIffCovers(a: bv32, b: bv32)
    ensures Subset(a, b) <==> Covers(b, a)
  {
    hide Subset, Grants, Covers;
    SubsetIsGrants(a, b);
    GrantsIffCovers(b, a);
  }

  /** A lookup succeeds exactly on a slot of the kind asked for, whose endpoint was not revoked since the
      slot was made, and which holds every single right asked for. */
  lemma LookupOkIff(s: Sys, tab: nat, idx: nat, kind: CapType, required: bv32)
    requires Shaped(s) && tab in s.tables
    ensures idx < TABLE_SIZE && s.tables[tab][idx].kind == EndpointCap ==> s.tables[tab][idx].target < |s.pool|
    ensures Lookup(s, tab, idx, kind, required) == Ok <==>
              && idx < TABLE_SIZE && kind != Null && s.tables[tab][idx].kind == kind
              && (kind == EndpointCap ==> s.pool[s.tables[tab][idx].target].generation == s.tables[tab][idx].generation)
              && Covers(s.tables[tab][idx].rights, required)
  {
    hide Grants, Covers, Shaped;
    ShapedAt(s, tab, idx);
    if idx < TABLE_SIZE {
      GrantsIffCovers(s.tables[tab][idx].rights, required);
    }
  }

  /** Every lookup of an endpoint slot that succeeds asks for rights its endpoint was made with. */
  ghost predicate LookupsWithin(s: Sys, born: Birth)
    requires Shaped(s)
  {
    forall tab, i, required | tab in s.tables && 0 <= i < TABLE_SIZE :: WithinBirth(s, born, tab, i, required)
  }

  ghost predicate WithinBirth(s: Sys, born: Birth, tab: nat, i: nat, required: bv32)
    requires Shaped(s) && tab in s.tables && i < TABLE_SIZE
  {
    ShapedAt(s, tab, i);
    Lookup(s, tab, i, EndpointCap, required) == Ok ==>
      s.tables[tab][i].target in born && Covers(born[s.tables[tab][i].target], required)
  }

  lemma CoversTransitive(a: bv32, b: bv32, c: bv32)
    requires Covers(a, b) && Subset(a, c)
    ensures Covers(c, b)
  {
    hide Has, Bit, Subset;
    SubsetIffCovers(a, c);
  }

  lemma AuthorityWithin(s: Sys, born: Birth)
    requires Authority(s, born)
    ensures Shaped(s) && LookupsWithin(s, born)
  {
    hide Covers, Subset, Lookup;
    AuthorityShaped(s, born);
    forall tab, i, required | tab in s.tables && 0 <= i < TABLE_SIZE ensures WithinBirth(s, born, tab, i, required) {
      LookupOkIff(s, tab, i, EndpointCap, required);
      assert SlotOk(s.tables[tab][i], s, born);
      if Lookup(s, tab, i, EndpointCap, required) == Ok {
        CoversTransitive(s.tables[tab][i].rights, required, born[s.tables[tab][i].target]);
      }
    }
  }

  /** After every run, a lookup that succeeds asks for no right that its endpoint was not made with: through an
      endpoint made without the right to send nobody ever sends. */
  lemma LookupsStayWithin(s: Sys, born: Birth, ops: seq<Op>)
    requires Authority(s, born)
    ensures Shaped(Run(s, born, ops)) && LookupsWithin(Run(s, born, ops), RunBirth(s, born, ops))
  {
    hide Authority, LookupsWithin, Shaped;
    AuthorityWithin(Run(s, born, ops), RunBirth(s, born, ops));
  }

  /** The birth rights of an endpoint in use are never rewritten by a run. */
  lemma {:induction false} BirthIsForGood(s: Sys, born: Birth, ops: seq<Op>, e: nat)
    requires Authority(s, born) && e < POOL_SIZE && s.used[e] && e in born
    ensures e in RunBirth(s, born, ops) && RunBirth(s, born, ops)[e] == born[e]
    decreases ops
  {
    hide Subset, Apply, NextBirth;
    if ops != [] {
      ApplyKeepsAuthority(s, born, ops[0]);
      EndpointsOnlyAge(s, born, ops[0], e);
      BirthIsForGood(Apply(s, ops[0]).sys, NextBirth(s, born, ops[0]), ops[1..], e);
    }
  }

  /** Every lookup in another slot answers as before. */
  ghost predicate OtherLookupsSame(s: Sys, s': Sys, tab: nat, idx: nat)
    requires Shaped(s) && Shaped(s')
  {
    && s'.tables.Keys == s.tables.Keys
    && forall t, i: nat, kind, required | t in s.tables && (t, i) != (tab, idx) :: SameLookup(s, s', t, i, kind, required)
  }

  ghost predicate SameLookup(s: Sys, s': Sys, t: nat, i: nat, kind: CapType, required: bv32)
    requires Shaped(s) && Shaped(s') && t in s.tables && t in s'.tables
  {
    ShapedAt(s, t, i);
    ShapedAt(s', t, i);
    Lookup(s', t, i, kind, required) == Lookup(s, t, i, kind, required)
  }

  /** A lookup in the slot succeeds exactly for rights among `rights`. */
  ghost predicate Opens(s: Sys, tab: nat, idx: nat, kind: CapType, rights: bv32)
    requires Shaped(s) && tab in s.tables
  {
    ShapedAt(s, tab, idx);
    forall required :: Lookup(s, tab, idx, kind, required) == Ok <==> Covers(rights, required)
  }

  /** A slot put into a table shows what it holds, and no other lookup notices, when the endpoints that
      other slots name keep their generations. */
  lemma PutSeen(s: Sys, s1: Sys, tab: nat, idx: nat, slot: Slot)
    requires Shaped(s) && tab in s.tables && idx < TABLE_SIZE
    requires s1.tables == s.tables && |s1.pool| == POOL_SIZE && Shaped(PutSlot(s1, tab, idx, slot))
    requires forall e | 0 <= e < POOL_SIZE && s.used[e] :: s1.pool[e] == s.pool[e]
    ensures OtherLookupsSame(s, PutSlot(s1, tab, idx, slot), tab, idx)
    ensures slot.kind != Null && (slot.kind == EndpointCap ==> slot.target < POOL_SIZE && s1.pool[slot.target].generation == slot.generation)
            ==> Opens(PutSlot(s1, tab, idx, slot), tab, idx, slot.kind, slot.rights)
    ensures slot.kind == Null ==> forall kind, required :: Lookup(PutSlot(s1, tab, idx, slot), tab, idx, kind, required) == ErrNull
  {
    hide Grants, Covers;
    var s' := PutSlot(s1, tab, idx, slot);
    forall t, i: nat, kind, required | t in s.tables && (t, i) != (tab, idx) ensures SameLookup(s, s', t, i, kind, required) {
      if i < TABLE_SIZE {
        assert s'.tables[t][i] == s.tables[t][i];
        if s.tables[t][i].kind == EndpointCap {
          assert NamesUsed(s, t, i);
        }
      }
    }
    if slot.kind != Null && (slot.kind == EndpointCap ==> slot.target < POOL_SIZE && s1.pool[slot.target].generation == slot.generation) {
      forall required ensures Lookup(s', tab, idx, slot.kind, required) == Ok <==> Covers(slot.rights, required) {
        LookupOkIff(s', tab, idx, slot.kind, required);
      }
    }
  }

  /** Creation succeeds exactly in a free slot while the pool has an unused endpoint; the new slot then
      opens exactly the rights asked for, and no other lookup changes. */
  lemma CreateSeen(s: Sys, born: Birth, tab: nat, idx: nat, rights: bv32, owner: nat)
    requires Authority(s, born) && tab in s.tables
    ensures var r := CreateOp(s, tab, idx, rights, owner);
            && Shaped(s) && Shaped(r.sys)
            && (r.err == Ok <==> idx < TABLE_SIZE && s.tables[tab][idx].kind == Null && exists e :: 0 <= e < POOL_SIZE && !s.used[e])
            && (r.err != Ok ==> r.sys == s)
            && (r.err == Ok ==> OtherLookupsSame(s, r.sys, tab, idx) && Opens(r.sys, tab, idx, EndpointCap, rights))
  {
    hide Subset, Grants, Covers, Lookup, Opens, OtherLookupsSame;
    var op := Create(tab, idx, rights, owner);
    var r := CreateOp(s, tab, idx, rights, owner);
    ApplyKeepsAuthority(s, born, op);
    AuthorityShaped(r.sys, NextBirth(s, born, op));
    var e := FirstUnused(s.used, 0);
    if r.err == Ok {
      assert !s.used[e];
      var s1 := s.(used := s.used[e := true], pool := s.pool[e := FreshEndpoint(owner)]);
      PutSeen(s, s1, tab, idx, Slot(EndpointCap, rights, 0, e));
    }
  }

  /** Derivation succeeds exactly from a live slot that holds each right asked for, into a free slot; the
      new slot then opens exactly those rights, and no other lookup changes. */
  lemma DeriveSeen(s: Sys, born: Birth, tab: nat, src: nat, dst: nat, rights: bv32)
    requires Authority(s, born) && tab in s.tables
    ensures Shaped(s) && (src < TABLE_SIZE && s.tables[tab][src].kind == EndpointCap ==> s.tables[tab][src].target < |s.pool|)
    ensures var r := DeriveOp(s, tab, src, dst, rights);
            && Shaped(r.sys)
            && (r.err == Ok <==> && src < TABLE_SIZE && dst < TABLE_SIZE && s.tables[tab][dst].kind == Null
                                 && Lookup(s, tab, src, s.tables[tab][src].kind, rights) == Ok)
            && (r.err != Ok ==> r.sys == s)
            && (r.err == Ok ==> OtherLookupsSame(s, r.sys, tab, dst) && Opens(r.sys, tab, dst, s.tables[tab][src].kind, rights))
  {
    hide Subset, Grants, Covers, Opens, OtherLookupsSame;
    AuthorityShaped(s, born);
    ShapedAt(s, tab, src);
    var op := Derive(tab, src, dst, rights);
    var r := DeriveOp(s, tab, src, dst, rights);
    ApplyKeepsAuthority(s, born, op);
    AuthorityShaped(r.sys, born);
    if src < TABLE_SIZE {
      var from := s.tables[tab][src];
      SubsetIsGrants(rights, from.rights);
      if r.err == Ok {
        PutSeen(s, s, tab, dst, from.(rights := rights));
      }
    }
  }

  /** A freed slot answers that it is empty, and no other lookup changes. */
  lemma FreeSeen(s: Sys, born: Birth, tab: nat, idx: nat)
    requires Authority(s, born) && tab in s.tables && idx < TABLE_SIZE
    ensures var r := FreeOp(s, tab, idx);
            && r.err == Ok && Shaped(s) && Shaped(r.sys) && OtherLookupsSame(s, r.sys, tab, idx)
            && forall kind, required :: Lookup(r.sys, tab, idx, kind, required) == ErrNull
  {
    hide Subset, Grants, OtherLookupsSame, Lookup;
    AuthorityShaped(s, born);
    ApplyKeepsAuthority(s, born, FreeSlot(tab, idx));
    AuthorityShaped(FreeOp(s, tab, idx).sys, born);
    PutSeen(s, s, tab, idx, EMPTY);
  }

  /** Revocation through a slot closes every slot of its endpoint, in every table, and no other. */
  lemma RevokeSeen(s: Sys, born: Birth, tab: nat, idx: nat, t: nat, i: nat, kind: CapType, required: bv32)
    requires Authority(s, born) && tab in s.tables && idx < TABLE_SIZE && s.tables[tab][idx].kind == EndpointCap
    requires t in s.tables && i < TABLE_SIZE
    ensures Shaped(s) && s.tables[tab][idx].target < |s.pool|
    ensures var s' := RevokeOp(s, tab, idx).sys; var slot := s.tables[t][i];
            && Shaped(s') && s'.tables == s.tables && (slot.kind == EndpointCap ==> slot.target < |s.pool| && slot.target < |s'.pool|)
            && Lookup(s', t, i, kind, required)
               == if slot.kind == kind == EndpointCap && slot.target == s.tables[tab][idx].target then ErrStale
                  else Lookup(s, t, i, kind, required)
  {
    hide Subset, Grants;
    AuthorityShaped(s, born);
    ShapedAt(s, tab, idx);
    ApplyKeepsAuthority(s, born, Revoke(tab, idx));
    AuthorityShaped(RevokeOp(s, tab, idx).sys, born);
    assert SlotOk(s.tables[t][i], s, born);
  }
}
