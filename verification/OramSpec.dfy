/** PathORAM over values: the effect of one access on the position map, the stash and the tree,
    and the proof that any run of accesses behaves like a plain array of blocks. */
module OramSpec {
  import opened OramTree
  import opened Sets

  type Sector = s: seq<bv8> | |s| == 512 witness seq(512, _ => 0)

  function Zero(): Sector { seq(512, _ => 0) }

  const DUMMY: nat := 0xFFFF_FFFF

  datatype Block = Block(lba: nat, data: Sector)

  /** `l` is the depth of the tree and `z` the bucket size. */
  datatype Geometry = Geometry(l: nat, z: nat) {
    function Leaves(): nat { Pow2(l) }
    function Nodes(): nat { Pow2(l + 1) - 1 }
    /** Logical addresses stay clear of the dummy marker. */
    predicate Valid() { Leaves() <= DUMMY }
  }

  datatype State = State(pos: seq<nat>, stash: seq<Block>, tree: seq<seq<Block>>)

  // ---- Buckets ---------------------------------------------------------------------------

  /** The real blocks of a bucket, in slot order. */
  function Reals(bucket: seq<Block>): seq<Block> {
    if bucket == [] then []
    else
      var last := bucket[|bucket| - 1];
      Reals(bucket[..|bucket| - 1]) + (if last.lba != DUMMY then [last] else [])
  }

  /** All real blocks of the buckets of a path, root first. */
  function Load(tree: seq<seq<Block>>, path: seq<nat>): seq<Block>
    requires forall i | 0 <= i < |path| :: path[i] < |tree|
  {
    if path == [] then []
    else Load(tree, path[..|path| - 1]) + Reals(tree[path[|path| - 1]])
  }

  function Dummies(n: nat): seq<Block> {
    seq(n, _ => Block(DUMMY, Zero()))
  }

  ghost function Lbas(s: seq<Block>): set<nat> {
    set i | 0 <= i < |s| :: s[i].lba
  }

  ghost predicate Distinct(s: seq<Block>) {
    forall i, j | 0 <= i < j < |s| :: s[i].lba != s[j].lba
  }

  // ---- One access ------------------------------------------------------------------------

  /** What eviction moves into a bucket and what stays in the stash. */
  datatype Picked = Picked(taken: seq<Block>, rest: seq<Block>)

  /** Greedy eviction of the stash into one bucket with `room` free slots: scans the stash in
      order and takes every block whose leaf lies below `node` while there is room. */
  function Pick(g: Geometry, pos: seq<nat>, node: nat, stash: seq<Block>, room: nat): (p: Picked)
    requires forall b | b in stash :: b.lba < |pos|
    ensures |p.taken| <= room
    ensures forall b | b in p.rest :: b in stash
  {
    if stash == [] || room == 0 then Picked([], stash)
    else if Ancestor(node, LeafNode(g.l, pos[stash[0].lba])) then
      var p := Pick(g, pos, node, stash[1..], room - 1);
      Picked([stash[0]] + p.taken, p.rest)
    else
      var p := Pick(g, pos, node, stash[1..], room);
      Picked(p.taken, [stash[0]] + p.rest)
  }

  ghost predicate Shaped(g: Geometry, st: State) {
    && |st.pos| == g.Leaves()
    && (forall a | 0 <= a < |st.pos| :: st.pos[a] < g.Leaves())
    && |st.tree| == g.Nodes()
    && (forall n | 0 <= n < |st.tree| :: |st.tree[n]| == g.z)
    && (forall i | 0 <= i < |st.stash| :: st.stash[i].lba < g.Leaves())
  }

  ghost function EvictBucket(g: Geometry, st: State, node: nat): (r: State)
    requires Shaped(g, st) && node < g.Nodes()
    ensures Shaped(g, r)
  {
    var p := Pick(g, st.pos, node, st.stash, g.z);
    st.(stash := p.rest, tree := st.tree[node := p.taken + Dummies(g.z - |p.taken|)])
  }

  /** Evicts into the first `k` nodes of the path, last one first. */
  ghost function Evict(g: Geometry, st: State, path: seq<nat>, k: nat): (r: State)
    requires Shaped(g, st) && k <= |path| && forall i | 0 <= i < |path| :: path[i] < g.Nodes()
    ensures Shaped(g, r) && r.pos == st.pos
    decreases k
  {
    if k == 0 then st else Evict(g, EvictBucket(g, st, path[k - 1]), path, k - 1)
  }

  /** The first stash entry with this address, or `|stash|` when there is none. */
  function Find(stash: seq<Block>, lba: nat): (i: nat)
    ensures i <= |stash|
    ensures i < |stash| ==> stash[i].lba == lba
    ensures forall k | 0 <= k < i :: stash[k].lba != lba
  {
    if stash == [] then 0
    else if stash[0].lba == lba then 0
    else 1 + Find(stash[1..], lba)
  }

  datatype Op = Read(lba: nat) | Write(lba: nat, data: Sector)

  /** The loaded stash after serving the request. */
  function Touch(stash: seq<Block>, op: Op): seq<Block> {
    if op.Read? then stash
    else if Find(stash, op.lba) < |stash| then stash[Find(stash, op.lba) := Block(op.lba, op.data)]
    else stash + [Block(op.lba, op.data)]
  }

  /** What the caller's buffer holds afterwards. */
  function Answer(stash: seq<Block>, op: Op): Sector {
    if op.Write? then op.data
    else if Find(stash, op.lba) < |stash| then stash[Find(stash, op.lba)].data
    else Zero()
  }

  /** The nodes read and rewritten by an access to a block mapped to `leaf`. */
  function TreePath(g: Geometry, leaf: nat): (p: seq<nat>)
    requires leaf < g.Leaves()
    ensures |p| == g.l + 1 && forall i | 0 <= i < |p| :: p[i] < g.Nodes()
  {
    PathShape(g.l, leaf);
    Path(g.l, leaf)
  }

  /** The stash after the whole path of `lba` has been read into it. */
  ghost function Loaded(g: Geometry, st: State, lba: nat): seq<Block>
    requires Shaped(g, st) && lba < g.Leaves()
  {
    st.stash + Load(st.tree, TreePath(g, st.pos[lba]))
  }

  /** One access: read the path, serve the request, remap the block, rewrite the path. */
  ghost function Access(g: Geometry, st: State, op: Op, leaf: nat): (r: (State, Sector))
    requires Shaped(g, st) && op.lba < g.Leaves() && leaf < g.Leaves()
    requires forall b | b in Loaded(g, st, op.lba) :: b.lba < g.Leaves()
    ensures Shaped(g, r.0)
  {
    var path := TreePath(g, st.pos[op.lba]);
    var stash := Loaded(g, st, op.lba);
    var st' := State(st.pos[op.lba := leaf], Touch(stash, op), st.tree);
    (Evict(g, st', path, g.l + 1), Answer(stash, op))
  }

  // ---- The invariant ---------------------------------------------------------------------

  /** Every block of `s` is an in-range logical block holding its current contents, once. */
  ghost predicate Good(g: Geometry, s: seq<Block>, contents: seq<Sector>)
    requires |contents| == g.Leaves()
  {
    && (forall i | 0 <= i < |s| :: s[i].lba < g.Leaves() && s[i].data == contents[s[i].lba])
    && Distinct(s)
  }

  ghost predicate OnItsPath(g: Geometry, pos: seq<nat>, node: nat, s: seq<Block>)
    requires |pos| == g.Leaves()
  {
    forall i | 0 <= i < |s| :: s[i].lba < |pos| && Ancestor(node, LeafNode(g.l, pos[s[i].lba]))
  }

  /** Every live bucket holds current contents of blocks mapped below it. */
  ghost predicate TreeGood(g: Geometry, st: State, dead: set<nat>, contents: seq<Sector>)
    requires Shaped(g, st) && |contents| == g.Leaves()
  {
    forall n | 0 <= n < |st.tree| && n !in dead ::
      Good(g, Reals(st.tree[n]), contents) && OnItsPath(g, st.pos, n, Reals(st.tree[n]))
  }

  /** No block is both in the stash and in a live bucket, or in two live buckets. */
  ghost predicate Apart(st: State, dead: set<nat>) {
    && (forall n | 0 <= n < |st.tree| && n !in dead ::
          Lbas(st.stash) !! Lbas(Reals(st.tree[n])))
    && (forall n, m | 0 <= n < m < |st.tree| && n !in dead && m !in dead ::
          Lbas(Reals(st.tree[n])) !! Lbas(Reals(st.tree[m])))
  }

  /** A block stored nowhere still has its initial contents. */
  ghost predicate Complete(g: Geometry, st: State, dead: set<nat>, contents: seq<Sector>)
    requires |contents| == g.Leaves()
  {
    forall a | 0 <= a < g.Leaves() && !Stored(st, dead, a) :: contents[a] == Zero()
  }

  /** What every access keeps. The buckets of `dead` hold copies that are about to be
      overwritten and are not counted. */
  ghost predicate Inv(g: Geometry, st: State, dead: set<nat>, contents: seq<Sector>) {
    && g.Valid()
    && Shaped(g, st)
    && |contents| == g.Leaves()
    && Good(g, st.stash, contents)
    && TreeGood(g, st, dead, contents)
    && Apart(st, dead)
    && Complete(g, st, dead, contents)
  }

  ghost predicate Stored(st: State, dead: set<nat>, a: nat) {
    a in Lbas(st.stash)
    || exists n :: 0 <= n < |st.tree| && n !in dead && a in Lbas(Reals(st.tree[n]))
  }

  // ---- Lemmas about the parts ------------------------------------------------------------

  lemma LbasAppend(s: seq<Block>, t: seq<Block>)
    ensures Lbas(s + t) == Lbas(s) + Lbas(t)
  {
    forall a | a in Lbas(t) ensures a in Lbas(s + t) {
      var i :| 0 <= i < |t| && t[i].lba == a;
      assert (s + t)[|s| + i].lba == a;
    }
    forall a | a in Lbas(s) ensures a in Lbas(s + t) {
      var i :| 0 <= i < |s| && s[i].lba == a;
      assert (s + t)[i].lba == a;
    }
  }

  lemma {:induction false} RealsOfReal(taken: seq<Block>)
    requires forall i | 0 <= i < |taken| :: taken[i].lba != DUMMY
    ensures Reals(taken) == taken
  {
    if taken != [] {
      RealsOfReal(taken[..|taken| - 1]);
    }
  }

  /** Padding a bucket with dummies does not change its real blocks. */
  lemma {:induction false} RealsOfFilled(taken: seq<Block>, n: nat)
    requires forall i | 0 <= i < |taken| :: taken[i].lba != DUMMY
    ensures Reals(taken + Dummies(n)) == taken
    decreases n
  {
    hide Reals;
    if n == 0 {
      RealsOfReal(taken);
      assert taken + Dummies(0) == taken;
    } else {
      RealsOfFilled(taken, n - 1);
      RealsSnoc(taken + Dummies(n - 1), Dummies(n)[n - 1]);
      assert taken + Dummies(n) == taken + Dummies(n - 1) + [Dummies(n)[n - 1]];
    }
  }

  lemma RealsSnoc(s: seq<Block>, b: Block)
    ensures Reals(s + [b]) == Reals(s) + (if b.lba != DUMMY then [b] else [])
  {
    assert (s + [b])[..|s + [b]| - 1] == s;
  }

  lemma LbasMember(s: seq<Block>, b: Block)
    requires b in s
    ensures b.lba in Lbas(s)
  {
    var i :| 0 <= i < |s| && s[i] == b;
  }

  lemma DistinctCons(b: Block, s: seq<Block>)
    ensures Distinct([b] + s) <==> Distinct(s) && b.lba !in Lbas(s)
  {
    var t := [b] + s;
    if Distinct(t) {
      forall i, j | 0 <= i < j < |s| ensures s[i].lba != s[j].lba {
        assert t[i + 1].lba != t[j + 1].lba;
      }
      forall i | 0 <= i < |s| ensures s[i].lba != b.lba {
        assert t[0].lba != t[i + 1].lba;
      }
    }
  }

  lemma ConsMoves(b: Block, s: seq<Block>, t: seq<Block>, all: seq<Block>)
    requires multiset(s) + multiset(t) == multiset(all)
    ensures multiset([b] + s) + multiset(t) == multiset([b] + all)
  {
  }

  lemma {:induction false} PickConserves(g: Geometry, pos: seq<nat>, node: nat, stash: seq<Block>, room: nat)
    requires forall b | b in stash :: b.lba < |pos|
    ensures multiset(Pick(g, pos, node, stash, room).taken) + multiset(Pick(g, pos, node, stash, room).rest)
         == multiset(stash)
  {
    hide Ancestor, LeafNode;
    if stash != [] && room > 0 {
      assert stash == [stash[0]] + stash[1..];
      if Ancestor(node, LeafNode(g.l, pos[stash[0].lba])) {
        var p := Pick(g, pos, node, stash[1..], room - 1);
        PickConserves(g, pos, node, stash[1..], room - 1);
        ConsMoves(stash[0], p.taken, p.rest, stash[1..]);
      } else {
        var p := Pick(g, pos, node, stash[1..], room);
        PickConserves(g, pos, node, stash[1..], room);
        ConsMoves(stash[0], p.rest, p.taken, stash[1..]);
      }
    }
  }

  lemma {:induction false} PickTakesBelow(g: Geometry, pos: seq<nat>, node: nat, stash: seq<Block>, room: nat)
    requires forall b | b in stash :: b.lba < |pos|
    ensures forall b | b in Pick(g, pos, node, stash, room).taken ::
              b in stash && Ancestor(node, LeafNode(g.l, pos[b.lba]))
  {
    hide Ancestor, LeafNode;
    if stash != [] && room > 0 {
      if Ancestor(node, LeafNode(g.l, pos[stash[0].lba])) {
        PickTakesBelow(g, pos, node, stash[1..], room - 1);
      } else {
        PickTakesBelow(g, pos, node, stash[1..], room);
      }
    }
  }

  /** Eviction into a bucket only moves blocks: nothing is lost, duplicated or misplaced. */
  lemma PickSplits(g: Geometry, pos: seq<nat>, node: nat, stash: seq<Block>, room: nat)
    requires forall b | b in stash :: b.lba < |pos|
    ensures multiset(Pick(g, pos, node, stash, room).taken) + multiset(Pick(g, pos, node, stash, room).rest)
         == multiset(stash)
    ensures forall b | b in Pick(g, pos, node, stash, room).taken ::
              b in stash && Ancestor(node, LeafNode(g.l, pos[b.lba]))
  {
    hide Pick, Ancestor, LeafNode;
    PickConserves(g, pos, node, stash, room);
    PickTakesBelow(g, pos, node, stash, room);
  }

  lemma {:induction false} PickDistinct(g: Geometry, pos: seq<nat>, node: nat, stash: seq<Block>, room: nat)
    requires forall b | b in stash :: b.lba < |pos|
    requires Distinct(stash)
    ensures Distinct(Pick(g, pos, node, stash, room).taken)
    ensures Distinct(Pick(g, pos, node, stash, room).rest)
    ensures Lbas(Pick(g, pos, node, stash, room).taken) !! Lbas(Pick(g, pos, node, stash, room).rest)
    ensures Lbas(Pick(g, pos, node, stash, room).taken) + Lbas(Pick(g, pos, node, stash, room).rest)
         == Lbas(stash)
  {
    hide Ancestor, LeafNode;
    if stash != [] && room > 0 {
      assert stash == [stash[0]] + stash[1..];
      DistinctCons(stash[0], stash[1..]);
      LbasAppend([stash[0]], stash[1..]);
      if Ancestor(node, LeafNode(g.l, pos[stash[0].lba])) {
        var p := Pick(g, pos, node, stash[1..], room - 1);
        PickDistinct(g, pos, node, stash[1..], room - 1);
        DistinctCons(stash[0], p.taken);
        LbasAppend([stash[0]], p.taken);
      } else {
        var p := Pick(g, pos, node, stash[1..], room);
        PickDistinct(g, pos, node, stash[1..], room);
        DistinctCons(stash[0], p.rest);
        LbasAppend([stash[0]], p.rest);
      }
    }
  }

  /** Eviction is greedy: a block that could go into the bucket stays in the stash only when
      the bucket is full. */
  lemma {:induction false} PickGreedy(g: Geometry, pos: seq<nat>, node: nat, stash: seq<Block>, room: nat)
    requires forall b | b in stash :: b.lba < |pos|
    ensures forall b | b in Pick(g, pos, node, stash, room).rest ::
              b.lba < |pos| && Ancestor(node, LeafNode(g.l, pos[b.lba])) ==>
              |Pick(g, pos, node, stash, room).taken| == room
  {
    if stash != [] && room > 0 {
      if Ancestor(node, LeafNode(g.l, pos[stash[0].lba])) {
        PickGreedy(g, pos, node, stash[1..], room - 1);
      } else {
        PickGreedy(g, pos, node, stash[1..], room);
      }
    }
  }

  // ---- Every phase of an access keeps the invariant --------------------------------------

  /** Pigeonhole: distinct in-range addresses cannot outnumber the logical blocks. */
  lemma Pigeonhole(s: seq<Block>, n: nat)
    requires Distinct(s) && forall i | 0 <= i < |s| :: s[i].lba < n
    ensures |s| == |Lbas(s)| && |s| <= n
  {
    LbasCount(s);
    SubsetCount(Lbas(s), Range(n));
  }

  lemma {:induction false} LbasCount(s: seq<Block>)
    requires Distinct(s)
    ensures |Lbas(s)| == |s|
  {
    if s != [] {
      assert s == [s[0]] + s[1..];
      DistinctCons(s[0], s[1..]);
      LbasCount(s[1..]);
      assert Lbas(s) == {s[0].lba} + Lbas(s[1..]) by { LbasAppend([s[0]], s[1..]); }
    }
  }

  lemma GoodAppend(g: Geometry, s: seq<Block>, t: seq<Block>, contents: seq<Sector>)
    requires |contents| == g.Leaves() && Good(g, s, contents) && Good(g, t, contents)
    requires Lbas(s) !! Lbas(t)
    ensures Good(g, s + t, contents)
  {
    forall i, j | 0 <= i < |s| && 0 <= j < |t| ensures s[i].lba != t[j].lba {
      assert s[i].lba in Lbas(s) && t[j].lba in Lbas(t);
    }
  }

  lemma InvShape(g: Geometry, st: State, dead: set<nat>, contents: seq<Sector>)
    requires Inv(g, st, dead, contents)
    ensures Shaped(g, st) && |contents| == |st.pos| == g.Leaves() && |st.tree| == g.Nodes()
    ensures forall a | 0 <= a < |st.pos| :: st.pos[a] < g.Leaves()
  {
  }

  /** Reading one bucket moves its blocks to the stash and retires the bucket. */
  lemma LoadKeepsInv(g: Geometry, st: State, dead: set<nat>, contents: seq<Sector>, n: nat)
    requires Inv(g, st, dead, contents) && n < g.Nodes() && n !in dead
    ensures Inv(g, st.(stash := st.stash + Reals(st.tree[n])), dead + {n}, contents)
  {
    var r := Reals(st.tree[n]);
    var st' := st.(stash := st.stash + r);
    GoodAppend(g, st.stash, r, contents);
    LbasAppend(st.stash, r);
    forall a | 0 <= a < g.Leaves() && !Stored(st', dead + {n}, a) ensures contents[a] == Zero() {
      assert !Stored(st, dead, a);
    }
  }

  ghost function NodeSet(path: seq<nat>): set<nat> {
    set n | n in path
  }

  lemma NodeSetSnoc(path: seq<nat>, k: nat)
    requires k < |path|
    ensures NodeSet(path[..k + 1]) == NodeSet(path[..k]) + {path[k]}
  {
    assert path[..k + 1] == path[..k] + [path[k]];
  }

  lemma {:induction false} LoadPathKeepsInv(g: Geometry, st: State, contents: seq<Sector>, path: seq<nat>)
    requires Inv(g, st, {}, contents)
    requires forall i | 0 <= i < |path| :: path[i] < g.Nodes()
    requires forall i, j | 0 <= i < j < |path| :: path[i] != path[j]
    ensures Inv(g, st.(stash := st.stash + Load(st.tree, path)), NodeSet(path), contents)
  {
    hide Inv, Shaped, Reals;
    InvShape(g, st, {}, contents);
    if path == [] {
      assert st.stash + Load(st.tree, path) == st.stash;
      assert NodeSet(path) == {};
    } else {
      var k := |path| - 1;
      var front := path[..k];
      LoadPathKeepsInv(g, st, contents, front);
      var st' := st.(stash := st.stash + Load(st.tree, front));
      LoadKeepsInv(g, st', NodeSet(front), contents, path[k]);
      assert st'.stash + Reals(st.tree[path[k]]) == st.stash + Load(st.tree, path);
      NodeSetSnoc(path, k);
      assert path[..k + 1] == path;
    }
  }

  /** Once its whole path is loaded, a block can only be in the stash. */
  lemma NotInLiveTree(g: Geometry, st: State, dead: set<nat>, contents: seq<Sector>, lba: nat)
    requires Inv(g, st, dead, contents) && lba < g.Leaves()
    requires dead == NodeSet(Path(g.l, st.pos[lba]))
    ensures forall n | 0 <= n < |st.tree| && n !in dead :: lba !in Lbas(Reals(st.tree[n]))
  {
    forall n | 0 <= n < |st.tree| && n !in dead ensures lba !in Lbas(Reals(st.tree[n])) {
      if lba in Lbas(Reals(st.tree[n])) {
        var i :| 0 <= i < |Reals(st.tree[n])| && Reals(st.tree[n])[i].lba == lba;
        AncestorIffOnPath(g.l, st.pos[lba], n);
      }
    }
  }

  ghost function Apply(contents: seq<Sector>, op: Op): seq<Sector>
    requires op.lba < |contents|
  {
    if op.Write? then contents[op.lba := op.data] else contents
  }

  lemma LbasOverwrite(s: seq<Block>, i: nat, b: Block)
    requires i < |s| && s[i].lba == b.lba
    ensures Lbas(s[i := b]) == Lbas(s)
  {
    var t := s[i := b];
    assert forall k | 0 <= k < |s| :: t[k].lba == s[k].lba;
    forall x | x in Lbas(s) ensures x in Lbas(t) {
      var k :| 0 <= k < |s| && s[k].lba == x;
      assert t[k].lba == x;
    }
  }

  lemma FindIsMembership(stash: seq<Block>, lba: nat)
    ensures Find(stash, lba) < |stash| <==> lba in Lbas(stash)
  {
    if Find(stash, lba) < |stash| {
      assert stash[Find(stash, lba)].lba in Lbas(stash);
    }
  }

  lemma TouchLbas(stash: seq<Block>, op: Op)
    ensures Lbas(Touch(stash, op)) == Lbas(stash) + (if op.Write? then {op.lba} else {})
    ensures Find(stash, op.lba) < |stash| <==> op.lba in Lbas(stash)
  {
    hide Find, Lbas;
    FindIsMembership(stash, op.lba);
    if op.Write? {
      var b := Block(op.lba, op.data);
      if Find(stash, op.lba) < |stash| {
        LbasOverwrite(stash, Find(stash, op.lba), b);
      } else {
        LbasAppend(stash, [b]);
        LbasOne(b);
      }
    }
  }

  lemma LbasOne(b: Block)
    ensures Lbas([b]) == {b.lba}
  {
    assert [b][0].lba in Lbas([b]);
  }

  lemma TouchGood(g: Geometry, stash: seq<Block>, contents: seq<Sector>, op: Op)
    requires |contents| == g.Leaves() && op.lba < g.Leaves() && Good(g, stash, contents)
    ensures Good(g, Touch(stash, op), Apply(contents, op))
  {
  }

  /** A sequence without block `a` is indifferent to the contents and the position of `a`. */
  lemma GoodElsewhere(g: Geometry, s: seq<Block>, pos: seq<nat>, n: nat, contents: seq<Sector>, op: Op, leaf: nat)
    requires |contents| == |pos| == g.Leaves() && op.lba < g.Leaves() && op.lba !in Lbas(s)
    requires Good(g, s, contents) && OnItsPath(g, pos, n, s)
    ensures Good(g, s, Apply(contents, op)) && OnItsPath(g, pos[op.lba := leaf], n, s)
  {
    forall i | 0 <= i < |s| ensures s[i].lba != op.lba {
      assert s[i].lba in Lbas(s);
    }
  }

  /** Serving the request on the loaded stash updates exactly one logical block, and remapping
      that block disturbs no block still in the tree. */
  lemma TouchKeepsInv(g: Geometry, st: State, dead: set<nat>, contents: seq<Sector>, op: Op, leaf: nat)
    requires Inv(g, st, dead, contents) && op.lba < g.Leaves() && leaf < g.Leaves()
    requires dead == NodeSet(Path(g.l, st.pos[op.lba]))
    ensures Inv(g, State(st.pos[op.lba := leaf], Touch(st.stash, op), st.tree), dead, Apply(contents, op))
    ensures Answer(st.stash, op) == Apply(contents, op)[op.lba]
  {
    hide Touch, Reals, Lbas, NodeSet, Path, Ancestor, LeafNode, OnItsPath, Zero;
    var a := op.lba;
    var st' := State(st.pos[a := leaf], Touch(st.stash, op), st.tree);
    var contents' := Apply(contents, op);
    NotInLiveTree(g, st, dead, contents, a);
    TouchLbas(st.stash, op);
    TouchGood(g, st.stash, contents, op);
    assert TreeGood(g, st', dead, contents') by {
      forall n | 0 <= n < |st.tree| && n !in dead
        ensures Good(g, Reals(st.tree[n]), contents') && OnItsPath(g, st'.pos, n, Reals(st.tree[n]))
      {
        GoodElsewhere(g, Reals(st.tree[n]), st.pos, n, contents, op, leaf);
      }
    }
    assert a !in Lbas(st.stash) ==> !Stored(st, dead, a);
    forall b | 0 <= b < g.Leaves() && !Stored(st', dead, b) ensures contents'[b] == Zero() {
      assert !Stored(st, dead, b);
    }
  }

  lemma PickGood(g: Geometry, st: State, n: nat, contents: seq<Sector>)
    requires g.Valid() && Shaped(g, st) && |contents| == g.Leaves() && Good(g, st.stash, contents)
    ensures var p := Pick(g, st.pos, n, st.stash, g.z);
            Good(g, p.taken, contents) && Good(g, p.rest, contents) && OnItsPath(g, st.pos, n, p.taken)
  {
    var p := Pick(g, st.pos, n, st.stash, g.z);
    PickSplits(g, st.pos, n, st.stash, g.z);
    PickDistinct(g, st.pos, n, st.stash, g.z);
    forall i | 0 <= i < |p.rest| ensures p.rest[i] in st.stash {
      assert p.rest[i] in p.rest;
    }
    forall i | 0 <= i < |p.taken| ensures p.taken[i] in st.stash {
      assert p.taken[i] in p.taken;
    }
  }

  /** Refilling one retired bucket of the path keeps the invariant and brings it back. */
  lemma EvictKeepsInv(g: Geometry, st: State, dead: set<nat>, contents: seq<Sector>, n: nat)
    requires Inv(g, st, dead, contents) && n < g.Nodes() && n in dead
    ensures Inv(g, EvictBucket(g, st, n), dead - {n}, contents)
  {
    hide Pick, Reals, Lbas, OnItsPath, Zero;
    var st' := EvictBucket(g, st, n);
    var p := Pick(g, st.pos, n, st.stash, g.z);
    PickGood(g, st, n, contents);
    PickDistinct(g, st.pos, n, st.stash, g.z);
    RealsOfFilled(p.taken, g.z - |p.taken|);
    assert st'.stash == p.rest && Reals(st'.tree[n]) == p.taken;
    assert forall m | 0 <= m < |st.tree| && m != n :: st'.tree[m] == st.tree[m];
    forall a | 0 <= a < g.Leaves() && !Stored(st', dead - {n}, a) ensures contents[a] == Zero() {
      assert a !in Lbas(st.stash);
      assert !Stored(st, dead, a);
    }
  }

  lemma {:induction false} EvictPathKeepsInv(g: Geometry, st: State, contents: seq<Sector>, path: seq<nat>, k: nat)
    requires k <= |path| && forall i | 0 <= i < |path| :: path[i] < g.Nodes()
    requires forall i, j | 0 <= i < j < |path| :: path[i] != path[j]
    requires Inv(g, st, NodeSet(path[..k]), contents)
    ensures Inv(g, Evict(g, st, path, k), {}, contents)
    decreases k
  {
    hide Inv, EvictBucket, Shaped;
    InvShape(g, st, NodeSet(path[..k]), contents);
    if k == 0 {
      assert NodeSet(path[..k]) == {};
    } else {
      NodeSetSnoc(path, k - 1);
      EvictKeepsInv(g, st, NodeSet(path[..k]), contents, path[k - 1]);
      assert NodeSet(path[..k]) - {path[k - 1]} == NodeSet(path[..k - 1]);
      EvictPathKeepsInv(g, EvictBucket(g, st, path[k - 1]), contents, path, k - 1);
    }
  }

  // ---- Main results ----------------------------------------------------------------------

  /** What the loaded stash holds: only in-range blocks, each once, so it never outgrows the
      number of logical blocks, also when the request has to add one. */
  lemma StashFits(g: Geometry, st: State, contents: seq<Sector>, op: Op)
    requires Inv(g, st, {}, contents) && op.lba < g.Leaves()
    ensures forall b | b in Loaded(g, st, op.lba) :: b.lba < g.Leaves()
    ensures |Loaded(g, st, op.lba)| <= g.Leaves()
    ensures |Touch(Loaded(g, st, op.lba), op)| <= g.Leaves()
  {
    var path := Path(g.l, st.pos[op.lba]);
    var loaded := Loaded(g, st, op.lba);
    PathShape(g.l, st.pos[op.lba]);
    LoadPathKeepsInv(g, st, contents, path);
    TouchKeepsInv(g, st.(stash := loaded), NodeSet(path), contents, op, 0);
    Pigeonhole(loaded, g.Leaves());
    Pigeonhole(Touch(loaded, op), g.Leaves());
  }

  /** One access keeps the invariant, updates the abstract array and answers from it. */
  lemma AccessRefines(g: Geometry, st: State, contents: seq<Sector>, op: Op, leaf: nat)
    requires Inv(g, st, {}, contents) && op.lba < g.Leaves() && leaf < g.Leaves()
    ensures forall b | b in Loaded(g, st, op.lba) :: b.lba < g.Leaves()
    ensures Inv(g, Access(g, st, op, leaf).0, {}, Apply(contents, op))
    ensures Access(g, st, op, leaf).1 == Apply(contents, op)[op.lba]
  {
    hide Inv, Touch, Answer, Load, Shaped, Find;
    InvShape(g, st, {}, contents);
    StashFits(g, st, contents, op);
    var path := TreePath(g, st.pos[op.lba]);
    PathShape(g.l, st.pos[op.lba]);
    LoadPathKeepsInv(g, st, contents, path);
    var loaded := Loaded(g, st, op.lba);
    TouchKeepsInv(g, st.(stash := loaded), NodeSet(path), contents, op, leaf);
    var st' := State(st.pos[op.lba := leaf], Touch(loaded, op), st.tree);
    assert path[..g.l + 1] == path;
    EvictPathKeepsInv(g, st', Apply(contents, op), path, g.l + 1);
  }

  /** A freshly formatted store: random positions, an empty stash and only dummies. */
  ghost function Formatted(g: Geometry, leaves: seq<nat>): State {
    State(leaves, [], seq(g.Nodes(), _ => Dummies(g.z)))
  }

  ghost function Blank(n: nat): (c: seq<Sector>)
    ensures |c| == n && forall a | 0 <= a < n :: c[a] == Zero()
  {
    if n == 0 then [] else Blank(n - 1) + [Zero()]
  }

  lemma FormatEstablishesInv(g: Geometry, leaves: seq<nat>)
    requires g.Valid() && |leaves| == g.Leaves() && forall a | 0 <= a < |leaves| :: leaves[a] < g.Leaves()
    ensures Inv(g, Formatted(g, leaves), {}, Blank(g.Leaves()))
  {
    RealsOfFilled([], g.z);
    assert [] + Dummies(g.z) == Dummies(g.z);
  }

  /** A request together with the random leaf drawn while serving it. */
  datatype Request = Request(op: Op, leaf: nat)

  ghost predicate InRange(g: Geometry, reqs: seq<Request>) {
    forall k | 0 <= k < |reqs| :: reqs[k].op.lba < g.Leaves() && reqs[k].leaf < g.Leaves()
  }

  /** The state reached by serving `reqs` in order. */
  ghost function RunState(g: Geometry, st: State, contents: seq<Sector>, reqs: seq<Request>): (r: State)
    requires Inv(g, st, {}, contents) && InRange(g, reqs)
    ensures Inv(g, r, {}, RunArray(contents, reqs))
    decreases reqs
  {
    if reqs == [] then st
    else
      AccessRefines(g, st, contents, reqs[0].op, reqs[0].leaf);
      RunState(g, Access(g, st, reqs[0].op, reqs[0].leaf).0, Apply(contents, reqs[0].op), reqs[1..])
  }

  /** The answers given along the way. */
  ghost function RunAnswers(g: Geometry, st: State, contents: seq<Sector>, reqs: seq<Request>): (r: seq<Sector>)
    requires Inv(g, st, {}, contents) && InRange(g, reqs)
    ensures |r| == |reqs|
    decreases reqs
  {
    if reqs == [] then []
    else
      AccessRefines(g, st, contents, reqs[0].op, reqs[0].leaf);
      [Access(g, st, reqs[0].op, reqs[0].leaf).1]
      + RunAnswers(g, Access(g, st, reqs[0].op, reqs[0].leaf).0, Apply(contents, reqs[0].op), reqs[1..])
  }

  /** The plain array after the same requests. */
  ghost function RunArray(contents: seq<Sector>, reqs: seq<Request>): (r: seq<Sector>)
    requires forall k | 0 <= k < |reqs| :: reqs[k].op.lba < |contents|
    ensures |r| == |contents|
    decreases reqs
  {
    if reqs == [] then contents else RunArray(Apply(contents, reqs[0].op), reqs[1..])
  }

  /** The data most recently written to `lba` before request `k`, or the initial data. */
  ghost function LastWritten(contents: seq<Sector>, reqs: seq<Request>, k: nat, lba: nat): Sector
    requires k <= |reqs| && lba < |contents|
    decreases k
  {
    if k == 0 then contents[lba]
    else if reqs[k - 1].op.Write? && reqs[k - 1].op.lba == lba then reqs[k - 1].op.data
    else LastWritten(contents, reqs, k - 1, lba)
  }

  lemma {:induction false} LastWrittenShift(contents: seq<Sector>, reqs: seq<Request>, k: nat, lba: nat)
    requires 0 < k <= |reqs| && lba < |contents| && reqs[0].op.lba < |contents|
    ensures LastWritten(contents, reqs, k, lba) == LastWritten(Apply(contents, reqs[0].op), reqs[1..], k - 1, lba)
    decreases k
  {
    if k > 1 {
      LastWrittenShift(contents, reqs, k - 1, lba);
      assert reqs[k - 1] == reqs[1..][k - 2];
    } else {
      assert LastWritten(contents, reqs, 0, lba) == contents[lba];
    }
  }

  lemma {:induction false} RunReadsLastWritten(g: Geometry, st: State, contents: seq<Sector>, reqs: seq<Request>, k: nat)
    requires Inv(g, st, {}, contents) && InRange(g, reqs) && k < |reqs| && reqs[k].op.Read?
    requires |contents| == g.Leaves()
    ensures RunAnswers(g, st, contents, reqs)[k] == LastWritten(contents, reqs, k, reqs[k].op.lba)
    decreases k
  {
    hide Inv, Access, Shaped;
    InvShape(g, st, {}, contents);
    AccessRefines(g, st, contents, reqs[0].op, reqs[0].leaf);
    if k > 0 {
      RunReadsLastWritten(g, Access(g, st, reqs[0].op, reqs[0].leaf).0, Apply(contents, reqs[0].op), reqs[1..], k - 1);
      LastWrittenShift(contents, reqs, k, reqs[k].op.lba);
    }
  }

  /** PathORAM refines an array: whatever the random positions, after formatting, every read in
      every run returns the data last written to that block, or zeros if there was none. */
  lemma OramIsAnArray(g: Geometry, leaves: seq<nat>, reqs: seq<Request>, k: nat)
    requires g.Valid() && |leaves| == g.Leaves() && forall a | 0 <= a < |leaves| :: leaves[a] < g.Leaves()
    requires InRange(g, reqs) && k < |reqs| && reqs[k].op.Read?
    ensures Inv(g, Formatted(g, leaves), {}, Blank(g.Leaves()))
    ensures RunAnswers(g, Formatted(g, leaves), Blank(g.Leaves()), reqs)[k]
         == LastWritten(Blank(g.Leaves()), reqs, k, reqs[k].op.lba)
  {
    hide Inv;
    FormatEstablishesInv(g, leaves);
    RunReadsLastWritten(g, Formatted(g, leaves), Blank(g.Leaves()), reqs, k);
  }

  // ---- What the invariant says about raw slots -------------------------------------------

  lemma {:induction false} RealsHas(bucket: seq<Block>, j: nat)
    requires j < |bucket| && bucket[j].lba != DUMMY
    ensures bucket[j] in Reals(bucket)
  {
    if j < |bucket| - 1 {
      RealsHas(bucket[..|bucket| - 1], j);
    }
  }

  lemma {:induction false} RealsDistinct(bucket: seq<Block>, i: nat, j: nat)
    requires Distinct(Reals(bucket)) && i < j < |bucket|
    requires bucket[i].lba != DUMMY && bucket[j].lba != DUMMY
    ensures bucket[i].lba != bucket[j].lba
  {
    var k := |bucket| - 1;
    var front := Reals(bucket[..k]);
    if j < k {
      assert forall x, y | 0 <= x < y < |front| :: Reals(bucket)[x] == front[x] && Reals(bucket)[y] == front[y];
      RealsDistinct(bucket[..k], i, j);
    } else {
      RealsHas(bucket[..k], i);
      var x :| 0 <= x < |front| && front[x] == bucket[i];
      assert Reals(bucket)[x] == front[x] && Reals(bucket)[|front|] == bucket[j];
    }
  }

  lemma SlotOnItsPath(g: Geometry, st: State, contents: seq<Sector>, n: nat, i: nat)
    requires Inv(g, st, {}, contents) && n < g.Nodes() && i < g.z && st.tree[n][i].lba != DUMMY
    ensures st.tree[n][i].lba in Lbas(Reals(st.tree[n]))
    ensures st.tree[n][i].lba < g.Leaves() && n in Path(g.l, st.pos[st.tree[n][i].lba])
  {
    hide Reals, Lbas, Complete, Path, Ancestor, LeafNode, Apart, Distinct;
    var b := st.tree[n][i];
    var r := Reals(st.tree[n]);
    RealsHas(st.tree[n], i);
    LbasMember(r, b);
    var x :| 0 <= x < |r| && r[x] == b;
    AncestorIffOnPath(g.l, st.pos[b.lba], n);
  }

  lemma SlotsDiffer(g: Geometry, st: State, contents: seq<Sector>, n: nat, i: nat, m: nat, j: nat)
    requires Inv(g, st, {}, contents) && n < g.Nodes() && i < g.z && st.tree[n][i].lba != DUMMY
    requires m < g.Nodes() && j < g.z && (m, j) != (n, i)
    ensures st.tree[m][j].lba != st.tree[n][i].lba
  {
    hide Reals, Lbas, Complete, Path, Ancestor, LeafNode, Distinct;
    if st.tree[m][j].lba == st.tree[n][i].lba {
      if m == n {
        assert Good(g, Reals(st.tree[n]), contents);
        if i < j { RealsDistinct(st.tree[n], i, j); } else { RealsDistinct(st.tree[n], j, i); }
      } else {
        SlotOnItsPath(g, st, contents, n, i);
        SlotOnItsPath(g, st, contents, m, j);
      }
    }
  }

  /** At rest, each logical block occupies at most one slot of stash and tree together, and
      every slot of the tree that holds a block lies on the path of that block's leaf. */
  lemma OneCopyOnItsPath(g: Geometry, st: State, contents: seq<Sector>, n: nat, i: nat)
    requires Inv(g, st, {}, contents) && n < g.Nodes() && i < g.z && st.tree[n][i].lba != DUMMY
    ensures st.tree[n][i].lba < g.Leaves() && n in Path(g.l, st.pos[st.tree[n][i].lba])
    ensures st.tree[n][i].lba !in Lbas(st.stash)
    ensures forall m, j | 0 <= m < g.Nodes() && 0 <= j < g.z && (m, j) != (n, i) ::
              st.tree[m][j].lba != st.tree[n][i].lba
  {
    hide Reals, Lbas, Complete, Path, Good, TreeGood;
    SlotOnItsPath(g, st, contents, n, i);
    assert Lbas(st.stash) !! Lbas(Reals(st.tree[n]));
    forall m, j | 0 <= m < g.Nodes() && 0 <= j < g.z && (m, j) != (n, i)
      ensures st.tree[m][j].lba != st.tree[n][i].lba
    {
      SlotsDiffer(g, st, contents, n, i, m, j);
    }
  }

  lemma EvictBucketGreedy(g: Geometry, st: State, node: nat)
    requires g.Valid() && Shaped(g, st) && node < g.Nodes()
    ensures forall n | 0 <= n < g.Nodes() && n != node :: EvictBucket(g, st, node).tree[n] == st.tree[n]
    ensures EvictBucket(g, st, node).pos == st.pos
    ensures forall b | b in EvictBucket(g, st, node).stash :: b in st.stash && b.lba < |st.pos|
    ensures forall b | b in EvictBucket(g, st, node).stash ::
              Ancestor(node, LeafNode(g.l, st.pos[b.lba])) ==>
              |Reals(EvictBucket(g, st, node).tree[node])| == g.z
  {
    hide Reals, Ancestor, LeafNode, Dummies;
    var p := Pick(g, st.pos, node, st.stash, g.z);
    PickSplits(g, st.pos, node, st.stash, g.z);
    PickGreedy(g, st.pos, node, st.stash, g.z);
    RealsOfFilled(p.taken, g.z - |p.taken|);
  }

  /** Eviction rewrites only the path, leaves the rest of the tree alone, adds nothing to the
      stash, and is greedy: a block stays behind only if every bucket it could use is full. */
  lemma {:induction false} EvictGreedy(g: Geometry, st: State, path: seq<nat>, k: nat)
    requires g.Valid() && Shaped(g, st) && k <= |path| && forall i | 0 <= i < |path| :: path[i] < g.Nodes()
    requires forall i, j | 0 <= i < j < |path| :: path[i] != path[j]
    ensures forall n | 0 <= n < g.Nodes() && n !in path[..k] :: Evict(g, st, path, k).tree[n] == st.tree[n]
    ensures forall b | b in Evict(g, st, path, k).stash :: b in st.stash && b.lba < |st.pos|
    ensures forall i, b | 0 <= i < k && b in Evict(g, st, path, k).stash ::
              Ancestor(path[i], LeafNode(g.l, st.pos[b.lba])) ==>
              |Reals(Evict(g, st, path, k).tree[path[i]])| == g.z
    decreases k
  {
    hide EvictBucket, Reals, Ancestor, LeafNode;
    if k > 0 {
      var node := path[k - 1];
      EvictBucketGreedy(g, st, node);
      EvictGreedy(g, EvictBucket(g, st, node), path, k - 1);
      assert path[..k] == path[..k - 1] + [node];
      assert node !in path[..k - 1];
    }
  }
}
