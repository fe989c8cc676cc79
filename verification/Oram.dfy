/** The PathORAM block store as the kernel keeps it: position map and stash in RAM buffers, the
    tree on disk as whole (address, data) records. Each method is proved against OramSpec. */
module Oram {
  import opened OramTree
  import opened OramSpec

  /** One sector transfer, as an observer of the disk sees it. */
  datatype Io = ReadAt(node: nat, slot: nat) | WriteAt(node: nat, slot: nat)

  function BucketReads(node: nat, z: nat): seq<Io> {
    seq(z, j requires 0 <= j < z => ReadAt(node, j))
  }

  function BucketWrites(node: nat, z: nat): seq<Io> {
    seq(z, j requires 0 <= j < z => WriteAt(node, j))
  }

  /** Reads of whole buckets, root first. */
  function PathReads(path: seq<nat>, z: nat): seq<Io> {
    if path == [] then [] else PathReads(path[..|path| - 1], z) + BucketReads(path[|path| - 1], z)
  }

  lemma LoadNothing(disk: seq<seq<Block>>, z: nat)
    ensures Load(disk, []) == [] && PathReads([], z) == []
  {
  }

  lemma LoadOneMore(disk: seq<seq<Block>>, p: seq<nat>, i: nat, z: nat)
    requires i < |p| && forall k | 0 <= k < |p| :: p[k] < |disk|
    ensures Load(disk, p[..i + 1]) == Load(disk, p[..i]) + Reals(disk[p[i]])
    ensures PathReads(p[..i + 1], z) == PathReads(p[..i], z) + BucketReads(p[i], z)
  {
    hide Reals, BucketReads;
    assert p[..i + 1][..i] == p[..i];
  }

  /** Writes of whole buckets, leaf first. */
  function PathWrites(path: seq<nat>, k: nat, z: nat): seq<Io>
    requires k <= |path|
    decreases k
  {
    if k == 0 then [] else BucketWrites(path[k - 1], z) + PathWrites(path, k - 1, z)
  }

  /** Everything the disk sees of one access: a function of the old leaf alone. */
  function AccessPattern(g: Geometry, leaf: nat): seq<Io> {
    PathReads(Path(g.l, leaf), g.z) + PathWrites(Path(g.l, leaf), g.l + 1, g.z)
  }

  /** The leaf drawn at the last access to `lba` before request `k`, or its first position. */
  function LastLeaf(pos: seq<nat>, reqs: seq<Request>, k: nat, lba: nat): nat
    requires k <= |reqs| && lba < |pos|
    decreases k
  {
    if k == 0 then pos[lba]
    else if reqs[k - 1].op.lba == lba then reqs[k - 1].leaf
    else LastLeaf(pos, reqs, k - 1, lba)
  }

  /** The contents and the position map after `k` requests. */
  ghost predicate AsWritten(c: seq<Sector>, first: seq<Sector>, reqs: seq<Request>, k: nat) {
    |c| == |first| && k <= |reqs| && forall a | 0 <= a < |c| :: c[a] == LastWritten(first, reqs, k, a)
  }

  ghost predicate AsDrawn(pos: seq<nat>, start: seq<nat>, reqs: seq<Request>, k: nat) {
    |pos| == |start| && k <= |reqs| && forall a | 0 <= a < |pos| :: pos[a] == LastLeaf(start, reqs, k, a)
  }

  lemma NoneServed(c: seq<Sector>, pos: seq<nat>, reqs: seq<Request>)
    ensures AsWritten(c, c, reqs, 0) && AsDrawn(pos, pos, reqs, 0)
  {
  }

  lemma OneMoreWritten(c: seq<Sector>, first: seq<Sector>, reqs: seq<Request>, k: nat)
    requires AsWritten(c, first, reqs, k) && k < |reqs| && reqs[k].op.lba < |c|
    ensures |c| == |first| && c[reqs[k].op.lba] == LastWritten(first, reqs, k, reqs[k].op.lba)
    ensures AsWritten(if reqs[k].op.Write? then c[reqs[k].op.lba := reqs[k].op.data] else c, first, reqs, k + 1)
  {
    var q := reqs[k];
    var c' := if q.op.Write? then c[q.op.lba := q.op.data] else c;
    forall a | 0 <= a < |c| ensures c'[a] == LastWritten(first, reqs, k + 1, a) {
      assert c[a] == LastWritten(first, reqs, k, a);
    }
  }

  lemma OneMoreDrawn(pos: seq<nat>, start: seq<nat>, reqs: seq<Request>, k: nat)
    requires AsDrawn(pos, start, reqs, k) && k < |reqs| && reqs[k].op.lba < |pos|
    ensures |pos| == |start| && pos[reqs[k].op.lba] == LastLeaf(start, reqs, k, reqs[k].op.lba)
    ensures AsDrawn(pos[reqs[k].op.lba := reqs[k].leaf], start, reqs, k + 1)
  {
    var pos' := pos[reqs[k].op.lba := reqs[k].leaf];
    forall a | 0 <= a < |pos| ensures pos'[a] == LastLeaf(start, reqs, k + 1, a) {
      assert pos[a] == LastLeaf(start, reqs, k, a);
    }
  }

  /** The disk traffic of the first `k` requests: access by access, the path of the leaf drawn at the
      last access to its block. Data and the kind of access do not enter. */
  ghost function Trace(g: Geometry, pos: seq<nat>, reqs: seq<Request>, k: nat): seq<Io>
    requires k <= |reqs| && forall i | 0 <= i < |reqs| :: reqs[i].op.lba < |pos|
    decreases k
  {
    if k == 0 then [] else Trace(g, pos, reqs, k - 1) + AccessPattern(g, LastLeaf(pos, reqs, k - 1, reqs[k - 1].op.lba))
  }

  lemma TraceStart(g: Geometry, pos: seq<nat>, reqs: seq<Request>)
    requires forall i | 0 <= i < |reqs| :: reqs[i].op.lba < |pos|
    ensures Trace(g, pos, reqs, 0) == []
  {
  }

  lemma TraceStep(g: Geometry, pos: seq<nat>, reqs: seq<Request>, k: nat)
    requires k < |reqs| && forall i | 0 <= i < |reqs| :: reqs[i].op.lba < |pos|
    ensures Trace(g, pos, reqs, k + 1) == Trace(g, pos, reqs, k) + AccessPattern(g, LastLeaf(pos, reqs, k, reqs[k].op.lba))
  {
  }

  /** Runs whose requests hit the same blocks and draw the same leaves look the same on disk. */
  lemma {:induction false} TraceHidesData(g: Geometry, pos: seq<nat>, reqs: seq<Request>, other: seq<Request>, k: nat)
    requires k <= |reqs| == |other| && forall i | 0 <= i < |reqs| :: reqs[i].op.lba < |pos|
    requires forall i | 0 <= i < |reqs| :: reqs[i].op.lba == other[i].op.lba && reqs[i].leaf == other[i].leaf
    ensures Trace(g, pos, reqs, k) == Trace(g, pos, other, k)
    decreases k
  {
    hide AccessPattern;
    if k > 0 {
      TraceHidesData(g, pos, reqs, other, k - 1);
      SameLeaf(pos, reqs, other, k - 1, reqs[k - 1].op.lba);
    }
  }

  lemma {:induction false} SameLeaf(pos: seq<nat>, reqs: seq<Request>, other: seq<Request>, k: nat, lba: nat)
    requires k <= |reqs| == |other| && lba < |pos|
    requires forall i | 0 <= i < |reqs| :: reqs[i].op.lba == other[i].op.lba && reqs[i].leaf == other[i].leaf
    ensures LastLeaf(pos, reqs, k, lba) == LastLeaf(pos, other, k, lba)
    decreases k
  {
    if k > 0 {
      SameLeaf(pos, reqs, other, k - 1, lba);
    }
  }

  lemma {:induction false} RealsPrefix(bucket: seq<Block>, j: nat)
    requires j <= |bucket|
    ensures |Reals(bucket[..j])| <= |Reals(bucket)|
    decreases |bucket|
  {
    if j < |bucket| {
      RealsPrefix(bucket[..|bucket| - 1], j);
      assert bucket[..|bucket| - 1][..j] == bucket[..j];
    } else {
      assert bucket[..j] == bucket;
    }
  }

  lemma {:induction false} LoadPrefix(tree: seq<seq<Block>>, path: seq<nat>, k: nat)
    requires k <= |path| && forall i | 0 <= i < |path| :: path[i] < |tree|
    ensures |Load(tree, path[..k])| <= |Load(tree, path)|
    decreases |path|
  {
    if k < |path| {
      LoadPrefix(tree, path[..|path| - 1], k);
      assert path[..|path| - 1][..k] == path[..k];
    } else {
      assert path[..k] == path;
    }
  }

  /** The eviction scan stands at index `s` with `done` already moved and `room` slots left. */
  ghost predicate Filling(g: Geometry, pos: seq<nat>, node: nat, goal: Picked,
                          stash: seq<Block>, s: nat, done: seq<Block>, room: nat)
  {
    && s <= |stash| && (forall b | b in stash :: b.lba < |pos|)
    && goal.taken == done + Pick(g, pos, node, stash[s..], room).taken
    && goal.rest == stash[..s] + Pick(g, pos, node, stash[s..], room).rest
  }

  lemma FillStep(g: Geometry, pos: seq<nat>, node: nat, goal: Picked,
                 stash: seq<Block>, s: nat, done: seq<Block>, room: nat)
    requires Filling(g, pos, node, goal, stash, s, done, room) && s < |stash| && room > 0
    ensures stash[s].lba < |pos|
    ensures if Ancestor(node, LeafNode(g.l, pos[stash[s].lba]))
            then Filling(g, pos, node, goal, stash[..s] + stash[s + 1..], s, done + [stash[s]], room - 1)
            else Filling(g, pos, node, goal, stash, s + 1, done, room)
  {
    hide Ancestor, LeafNode;
    assert stash[s] in stash;
    assert stash[s..][0] == stash[s] && stash[s..][1..] == stash[s + 1..];
    var next := stash[..s] + stash[s + 1..];
    assert next[s..] == stash[s + 1..] && next[..s] == stash[..s];
    assert stash[..s + 1] == stash[..s] + [stash[s]];
  }

  lemma FillStart(g: Geometry, pos: seq<nat>, node: nat, stash: seq<Block>, room: nat)
    requires forall b | b in stash :: b.lba < |pos|
    ensures Filling(g, pos, node, Pick(g, pos, node, stash, room), stash, 0, [], room)
  {
    assert stash[0..] == stash;
  }

  lemma FillDone(g: Geometry, pos: seq<nat>, node: nat, goal: Picked,
                 stash: seq<Block>, s: nat, done: seq<Block>, room: nat)
    requires Filling(g, pos, node, goal, stash, s, done, room) && (s == |stash| || room == 0)
    ensures goal == Picked(done, stash)
  {
    assert stash[..s] + stash[s..] == stash;
  }

  lemma TouchedShape(g: Geometry, st: State, op: Op, leaf: nat)
    requires Shaped(g, st) && op.lba < g.Leaves() && leaf < g.Leaves()
    requires forall b | b in Loaded(g, st, op.lba) :: b.lba < g.Leaves()
    ensures Shaped(g, State(st.pos[op.lba := leaf], Touch(Loaded(g, st, op.lba), op), st.tree))
  {
  }

  /** Where entry `i` comes from when the entries from `s` up to `k` have moved down by one. */
  function Origin(s: nat, k: nat, i: nat): nat { if s <= i < k then i + 1 else i }

  ghost predicate Shifted(was: seq<Block>, now: seq<Block>, s: nat, k: nat) {
    |now| == |was| && k < |was| && forall i :: 0 <= i < |was| ==> now[i] == was[Origin(s, k, i)]
  }

  lemma ShiftedOn(was: seq<Block>, now: seq<Block>, next: seq<Block>, s: nat, k: nat)
    requires s <= k && k + 1 < |was| && Shifted(was, now, s, k) && next == now[k := now[k + 1]]
    ensures Shifted(was, next, s, k + 1)
  {
    forall i | 0 <= i < |was|
      ensures next[i] == was[Origin(s, k + 1, i)]
    {
      assert now[i] == was[Origin(s, k, i)] && now[k + 1] == was[Origin(s, k, k + 1)];
    }
  }

  lemma GapClosed(was: seq<Block>, now: seq<Block>, s: nat, n: nat)
    requires s < n <= |was| && Shifted(was, now, s, n - 1)
    ensures now[..n - 1] == was[..n][..s] + was[..n][s + 1..]
  {
    var want := was[..n][..s] + was[..n][s + 1..];
    forall i | 0 <= i < n - 1
      ensures now[..n - 1][i] == want[i]
    {
      assert now[i] == was[Origin(s, n - 1, i)];
    }
  }

  class Store {
    const g: Geometry
    const posMap: array<nat>
    const stash: array<Block>
    var stashCount: nat
    var disk: seq<seq<Block>>
    var savedPos: seq<nat>
    ghost var log: seq<Io>
    ghost var contents: seq<Sector>

    /** The buffers have their sizes and the disk has its geometry. */
    ghost predicate Sized()
      reads this
    {
      && g.Valid()
      && posMap.Length == stash.Length == g.Leaves()
      && stashCount <= stash.Length
      && |disk| == g.Nodes()
      && forall n | 0 <= n < |disk| :: |disk[n]| == g.z
    }

    ghost function Stash(): seq<Block>
      requires stashCount <= stash.Length
      reads this, stash
    {
      stash[..stashCount]
    }

    ghost function View(): State
      requires stashCount <= stash.Length
      reads this, posMap, stash
    {
      State(posMap[..], Stash(), disk)
    }

    ghost predicate Valid()
      reads this, posMap, stash
    {
      Sized() && savedPos == posMap[..] && Inv(g, View(), {}, contents)
    }

    /** First boot: every slot is overwritten with a dummy and positions are drawn at random. */
    constructor Format(g: Geometry, region: seq<seq<Block>>, leaves: seq<nat>)
      requires g.Valid()
      requires |region| == g.Nodes() && forall n | 0 <= n < |region| :: |region[n]| == g.z
      requires |leaves| == g.Leaves() && forall a | 0 <= a < |leaves| :: leaves[a] < g.Leaves()
      ensures Valid() && this.g == g && fresh(posMap) && fresh(stash)
      ensures View() == Formatted(g, leaves)
      ensures contents == Blank(g.Leaves())
    {
      var d := region;
      var dummy := Block(DUMMY, Zero());
      for n := 0 to g.Nodes()
        invariant |d| == g.Nodes()
        invariant forall m | 0 <= m < n :: d[m] == Dummies(g.z)
        invariant forall m | n <= m < |d| :: |d[m]| == g.z
      {
        for j := 0 to g.z
          invariant |d| == g.Nodes()
          invariant forall m | 0 <= m < n :: d[m] == Dummies(g.z)
          invariant forall m | n <= m < |d| :: |d[m]| == g.z
          invariant forall i | 0 <= i < j :: d[n][i] == dummy
        {
          d := d[n := d[n][j := dummy]];
        }
        assert d[n] == Dummies(g.z);
      }
      var pos := new nat[g.Leaves()];
      for i := 0 to g.Leaves()
        invariant pos[..i] == leaves[..i]
      {
        pos[i] := leaves[i];
      }
      this.g := g;
      posMap := pos;
      stash := new Block[g.Leaves()](_ => dummy);
      stashCount := 0;
      disk := d;
      savedPos := leaves;
      log := [];
      contents := Blank(g.Leaves());
      new;
      FormatEstablishesInv(g, leaves);
      assert posMap[..] == leaves;
      assert disk == Formatted(g, leaves).tree;
    }

    method ReadBlock(node: nat, slot: nat) returns (b: Block)
      requires Sized() && node < g.Nodes() && slot < g.z
      modifies this`log
      ensures b == disk[node][slot]
      ensures log == old(log) + [ReadAt(node, slot)]
    {
      b := disk[node][slot];
      log := log + [ReadAt(node, slot)];
    }

    method WriteBlock(node: nat, slot: nat, b: Block)
      requires Sized() && node < g.Nodes() && slot < g.z
      modifies this`disk, this`log
      ensures Sized()
      ensures disk == old(disk)[node := old(disk)[node][slot := b]]
      ensures log == old(log) + [WriteAt(node, slot)]
    {
      disk := disk[node := disk[node][slot := b]];
      log := log + [WriteAt(node, slot)];
    }

    method Push(b: Block)
      requires Sized() && stashCount < stash.Length
      modifies this`stashCount, stash
      ensures Sized() && Stash() == old(Stash()) + [b]
    {
      stash[stashCount] := b;
      stashCount := stashCount + 1;
    }

    /** Appends the real blocks of one bucket to the stash; fails exactly when they do not fit. */
    method LoadBucket(node: nat) returns (ok: bool)
      requires Sized() && node < g.Nodes()
      modifies this`stashCount, this`log, stash
      ensures Sized()
      ensures ok <==> |old(Stash())| + |Reals(disk[node])| <= stash.Length
      ensures ok ==> Stash() == old(Stash()) + Reals(disk[node])
      ensures ok ==> log == old(log) + BucketReads(node, g.z)
    {
      hide Reals, Zero;
      ghost var bucket := disk[node];
      RealsOfReal([]);
      for j := 0 to g.z
        invariant Sized()
        invariant Stash() == old(Stash()) + Reals(bucket[..j])
        invariant log == old(log) + BucketReads(node, j)
      {
        RealsSnoc(bucket[..j], bucket[j]);
        assert bucket[..j + 1] == bucket[..j] + [bucket[j]];
        var b := ReadBlock(node, j);
        assert BucketReads(node, j + 1) == BucketReads(node, j) + [ReadAt(node, j)];
        if b.lba != DUMMY {
          if stashCount < stash.Length {
            Push(b);
          } else {
            RealsPrefix(bucket, j + 1);
            return false;
          }
        }
      }
      assert bucket[..g.z] == bucket;
      return true;
    }

    /** Reads every bucket of the path into the stash, root first. */
    method LoadPath(path: array<nat>) returns (ok: bool)
      requires Sized() && forall i | 0 <= i < path.Length :: path[i] < g.Nodes()
      modifies this`stashCount, this`log, stash
      ensures Sized()
      ensures ok <==> |old(Stash())| + |Load(disk, path[..])| <= stash.Length
      ensures ok ==> Stash() == old(Stash()) + Load(disk, path[..])
      ensures ok ==> log == old(log) + PathReads(path[..], g.z)
    {
      hide Load, PathReads, Reals, BucketReads;
      ghost var p := path[..];
      ghost var first, started := Stash(), log;
      LoadNothing(disk, g.z);
      for i := 0 to path.Length
        invariant Sized() && path[..] == p
        invariant Stash() == first + Load(disk, p[..i])
        invariant log == started + PathReads(p[..i], g.z)
      {
        LoadOneMore(disk, p, i, g.z);
        LoadPrefix(disk, p, i + 1);
        var fits := LoadBucket(path[i]);
        if !fits {
          return false;
        }
      }
      assert p[..path.Length] == p;
      return true;
    }

    method FindBlock(lba: nat) returns (idx: int)
      requires Sized()
      ensures Find(Stash(), lba) < stashCount ==> idx == Find(Stash(), lba)
      ensures Find(Stash(), lba) == stashCount ==> idx == -1
    {
      for i := 0 to stashCount
        invariant forall k | 0 <= k < i :: stash[k].lba != lba
      {
        if stash[i].lba == lba {
          return i;
        }
      }
      return -1;
    }

    /** Closes the gap left by an evicted block. */
    method RemoveAt(s: nat)
      requires Sized() && s < stashCount
      modifies this`stashCount, stash
      ensures Sized() && stashCount == old(stashCount) - 1
      ensures Stash() == old(Stash())[..s] + old(Stash())[s + 1..]
    {
      ghost var was := stash[..];
      for k := s to stashCount - 1
        invariant stashCount == old(stashCount) <= stash.Length
        invariant Shifted(was, stash[..], s, k)
      {
        ghost var now := stash[..];
        assert now[k + 1] == was[Origin(s, k, k + 1)];
        stash[k] := stash[k + 1];
        ShiftedOn(was, now, stash[..], s, k);
      }
      GapClosed(was, stash[..], s, stashCount);
      assert stash[..stashCount - 1] == stash[..][..stashCount - 1];
      assert was[..stashCount] == old(Stash());
      stashCount := stashCount - 1;
    }

    /** Moves stash blocks that belong below `node` into an empty bucket while there is room. */
    method FillBucket(node: nat, bucket: array<Block>)
      requires Sized() && node < g.Nodes() && bucket.Length == g.z && bucket != stash
      requires forall i | 0 <= i < g.z :: bucket[i] == Block(DUMMY, Zero())
      requires forall b | b in Stash() :: b.lba < posMap.Length
      modifies this`stashCount, stash, bucket
      ensures Sized()
      ensures forall b | b in old(Stash()) :: b.lba < posMap.Length
      ensures Stash() == Pick(g, posMap[..], node, old(Stash()), g.z).rest
      ensures var taken := Pick(g, posMap[..], node, old(Stash()), g.z).taken;
              bucket[..] == taken + Dummies(g.z - |taken|)
    {
      hide Ancestor, LeafNode, Zero, Pick, Filling;
      var placed := 0;
      ghost var pos := posMap[..];
      ghost var goal := Pick(g, pos, node, Stash(), g.z);
      FillStart(g, pos, node, Stash(), g.z);
      assert bucket[..0] == [];
      var s := 0;
      while s < stashCount && placed < g.z
        invariant Sized() && s <= stashCount && placed <= g.z && posMap[..] == pos
        invariant Filling(g, pos, node, goal, Stash(), s, bucket[..placed], g.z - placed)
        invariant forall i | placed <= i < g.z :: bucket[i] == Block(DUMMY, Zero())
        decreases stashCount - s
      {
        FillStep(g, pos, node, goal, Stash(), s, bucket[..placed], g.z - placed);
        var below := IsAncestor(node, LeafNode(g.l, posMap[stash[s].lba]));
        if below {
          bucket[placed] := stash[s];
          placed := placed + 1;
          assert bucket[..placed] == bucket[..placed - 1] + [stash[s]];
          RemoveAt(s);
        } else {
          s := s + 1;
        }
      }
      FillDone(g, pos, node, goal, Stash(), s, bucket[..placed], g.z - placed);
    }

    /** Refills one bucket of the path from the stash. */
    method RefillBucket(node: nat)
      requires Sized() && node < g.Nodes() && Shaped(g, View())
      modifies this`stashCount, this`disk, this`log, stash
      ensures Sized() && View() == EvictBucket(g, old(View()), node)
      ensures log == old(log) + BucketWrites(node, g.z)
    {
      hide Pick, Zero;
      var bucket := new Block[g.z](_ => Block(DUMMY, Zero()));
      FillBucket(node, bucket);
      WriteBucket(node, bucket);
    }

    method WriteBucket(node: nat, bucket: array<Block>)
      requires Sized() && node < g.Nodes() && bucket.Length == g.z
      modifies this`disk, this`log
      ensures Sized()
      ensures disk == old(disk)[node := bucket[..]]
      ensures log == old(log) + BucketWrites(node, g.z)
    {
      for j := 0 to g.z
        invariant Sized()
        invariant forall n | 0 <= n < |disk| && n != node :: disk[n] == old(disk)[n]
        invariant disk[node][..j] == bucket[..j]
        invariant log == old(log) + BucketWrites(node, j)
      {
        WriteBlock(node, j, bucket[j]);
        assert BucketWrites(node, j + 1) == BucketWrites(node, j) + [WriteAt(node, j)];
      }
      assert disk[node] == bucket[..];
    }

    /** Serves the request on the loaded stash; fails exactly when a new block does not fit. */
    method Serve(lba: nat, write: bool, data: Sector) returns (ok: bool, out: Sector)
      requires Sized()
      modifies this`stashCount, stash
      ensures Sized()
      ensures var op := if write then Write(lba, data) else Read(lba);
              && (ok <==> |Touch(old(Stash()), op)| <= stash.Length)
              && (ok ==> Stash() == Touch(old(Stash()), op) && out == Answer(old(Stash()), op))
    {
      hide Zero;
      out := data;
      var idx := FindBlock(lba);
      if write {
        if idx != -1 {
          stash[idx] := Block(lba, data);
        } else if stashCount < stash.Length {
          Push(Block(lba, data));
        } else {
          return false, out;
        }
      } else {
        out := if idx != -1 then stash[idx].data else Zero();
      }
      ok := true;
    }

    /** One access with the freshly drawn position `leaf`. For an in-range block it always
        succeeds, answers from the abstract array, and shows the disk nothing but the path of
        the block's old position. */
    method Access(lba: nat, write: bool, data: Sector, leaf: nat) returns (rc: int, out: Sector)
      requires Valid() && leaf < g.Leaves()
      modifies this, posMap, stash
      ensures Valid()
      ensures lba >= g.Leaves() ==>
                rc == -1 && View() == old(View()) && contents == old(contents) && log == old(log)
      ensures lba < g.Leaves() ==>
                && rc == 0
                && contents == (if write then old(contents)[lba := data] else old(contents))
                && out == contents[lba]
                && log == old(log) + AccessPattern(g, old(posMap[lba]))
                && posMap[..] == old(posMap[..])[lba := leaf]
      ensures lba < g.Leaves() ==>
                var op := if write then Write(lba, data) else Read(lba);
                && (forall b | b in Loaded(g, old(View()), lba) :: b.lba < g.Leaves())
                && View() == OramSpec.Access(g, old(View()), op, leaf).0
    {
      hide Inv, Zero, OramSpec.Access, Loaded, Pow2, AccessPattern, Shaped;
      out := data;
      if lba >= g.Leaves() {
        return -1, out;
      }
      ghost var op := if write then Write(lba, data) else Read(lba);
      InvShape(g, View(), {}, contents);
      AccessRefines(g, View(), contents, op, leaf);
      var ok;
      ok, out := Perform(lba, write, data, leaf);
      if !ok {
        return -1, out;
      }
      savedPos := posMap[..];
      contents := Apply(contents, op);
      rc := 0;
    }

    /** Request `i` of a run. */
    method RunOne(reqs: seq<Request>, i: nat, ghost first: seq<Sector>, ghost start: seq<nat>) returns (out: Sector)
      requires Valid() && InRange(g, reqs) && i < |reqs| && |first| == |start| == g.Leaves()
      requires AsWritten(contents, first, reqs, i) && AsDrawn(posMap[..], start, reqs, i)
      modifies this, posMap, stash
      ensures Valid() && AsWritten(contents, first, reqs, i + 1) && AsDrawn(posMap[..], start, reqs, i + 1)
      ensures reqs[i].op.Read? ==> out == LastWritten(first, reqs, i, reqs[i].op.lba)
      ensures log == old(log) + AccessPattern(g, LastLeaf(start, reqs, i, reqs[i].op.lba))
    {
      hide Inv, Zero, OramSpec.Access, Loaded, Pow2, AccessPattern, Shaped, AsWritten, AsDrawn, LastWritten, LastLeaf, Sized;
      var q := reqs[i];
      SizesOf();
      OneMoreWritten(contents, first, reqs, i);
      OneMoreDrawn(posMap[..], start, reqs, i);
      var data := if q.op.Write? then q.op.data else seq(512, _ => 0);
      var rc;
      rc, out := Access(q.op.lba, q.op.Write?, data, q.leaf);
    }

    lemma SizesOf()
      requires Valid()
      ensures |contents| == posMap.Length == g.Leaves()
    {
      hide Inv;
      InvShape(g, View(), {}, contents);
    }

    /** A whole run: every request succeeds, every read answers the last data written to its block, and
        the disk sees the path of the leaf last drawn for it. */
    method Run(reqs: seq<Request>) returns (outs: seq<Sector>)
      requires Valid() && InRange(g, reqs)
      modifies this, posMap, stash
      ensures Valid() && |outs| == |reqs| && |old(contents)| == |old(posMap[..])| == g.Leaves()
      ensures forall k | 0 <= k < |reqs| && reqs[k].op.Read? :: outs[k] == LastWritten(old(contents), reqs, k, reqs[k].op.lba)
      ensures log == old(log) + Trace(g, old(posMap[..]), reqs, |reqs|)
    {
      hide Valid, Zero, AccessPattern, AsWritten, AsDrawn, LastWritten, LastLeaf, Trace;
      SizesOf();
      NoneServed(contents, posMap[..], reqs);
      TraceStart(g, posMap[..], reqs);
      ghost var first, start, started := contents, posMap[..], log;
      outs := [];
      for i := 0 to |reqs|
        invariant Valid() && |outs| == i
        invariant AsWritten(contents, first, reqs, i) && AsDrawn(posMap[..], start, reqs, i)
        invariant forall k | 0 <= k < i && reqs[k].op.Read? :: outs[k] == LastWritten(first, reqs, k, reqs[k].op.lba)
        invariant log == started + Trace(g, start, reqs, i)
      {
        TraceStep(g, start, reqs, i);
        var out := RunOne(reqs, i, first, start);
        outs := outs + [out];
      }
    }

    /** Load, serve, remap and evict; the overflow exits are not reached. */
    method Perform(lba: nat, write: bool, data: Sector, leaf: nat) returns (ok: bool, out: Sector)
      requires Valid() && lba < g.Leaves() && leaf < g.Leaves()
      modifies this`stashCount, this`disk, this`log, posMap, stash
      ensures ok && Sized() && log == old(log) + AccessPattern(g, old(posMap[lba]))
      ensures posMap[..] == old(posMap[..])[lba := leaf]
      ensures var op := if write then Write(lba, data) else Read(lba);
              && (forall b | b in Loaded(g, old(View()), lba) :: b.lba < g.Leaves())
              && (View(), out) == OramSpec.Access(g, old(View()), op, leaf)
    {
      hide Inv, Zero, Load, Evict, EvictBucket, Touch, Answer, Path, Pow2, PathReads, PathWrites, Shaped;
      ghost var op := if write then Write(lba, data) else Read(lba);
      ghost var st := View();
      InvShape(g, st, {}, contents);
      StashFits(g, st, contents, op);
      TouchedShape(g, st, op, leaf);
      PathShape(g.l, posMap[lba]);
      out := data;
      var path := GetPath(g.l, posMap[lba]);
      assert path[..] == TreePath(g, st.pos[lba]);
      ok := LoadPath(path);
      if !ok {
        return;
      }
      ok, out := Serve(lba, write, data);
      if !ok {
        return;
      }
      posMap[lba] := leaf;
      assert posMap[..] == st.pos[lba := leaf];
      RefillPath(path);
    }

    /** Rewrites the buckets of the path, leaf first. */
    method RefillPath(path: array<nat>)
      requires Sized() && Shaped(g, View()) && forall i | 0 <= i < path.Length :: path[i] < g.Nodes()
      modifies this`stashCount, this`disk, this`log, stash
      ensures Sized()
      ensures View() == Evict(g, old(View()), path[..], path.Length)
      ensures log == old(log) + PathWrites(path[..], path.Length, g.z)
    {
      hide EvictBucket, Zero, Pick, BucketWrites;
      var i: int := path.Length - 1;
      ghost var p := path[..];
      while i >= 0
        invariant -1 <= i < path.Length && path[..] == p
        invariant Sized() && Shaped(g, View())
        invariant Evict(g, View(), p, i + 1) == Evict(g, old(View()), p, path.Length)
        invariant log + PathWrites(p, i + 1, g.z) == old(log) + PathWrites(p, path.Length, g.z)
      {
        ghost var before := log;
        RefillBucket(path[i]);
        assert log + PathWrites(p, i, g.z) == before + PathWrites(p, i + 1, g.z);
        i := i - 1;
      }
    }
  }
}
