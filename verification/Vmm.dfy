/** The virtual memory manager: page tables in mutable physical memory, built from frames of
    the physical allocator. */
module Vmm {
  import opened Pte
  import opened PageTables
  import Pmm

  const PAGE: nat := 4096
  const WINDOW: nat := 0x10_0000_0000
  const MAX_FRAME: nat := 0x100_0000_0000

  datatype Outcome = Mapped | NotReady | Halted

  /** The software walk of `vmm_virt_to_phys`, including large pages. */
  function Translate(mem: Memory, root: nat, v: nat): nat {
    var p := Indices(v);
    var e4 := At(mem, root, p[0]);
    if !e4.flags.present then 0 else
    var e3 := At(mem, e4.frame, p[1]);
    if !e3.flags.present then 0 else
    if e3.flags.large then e3.frame * PAGE + v % 0x4000_0000 else
    var e2 := At(mem, e3.frame, p[2]);
    if !e2.flags.present then 0 else
    if e2.flags.large then e2.frame * PAGE + v % 0x20_0000 else
    var e1 := At(mem, e2.frame, p[3]);
    if !e1.flags.present then 0 else e1.frame * PAGE + v % PAGE
  }

  /** In a well-formed tree there are no large pages and translation reads the leaf entry. */
  lemma TranslateIsLeaf(mem: Memory, own: Owners, root: nat, v: nat)
    requires WellFormed(mem, own) && root in own && own[root].Root?
    ensures Translate(mem, root, v)
         == (var e := Leaf(mem, root, v); if e.flags.present then e.frame * PAGE + v % PAGE else 0)
  {
    hide Indices;
    var p := Indices(v);
    var e4 := At(mem, root, p[0]);
    if e4.flags.present {
      assert LinkOk(mem, own, root, p[0]);
      var e3 := At(mem, e4.frame, p[1]);
      WalkStep(mem, root, p);
      if e3.flags.present {
        assert LinkOk(mem, own, e4.frame, p[1]);
        WalkStep(mem, e4.frame, p[1..]);
        var e2 := At(mem, e3.frame, p[2]);
        if e2.flags.present {
          assert LinkOk(mem, own, e3.frame, p[2]);
          WalkStep(mem, e3.frame, p[1..][1..]);
        }
      }
    }
  }

  lemma WalkStep(mem: Memory, t: nat, path: seq<nat>)
    requires |path| > 1
    ensures Walk(mem, t, path)
         == if At(mem, t, path[0]).flags.present then Walk(mem, At(mem, t, path[0]).frame, path[1..]) else NONE
  {
  }

  /** Every leaf of every address space of `own` is the same in both memories. */
  ghost predicate SameLeaves(own: Owners, mem: Memory, mem': Memory) {
    forall r, v: nat | r in own && own[r].Root? :: Leaf(mem', r, v) == Leaf(mem, r, v)
  }

  ghost predicate Extends(own: Owners, own': Owners) {
    forall t | t in own :: t in own' && own'[t] == own[t]
  }

  /** The leaf entries below a user PML4 lead to pages of that address space only. */
  ghost predicate Private(mem: Memory, own: Owners) {
    forall t, i | t in own && own[t].Table? && own[t].space.User? && |own[t].path| == 3 && 0 <= i < ENTRIES
               && At(mem, t, i).flags.present ::
      LeafOk(mem, own, t, i)
  }

  ghost predicate LeafOk(mem: Memory, own: Owners, t: nat, i: nat)
    requires t in own && own[t].Table? && own[t].space.User?
  {
    var e := At(mem, t, i);
    e.frame in own && own[e.frame] == Data(own[t].space.root)
  }

  /** Whether the address space of `r` has the tables for address `v` in common with that of `root`. */
  predicate Shares(mem: Memory, r: nat, root: nat, v: nat) {
    SharesPath(mem, r, root, Indices(v))
  }

  /** The tables above the page of `v` let user mode through. */
  predicate PathOpen(mem: Memory, root: nat, v: nat) {
    Passes(mem, root, Indices(v))
  }

  /** What user mode was let through to it still is, in every address space. */
  ghost predicate StillOpen(own: Owners, mem: Memory, mem': Memory) {
    forall r, v: nat | r in own && own[r].Root? && PathOpen(mem, r, v) :: PathOpen(mem', r, v)
  }

  /** An address space that shares the tables lets its own user mode through exactly when its own PML4
      entry does. */
  lemma SharedOpen(mem: Memory, own: Owners, r: nat, root: nat, v: nat)
    requires WellFormed(mem, own) && r in own && own[r].Root?
    requires Shares(mem, r, root, v) && PathOpen(mem, root, v)
    ensures PathOpen(mem, r, v) <==> At(mem, r, Indices(v)[0]).flags.user
  {
    hide Indices;
    var p := Indices(v);
    if r != root {
      assert LinkOk(mem, own, r, p[0]);
    }
  }

  /** No two address spaces of `own` come to share tables, or cease to. */
  ghost predicate SameShares(own: Owners, mem: Memory, mem': Memory) {
    forall r, s, v: nat | r in own && own[r].Root? && s in own && own[s].Root? ::
      Shares(mem', r, s, v) == Shares(mem, r, s, v)
  }

  /** What mapping or unmapping the page of `v` in `root` changes: the leaf of that page becomes `e`
      in `root` and in the address spaces that share its tables there, and every other leaf of
      every address space stays. In the lower half nobody shares. */
  ghost predicate OnlyPage(own: Owners, mem: Memory, mem': Memory, root: nat, v: nat, e: Entry) {
    && (forall r, w: nat | r in own && own[r].Root? ::
          Leaf(mem', r, w) == if Page(w) == Page(v) && Shares(mem, r, root, v) then e else Leaf(mem, r, w))
    && (LowerHalf(v) ==> forall r | r in own && own[r].Root? && r != root :: !Shares(mem, r, root, v))
    && root in own && own[root].Root?
  }

  lemma LinkKeepsShares(mem: Memory, own: Owners, t: nat, i: nat, f: nat, user: bool)
    requires WellFormed(mem, own) && IsTable(own, t) && Depth(own, t) < 3 && i < ENTRIES
    requires f !in own && !At(mem, t, i).flags.present
    ensures SameShares(own, mem, Linked(mem, t, i, f, user))
  {
    hide Indices;
    var mem' := Linked(mem, t, i, f, user);
    forall r, s, v: nat | r in own && own[r].Root? && s in own && own[s].Root?
      ensures Shares(mem', r, s, v) == Shares(mem, r, s, v)
    {
      var k := Indices(v)[0];
      LinkedAt(mem, own, t, i, f, user, r, k);
      LinkedAt(mem, own, t, i, f, user, s, k);
    }
  }

  lemma LinkKeepsOpen(mem: Memory, own: Owners, t: nat, i: nat, f: nat, user: bool)
    requires WellFormed(mem, own) && IsTable(own, t) && Depth(own, t) < 3 && i < ENTRIES
    requires f !in own && !At(mem, t, i).flags.present
    ensures StillOpen(own, mem, Linked(mem, t, i, f, user))
  {
    hide Linked, Indices, Passes, WellFormed;
    TableInMemory(mem, own, t);
    forall r, v: nat | r in own && own[r].Root? && PathOpen(mem, r, v) ensures PathOpen(Linked(mem, t, i, f, user), r, v) {
      LinkKeepsPasses(mem, own, t, i, f, user, r, Indices(v));
    }
  }

  lemma OrUserKeepsOpen(mem: Memory, own: Owners, t: nat, i: nat, user: bool)
    requires WellFormed(mem, own) && IsTable(own, t) && i < ENTRIES
    ensures t in mem && |mem[t]| == ENTRIES && StillOpen(own, mem, Put(mem, t, i, OrUser(At(mem, t, i), user)))
  {
    hide Indices, Passes, WellFormed;
    TableInMemory(mem, own, t);
    var mem' := Put(mem, t, i, OrUser(At(mem, t, i), user));
    forall r, v: nat | r in own && own[r].Root? && PathOpen(mem, r, v) ensures PathOpen(mem', r, v) {
      OrUserKeepsPasses(mem, own, t, i, user, r, Indices(v));
    }
  }

  lemma LeafKeepsOpen(mem: Memory, own: Owners, t: nat, i: nat, e: Entry)
    requires WellFormed(mem, own) && IsTable(own, t) && Depth(own, t) == 3 && i < ENTRIES
    ensures t in mem && |mem[t]| == ENTRIES && StillOpen(own, mem, Put(mem, t, i, e))
  {
    hide Indices, Passes, WellFormed;
    TableInMemory(mem, own, t);
    var mem' := Put(mem, t, i, e);
    forall r, v: nat | r in own && own[r].Root? && PathOpen(mem, r, v) ensures PathOpen(mem', r, v) {
      LeafKeepsPasses(mem, own, t, i, e, r, Indices(v));
    }
  }

  /** Entries of roots after a link: the new one leads to the new frame, old ones never do. */
  lemma LinkedAt(mem: Memory, own: Owners, t: nat, i: nat, f: nat, user: bool, r: nat, k: nat)
    requires WellFormed(mem, own) && IsTable(own, t) && Depth(own, t) < 3 && i < ENTRIES && k < ENTRIES
    requires f !in own && !At(mem, t, i).flags.present && r in own && own[r].Root?
    ensures At(Linked(mem, t, i, f, user), r, k) == if r == t && k == i then Entry(f, LinkFlags(user)) else At(mem, r, k)
    ensures At(mem, r, k).flags.present ==> At(mem, r, k).frame != f
  {
    if At(mem, r, k).flags.present {
      assert LinkOk(mem, own, r, k);
    }
  }

  lemma OrUserKeepsShares(mem: Memory, own: Owners, t: nat, i: nat, user: bool)
    requires WellFormed(mem, own) && IsTable(own, t) && i < ENTRIES
    ensures SameShares(own, mem, Put(mem, t, i, OrUser(At(mem, t, i), user)))
  {
    hide Indices, WellFormed;
    TableInMemory(mem, own, t);
  }

  lemma LeafKeepsShares(mem: Memory, own: Owners, t: nat, i: nat, e: Entry)
    requires WellFormed(mem, own) && IsTable(own, t) && Depth(own, t) == 3 && i < ENTRIES
    ensures SameShares(own, mem, Put(mem, t, i, e))
  {
    hide Indices, WellFormed;
    TableInMemory(mem, own, t);
  }

  lemma LinkKeepsLeaves(mem: Memory, own: Owners, t: nat, i: nat, f: nat, user: bool)
    requires WellFormed(mem, own) && IsTable(own, t) && Depth(own, t) < 3 && i < ENTRIES
    requires f !in own && !At(mem, t, i).flags.present
    ensures SameLeaves(own, mem, Linked(mem, t, i, f, user))
  {
    hide Linked, Indices, Walk;
    forall r, v: nat | r in own && own[r].Root?
      ensures Leaf(Linked(mem, t, i, f, user), r, v) == Leaf(mem, r, v)
    {
      LinkKeepsWalks(mem, own, t, i, f, user, r, Indices(v));
    }
  }

  lemma OrUserKeepsLeaves(mem: Memory, own: Owners, t: nat, i: nat, user: bool)
    requires WellFormed(mem, own) && IsTable(own, t) && Depth(own, t) < 3 && i < ENTRIES
    ensures SameLeaves(own, mem, Put(mem, t, i, OrUser(At(mem, t, i), user)))
  {
    forall r, v: nat | r in own && own[r].Root?
      ensures Leaf(Put(mem, t, i, OrUser(At(mem, t, i), user)), r, v) == Leaf(mem, r, v)
    {
      OrUserKeepsWalks(mem, own, t, i, user, r, Indices(v));
    }
  }

  lemma LinkKeepsPrivate(mem: Memory, own: Owners, t: nat, i: nat, f: nat, user: bool)
    requires WellFormed(mem, own) && IsTable(own, t) && Depth(own, t) < 3 && i < ENTRIES && f !in own
    requires Private(mem, own)
    ensures Private(Linked(mem, t, i, f, user), own[f := Child(own, t, i, f)])
  {
    var mem' := Linked(mem, t, i, f, user);
    var own' := own[f := Child(own, t, i, f)];
    assert mem'[f] == Zeros();
    forall s, k | s in own' && own'[s].Table? && own'[s].space.User? && |own'[s].path| == 3 && 0 <= k < ENTRIES
               && At(mem', s, k).flags.present
      ensures LeafOk(mem', own', s, k)
    {
      assert s != f;
      assert At(mem', s, k) == At(mem, s, k);
      assert LeafOk(mem, own, s, k);
    }
  }

  lemma PutKeepsPrivate(mem: Memory, own: Owners, t: nat, i: nat, e: Entry)
    requires WellFormed(mem, own) && IsTable(own, t) && i < ENTRIES && Private(mem, own)
    requires Depth(own, t) == 3 && own[t].space.User? && e.flags.present ==>
               e.frame in own && own[e.frame] == Data(own[t].space.root)
    ensures Private(Put(mem, t, i, e), own)
  {
    var mem' := Put(mem, t, i, e);
    forall s, k | s in own && own[s].Table? && own[s].space.User? && |own[s].path| == 3 && 0 <= k < ENTRIES
               && At(mem', s, k).flags.present
      ensures LeafOk(mem', own, s, k)
    {
      if (s, k) != (t, i) {
        assert At(mem', s, k) == At(mem, s, k);
        assert LeafOk(mem, own, s, k);
      }
    }
  }

  /** Writing a leaf entry, phrased for addresses. */
  lemma LeafWriteOnlyPage(mem: Memory, own: Owners, root: nat, v: nat, e: Entry)
    requires WellFormed(mem, own) && root in own && own[root].Root? && Last(mem, root, Indices(v)).0
    ensures var t := Last(mem, root, Indices(v)).1;
            && IsTable(own, t) && Depth(own, t) == 3 && t in mem && |mem[t]| == ENTRIES
            && OnlyPage(own, mem, Put(mem, t, Indices(v)[3], e), root, v, e)
  {
    hide Walk, Last, Indices, Page, WellFormed, SharesPath;
    var path := Indices(v);
    LeafWrite(mem, own, root, path, e, root, path);
    var mem' := Put(mem, Last(mem, root, path).1, path[3], e);
    forall r, w: nat | r in own && own[r].Root?
      ensures Leaf(mem', r, w) == if Page(w) == Page(v) && Shares(mem, r, root, v) then e else Leaf(mem, r, w)
    {
      IndicesIffPage(v, w);
      LeafWrite(mem, own, root, path, e, r, Indices(w));
    }
    LowerUnshared(mem, own, root, v);
  }

  lemma LowerUnshared(mem: Memory, own: Owners, root: nat, v: nat)
    requires WellFormed(mem, own) && root in own && own[root].Root?
    ensures LowerHalf(v) ==> forall r | r in own && own[r].Root? && r != root :: !Shares(mem, r, root, v)
  {
    hide WellFormed, Indices, SharesPath;
    if LowerHalf(v) {
      forall r | r in own && own[r].Root? && r != root ensures !Shares(mem, r, root, v) {
        if Shares(mem, r, root, v) {
          LowerHalfUnshared(mem, own, r, root, Indices(v));
          assert false;
        }
      }
    }
  }

  lemma LastOfFour(mem: Memory, root: nat, t3: nat, t2: nat, t1: nat, p: seq<nat>)
    requires |p| == 4
    requires At(mem, root, p[0]).flags.present && At(mem, root, p[0]).frame == t3
    requires At(mem, t3, p[1]).flags.present && At(mem, t3, p[1]).frame == t2
    requires At(mem, t2, p[2]).flags.present && At(mem, t2, p[2]).frame == t1
    ensures Last(mem, root, p) == (true, t1)
  {
    LastStep(mem, root, p);
    LastStep(mem, t3, p[1..]);
    LastStep(mem, t2, p[1..][1..]);
  }

  lemma LastMissing(mem: Memory, t: nat, path: seq<nat>)
    requires |path| > 1 && !At(mem, t, path[0]).flags.present
    ensures !Last(mem, t, path).0
  {
  }

  /** With a link missing, unmapping has nothing to do. */
  lemma NoLast(mem: Memory, own: Owners, root: nat, v: nat)
    requires WellFormed(mem, own) && root in own && own[root].Root?
    ensures !Last(mem, root, Indices(v)).0 ==> OnlyPage(own, mem, mem, root, v, NONE)
  {
    hide Walk, Last, Indices, Page, WellFormed, SharesPath;
    LowerUnshared(mem, own, root, v);
    if !Last(mem, root, Indices(v)).0 {
      WalkLast(mem, root, Indices(v));
      forall r, w: nat | r in own && own[r].Root? && Page(w) == Page(v) && Shares(mem, r, root, v)
        ensures Leaf(mem, r, w) == NONE
      {
        IndicesIffPage(v, w);
        SharedLast(mem, r, root, Indices(v));
      }
    }
  }

  lemma LastStep(mem: Memory, t: nat, path: seq<nat>)
    requires |path| > 1 && At(mem, t, path[0]).flags.present
    ensures Last(mem, t, path) == Last(mem, At(mem, t, path[0]).frame, path[1..])
  {
  }

  /** The new frames are tables, the old ones keep their roles, and no leaf changes. */
  ghost predicate Grown(own: Owners, mem: Memory, own': Owners, mem': Memory) {
    && WellFormed(mem', own')
    && Extends(own, own')
    && SameLeaves(own, mem, mem') && SameShares(own, mem, mem') && StillOpen(own, mem, mem')
    && (Private(mem, own) ==> Private(mem', own'))
    && (forall t | t in own' && t !in own :: own'[t].Table?)
  }

  /** The effect of one level of the descent: table `next` hangs below entry `i` of `t`. */
  ghost predicate Descends(own: Owners, mem: Memory, own': Owners, mem': Memory, t: nat, i: nat, next: nat) {
    && Grown(own, mem, own', mem')
    && IsTable(own', t)
    && (forall s, k: nat | s in own && (s, k) != (t, i) :: At(mem', s, k) == At(mem, s, k))
    && At(mem', t, i).flags.present && At(mem', t, i).frame == next
    && IsTable(own', next) && own'[next] == Child(own', t, i, next)
  }

  lemma LinkDescends(mem: Memory, own: Owners, t: nat, i: nat, f: nat, user: bool)
    requires WellFormed(mem, own) && IsTable(own, t) && Depth(own, t) < 3 && i < ENTRIES
    requires f !in own && !At(mem, t, i).flags.present
    ensures Descends(own, mem, own[f := Child(own, t, i, f)], Linked(mem, t, i, f, user), t, i, f)
  {
    hide Walk, Private, SameLeaves, SameShares, StillOpen;
    LinkKeepsLeaves(mem, own, t, i, f, user);
    LinkKeepsShares(mem, own, t, i, f, user);
    LinkKeepsOpen(mem, own, t, i, f, user);
    LinkKeepsWellFormed(mem, own, t, i, f, user);
    if Private(mem, own) {
      LinkKeepsPrivate(mem, own, t, i, f, user);
    }
  }

  lemma OrUserDescends(mem: Memory, own: Owners, t: nat, i: nat, user: bool)
    requires WellFormed(mem, own) && IsTable(own, t) && Depth(own, t) < 3 && i < ENTRIES
    requires At(mem, t, i).flags.present
    ensures Descends(own, mem, own, Put(mem, t, i, OrUser(At(mem, t, i), user)), t, i, At(mem, t, i).frame)
  {
    hide Walk, Private, SameLeaves, SameShares, StillOpen;
    assert LinkOk(mem, own, t, i);
    OrUserKeepsLeaves(mem, own, t, i, user);
    OrUserKeepsShares(mem, own, t, i, user);
    OrUserKeepsOpen(mem, own, t, i, user);
    OrUserKeepsWellFormed(mem, own, t, i, user);
    if Private(mem, own) {
      PutKeepsPrivate(mem, own, t, i, OrUser(At(mem, t, i), user));
    }
  }

  lemma GrownTransitive(own0: Owners, mem0: Memory, own1: Owners, mem1: Memory, own2: Owners, mem2: Memory)
    requires Grown(own0, mem0, own1, mem1) && Grown(own1, mem1, own2, mem2)
    ensures Grown(own0, mem0, own2, mem2)
  {
    hide Walk, WellFormed, Private, Shares, PathOpen;
  }

  lemma DataAdded(mem: Memory, own: Owners, f: nat, role: Owner)
    requires WellFormed(mem, own) && f !in own && role.Data?
    ensures WellFormed(mem, own[f := role])
  {
    var own' := own[f := role];
    forall t, i | t in own' && !own'[t].Data? && 0 <= i < ENTRIES && Depth(own', t) < 3 && At(mem, t, i).flags.present
      ensures LinkOk(mem, own', t, i)
    {
      assert LinkOk(mem, own, t, i);
    }
  }

  lemma GrownSelf(own: Owners, mem: Memory)
    requires WellFormed(mem, own)
    ensures Grown(own, mem, own, mem)
  {
    hide Walk, Private, Shares, PathOpen;
  }

  lemma OnlyPageAfterGrowth(own: Owners, mem: Memory, own': Owners, mid: Memory, mem': Memory, root: nat, v: nat, e: Entry)
    requires Grown(own, mem, own', mid) && root in own && own[root].Root?
    requires OnlyPage(own', mid, mem', root, v, e)
    ensures OnlyPage(own, mem, mem', root, v, e)
  {
    hide Leaf, Page, WellFormed, Private, LowerHalf, Shares, StillOpen;
  }

  /** Three levels of descent make the walk end in the last table. */
  lemma Descent(own0: Owners, mem0: Memory, own1: Owners, mem1: Memory, own2: Owners, mem2: Memory,
                own3: Owners, mem3: Memory, root: nat, t3: nat, t2: nat, t1: nat, p: seq<nat>)
    requires |p| == 4 && root in own0 && own0[root].Root?
    requires Descends(own0, mem0, own1, mem1, root, p[0], t3)
    requires Descends(own1, mem1, own2, mem2, t3, p[1], t2)
    requires Descends(own2, mem2, own3, mem3, t2, p[2], t1)
    ensures Last(mem3, root, p) == (true, t1)
    ensures At(mem3, root, p[0]) == At(mem1, root, p[0]) && At(mem3, t3, p[1]) == At(mem2, t3, p[1])
    ensures At(mem3, root, p[0]).flags.present && At(mem3, root, p[0]).frame == t3
    ensures At(mem3, t3, p[1]).flags.present && At(mem3, t3, p[1]).frame == t2
    ensures At(mem3, t2, p[2]).flags.present && At(mem3, t2, p[2]).frame == t1
    ensures IsTable(own3, root) && IsTable(own3, t3) && IsTable(own3, t2)
    ensures Depth(own3, root) == 0 && Depth(own3, t3) == 1 && Depth(own3, t2) == 2
    ensures own3[t1] == Table(SpaceOf(root, p[0], t3), p[..3])
  {
    hide Walk, WellFormed, Private, SameLeaves, SameShares, StillOpen, At, Last;
    assert own1[t3] == Table(SpaceOf(root, p[0], t3), [p[0]]);
    assert own2[t2] == Table(SpaceOf(root, p[0], t3), [p[0], p[1]]);
    assert own3[t1] == Table(SpaceOf(root, p[0], t3), [p[0], p[1], p[2]]);
    assert p[..3] == [p[0], p[1], p[2]];
    LastOfFour(mem3, root, t3, t2, t1, p);
  }

  /** An empty PML4 in a frame without a role disturbs nothing. */
  lemma EmptyRoot(mem: Memory, own: Owners, f: nat)
    requires WellFormed(mem, own) && Private(mem, own) && f !in own
    ensures WellFormed(mem[f := Zeros()], own[f := Root]) && Private(mem[f := Zeros()], own[f := Root])
    ensures SameLeaves(own, mem, mem[f := Zeros()])
    ensures var mem' := mem[f := Zeros()]; forall v: nat :: Leaf(mem', f, v) == NONE
  {
    hide Indices;
    var mem', own' := mem[f := Zeros()], own[f := Root];
    forall t, i | t in own' && !own'[t].Data? && 0 <= i < ENTRIES && Depth(own', t) < 3 && At(mem', t, i).flags.present
      ensures LinkOk(mem', own', t, i)
    {
      assert LinkOk(mem, own, t, i);
    }
    forall t, i | t in own' && own'[t].Table? && own'[t].space.User? && |own'[t].path| == 3 && 0 <= i < ENTRIES
               && At(mem', t, i).flags.present
      ensures LeafOk(mem', own', t, i)
    {
      assert LeafOk(mem, own, t, i);
    }
    forall r, v: nat | r in own && own[r].Root? ensures Leaf(mem', r, v) == Leaf(mem, r, v) {
      FrameInvisible(mem, own, f, Zeros(), r, Indices(v));
    }
    forall v: nat ensures Leaf(mem', f, v) == NONE {
      WalkZeros(mem', f, Indices(v));
    }
  }

  /** Nor does it open or close a path. */
  lemma {:induction false} FrameKeepsPasses(mem: Memory, own: Owners, f: nat, table: seq<Entry>, s: nat, path: seq<nat>)
    requires WellFormed(mem, own) && f !in own && IsTable(own, s) && path != [] && Depth(own, s) + |path| == 4
    requires (forall k | 0 <= k < |path| :: path[k] < ENTRIES) && Passes(mem, s, path)
    ensures Passes(mem[f := table], s, path)
    decreases path
  {
    if |path| > 1 {
      assert At(mem[f := table], s, path[0]) == At(mem, s, path[0]);
      assert LinkOk(mem, own, s, path[0]);
      FrameKeepsPasses(mem, own, f, table, At(mem, s, path[0]).frame, path[1..]);
    }
  }

  lemma FrameKeepsOpen(mem: Memory, own: Owners, f: nat, table: seq<Entry>)
    requires WellFormed(mem, own) && f !in own
    ensures StillOpen(own, mem, mem[f := table])
  {
    hide Indices, Passes, WellFormed;
    forall r, v: nat | r in own && own[r].Root? && PathOpen(mem, r, v) ensures PathOpen(mem[f := table], r, v) {
      FrameKeepsPasses(mem, own, f, table, r, Indices(v));
    }
  }

  /** Walks from tables with a role do not see what is put into a frame without one. */
  lemma {:induction false} FrameInvisible(mem: Memory, own: Owners, f: nat, table: seq<Entry>, s: nat, path: seq<nat>)
    requires WellFormed(mem, own) && f !in own && IsTable(own, s) && path != [] && Depth(own, s) + |path| == 4
    requires forall k | 0 <= k < |path| :: path[k] < ENTRIES
    ensures Walk(mem[f := table], s, path) == Walk(mem, s, path)
    decreases path
  {
    assert At(mem[f := table], s, path[0]) == At(mem, s, path[0]);
    if |path| > 1 && At(mem, s, path[0]).flags.present {
      assert LinkOk(mem, own, s, path[0]);
      FrameInvisible(mem, own, f, table, At(mem, s, path[0]).frame, path[1..]);
    }
  }

  /** With the user bit set in all three links the page lies open. */
  lemma ThreeLinks(mem: Memory, own: Owners, root: nat, t3: nat, t2: nat, t1: nat, p: seq<nat>)
    requires WellFormed(mem, own) && |p| == 4 && forall k | 0 <= k < 4 :: p[k] < ENTRIES
    requires IsTable(own, root) && IsTable(own, t3) && IsTable(own, t2)
    requires Depth(own, root) == 0 && Depth(own, t3) == 1 && Depth(own, t2) == 2
    requires At(mem, root, p[0]).flags.present && At(mem, root, p[0]).frame == t3 && At(mem, root, p[0]).flags.user
    requires At(mem, t3, p[1]).flags.present && At(mem, t3, p[1]).frame == t2 && At(mem, t3, p[1]).flags.user
    requires At(mem, t2, p[2]).flags.present && At(mem, t2, p[2]).frame == t1 && At(mem, t2, p[2]).flags.user
    ensures Passes(mem, root, p)
  {
    hide At;
    assert LinkOk(mem, own, root, p[0]) && LinkOk(mem, own, t3, p[1]) && LinkOk(mem, own, t2, p[2]);
    var q, r, u := p[1..], p[1..][1..], p[1..][1..][1..];
    assert Passes(mem, t1, u);
    assert Passes(mem, t2, r);
    assert Passes(mem, t3, q);
  }

  class Machine {
    const pmm: Pmm.Allocator
    const hhdm: nat
    var mem: Memory
    /** Contents of frames that hold user pages. */
    var bytes: map<nat, seq<bv8>>
    /** Frame of the active PML4; 0 before initialisation. */
    var current: nat
    ghost var own: Owners

    ghost predicate Valid()
      reads this, pmm, pmm.bitmap
    {
      && pmm.Valid() && pmm.totalFrames <= MAX_FRAME
      && WellFormed(mem, own)
      && (forall t | t in own :: 0 < t < pmm.totalFrames && t !in pmm.Free())
      && (current != 0 ==> current in own && own[current].Root?)
    }

    constructor (pmm: Pmm.Allocator, hhdm: nat)
      requires pmm.Valid() && pmm.totalFrames <= MAX_FRAME
      ensures Valid() && this.pmm == pmm && this.hhdm == hhdm
      ensures own == map[] && current == 0 && Private(mem, own)
    {
      this.pmm := pmm;
      this.hhdm := hhdm;
      mem := map[];
      bytes := map[];
      current := 0;
      own := map[];
    }

    /** The start of `vmm_init`: a zeroed PML4, made current. The source halts without a frame. */
    method InitTables() returns (ok: bool)
      requires Valid() && Private(mem, own)
      modifies this`mem, this`own, this`current, pmm`freeMemory, pmm.bitmap
      ensures Valid() && Private(mem, own)
      ensures ok <==> old(pmm.Free()) != {}
      ensures !ok ==> mem == old(mem) && own == old(own) && current == old(current) && pmm.Free() == old(pmm.Free())
      ensures ok ==> current != 0 && current in old(pmm.Free()) && own == old(own)[current := Root]
      ensures ok ==> pmm.Free() == old(pmm.Free()) - {current} && SameLeaves(old(own), old(mem), mem)
      ensures ok ==> forall v: nat :: Leaf(mem, current, v) == NONE
    {
      hide WellFormed, Private, Walk, SameLeaves, Pmm.Allocator.Free, Pmm.Allocator.Valid;
      var addr := pmm.AllocFrame();
      if addr == 0 {
        return false;
      }
      var f := addr / PAGE;
      EmptyRoot(mem, own, f);
      mem := mem[f := Zeros()];
      own := own[f := Root];
      current := f;
      return true;
    }

    method SetRoot(root: nat)
      requires Valid() && (root != 0 ==> root in own && own[root].Root?)
      modifies this`current
      ensures Valid() && current == root
    {
      current := root;
    }

    /** Takes a frame from the allocator and gives it a role. */
    method TakeFrame(ghost role: Owner) returns (f: nat)
      requires Valid() && role.Data?
      modifies this`own, pmm`freeMemory, pmm.bitmap
      ensures Valid()
      ensures f == 0 <==> old(pmm.Free()) == {}
      ensures f == 0 ==> own == old(own) && pmm.Free() == old(pmm.Free())
      ensures f != 0 ==> f in old(pmm.Free()) && own == old(own)[f := role]
      ensures f != 0 ==> pmm.Free() == old(pmm.Free()) - {f}
    {
      hide WellFormed, Pmm.Allocator.Free, Pmm.Allocator.Valid;
      var addr := pmm.AllocFrame();
      f := addr / PAGE;
      if addr != 0 {
        DataAdded(mem, own, f, role);
        own := own[f := role];
      }
    }

    /** One level of the descent of `vmm_map_page`: the table linked at index `i` of `t`, newly
        allocated and zeroed if the link was absent. */
    method EnsureTable(t: nat, i: nat, user: bool) returns (ok: bool, next: nat)
      requires Valid() && IsTable(own, t) && Depth(own, t) < 3 && i < ENTRIES
      modifies this`mem, this`own, pmm`freeMemory, pmm.bitmap
      ensures Valid() && pmm.Free() <= old(pmm.Free())
      ensures forall t | t in own && t !in old(own) :: t in old(pmm.Free())
      ensures !ok ==> old(pmm.Free()) == {} && own == old(own) && mem == old(mem)
      ensures ok ==> Descends(old(own), old(mem), own, mem, t, i, next)
      ensures ok && user ==> At(mem, t, i).flags.user
    {
      hide Grown, WellFormed, Walk, Pmm.Allocator.Free, Pmm.Allocator.Valid;
      TableInMemory(mem, own, t);
      if !At(mem, t, i).flags.present {
        var addr := pmm.AllocFrame();
        if addr == 0 {
          return false, 0;
        }
        next := addr / PAGE;
        LinkDescends(mem, own, t, i, next, user);
        LinkKeepsWellFormed(mem, own, t, i, next, user);
        mem := Linked(mem, t, i, next, user);
        own := own[next := Child(own, t, i, next)];
      } else {
        next := At(mem, t, i).frame;
        OrUserDescends(mem, own, t, i, user);
        OrUserKeepsWellFormed(mem, own, t, i, user);
        mem := Put(mem, t, i, OrUser(At(mem, t, i), user));
      }
      ok := true;
    }

    /** Descends to the last-level table of `v`; fails when the allocator runs dry. */
    method EnsurePath(v: nat, user: bool) returns (ok: bool, pt: nat)
      requires Valid() && current != 0
      modifies this`mem, this`own, pmm`freeMemory, pmm.bitmap
      ensures Valid() && pmm.Free() <= old(pmm.Free()) && Grown(old(own), old(mem), own, mem)
      ensures forall t | t in own && t !in old(own) :: t in old(pmm.Free())
      ensures !ok ==> pmm.Free() == {}
      ensures ok ==> Last(mem, current, Indices(v)) == (true, pt)
      ensures ok && user ==> PathOpen(mem, current, v)
      ensures ok ==> exists top :: pt in own && own[pt] == Table(SpaceOf(current, Indices(v)[0], top), Indices(v)[..3])
    {
      hide Walk, WellFormed, Private, SameLeaves, SameShares, StillOpen, Passes, At, Last, Indices, Pmm.Allocator.Free, Pmm.Allocator.Valid;
      var p := Indices(v);
      pt := 0;
      ghost var own0, mem0 := own, mem;
      GrownSelf(own, mem);
      var pdpt, pd;
      ok, pdpt := EnsureTable(current, p[0], user);
      if !ok {
        return;
      }
      ghost var own1, mem1 := own, mem;
      ok, pd := EnsureTable(pdpt, p[1], user);
      if !ok {
        return;
      }
      GrownTransitive(own0, mem0, own1, mem1, own, mem);
      ghost var own2, mem2 := own, mem;
      ok, pt := EnsureTable(pd, p[2], user);
      if !ok {
        return;
      }
      GrownTransitive(own0, mem0, own2, mem2, own, mem);
      Descent(own0, mem0, own1, mem1, own2, mem2, own, mem, current, pdpt, pd, pt, p);
      if user {
        ThreeLinks(mem, own, current, pdpt, pd, pt, p);
      }
    }

    /** Maps the page of `v` to the frame of `phys` in the active address space. */
    method MapPage(v: nat, phys: nat, flags: Flags) returns (r: Outcome)
      requires Valid()
      modifies this`mem, this`own, pmm`freeMemory, pmm.bitmap
      ensures Valid() && Extends(old(own), own) && pmm.Free() <= old(pmm.Free())
      ensures forall t | t in own && t !in old(own) :: own[t].Table? && t in old(pmm.Free())
      ensures r.NotReady? <==> current == 0
      ensures r.NotReady? ==> mem == old(mem) && own == old(own) && pmm.Free() == old(pmm.Free())
      ensures SameShares(old(own), old(mem), mem) && StillOpen(old(own), old(mem), mem)
      ensures r.Mapped? && flags.user ==> PathOpen(mem, current, v)
      ensures r.Halted? ==> pmm.Free() == {} && SameLeaves(old(own), old(mem), mem)
      ensures r.Mapped? ==>
                OnlyPage(old(own), old(mem), mem, current, v, Entry(phys / PAGE % MAX_FRAME, flags))
      ensures old(Private(mem, own))
              && (LowerHalf(v) && flags.present ==>
                    phys / PAGE % MAX_FRAME in old(own) && old(own)[phys / PAGE % MAX_FRAME] == Data(current))
              ==> Private(mem, own)
    {
      hide Walk, Indices, Page, WellFormed, Private, At, Last, Shares, PathOpen, Pmm.Allocator.Free, Pmm.Allocator.Valid;
      if current == 0 {
        return NotReady;
      }
      var ok, pt := EnsurePath(v, flags.user);
      if !ok {
        return Halted;
      }
      var e := Entry(phys / PAGE % MAX_FRAME, flags);
      ghost var mid := mem;
      var i := Indices(v)[3];
      LeafWriteOnlyPage(mem, own, current, v, e);
      LeafKeepsWellFormed(mem, own, pt, i, e);
      LeafKeepsShares(mem, own, pt, i, e);
      LeafKeepsOpen(mem, own, pt, i, e);
      if Private(mem, own) && (LowerHalf(v) && flags.present ==> e.frame in own && own[e.frame] == Data(current)) {
        PutKeepsPrivate(mem, own, pt, i, e);
      }
      mem := Put(mem, pt, i, e);
      OnlyPageAfterGrowth(old(own), old(mem), own, mid, mem, current, v, e);
      return Mapped;
    }

    /** Clears the leaf entry of the page of `v`, if all its tables exist. */
    method UnmapPage(v: nat)
      requires Valid()
      modifies this`mem
      ensures Valid()
      ensures current == 0 ==> mem == old(mem)
      ensures current != 0 ==> OnlyPage(own, old(mem), mem, current, v, NONE)
      ensures SameShares(own, old(mem), mem) && StillOpen(own, old(mem), mem)
      ensures old(Private(mem, own)) ==> Private(mem, own)
    {
      hide Indices, Page, WellFormed, Private, OnlyPage, Shares, PathOpen;
      if current == 0 {
        return;
      }
      var p := Indices(v);
      NoLast(mem, own, current, v);
      var e4 := At(mem, current, p[0]);
      if !e4.flags.present {
        LastMissing(mem, current, p);
        return;
      }
      LastStep(mem, current, p);
      var e3 := At(mem, e4.frame, p[1]);
      if !e3.flags.present {
        LastMissing(mem, e4.frame, p[1..]);
        return;
      }
      LastStep(mem, e4.frame, p[1..]);
      var e2 := At(mem, e3.frame, p[2]);
      if !e2.flags.present {
        LastMissing(mem, e3.frame, p[1..][1..]);
        return;
      }
      LastOfFour(mem, current, e4.frame, e3.frame, e2.frame, p);
      LeafWriteOnlyPage(mem, own, current, v, NONE);
      LeafKeepsWellFormed(mem, own, e2.frame, p[3], NONE);
      LeafKeepsShares(mem, own, e2.frame, p[3], NONE);
      LeafKeepsOpen(mem, own, e2.frame, p[3], NONE);
      if Private(mem, own) {
        PutKeepsPrivate(mem, own, e2.frame, p[3], NONE);
      }
      mem := Put(mem, e2.frame, p[3], NONE);
    }

    /** The kernel's own address translation: a shortcut inside the direct-map window, a walk of
        the active tables elsewhere. */
    method VirtToPhys(v: nat) returns (phys: nat)
      requires Valid()
      ensures hhdm <= v < hhdm + WINDOW ==> phys == v - hhdm
      ensures !(hhdm <= v < hhdm + WINDOW) && current == 0 ==> phys == 0
      ensures !(hhdm <= v < hhdm + WINDOW) && current != 0 ==>
                && (!Leaf(mem, current, v).flags.present ==> phys == 0)
                && (Leaf(mem, current, v).flags.present ==> phys == Leaf(mem, current, v).frame * PAGE + PageOffset(v))
    {
      hide Walk, WellFormed, Indices;
      if v >= hhdm && v < hhdm + WINDOW {
        return v - hhdm;
      }
      if current == 0 {
        return 0;
      }
      TranslateIsLeaf(mem, own, current, v);
      var p := Indices(v);
      var e4 := At(mem, current, p[0]);
      if !e4.flags.present {
        return 0;
      }
      var e3 := At(mem, e4.frame, p[1]);
      if !e3.flags.present {
        return 0;
      }
      if e3.flags.large {
        return e3.frame * PAGE + v % 0x4000_0000;
      }
      var e2 := At(mem, e3.frame, p[2]);
      if !e2.flags.present {
        return 0;
      }
      if e2.flags.large {
        return e2.frame * PAGE + v % 0x20_0000;
      }
      var e1 := At(mem, e2.frame, p[3]);
      if !e1.flags.present {
        return 0;
      }
      return e1.frame * PAGE + v % PAGE;
    }
  }
}
