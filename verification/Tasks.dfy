/** Task creation: each user task gets a PML4 with a private lower half and the shared kernel
    half; no task can reach another task's lower-half tables or pages. */
module Tasks {
  import opened Pte
  import opened PageTables
  import opened Vmm
  import Pmm
  import Bitmap
  import Elf
  import opened DirectMap
  import opened TaskTypes

  const MAX_TASKS: nat := 8
  const STACK_PAGE: nat := 0x3F_F000
  const QUANTUM: nat := 10

  datatype Task = Task(id: nat, state: TaskState, ticks: nat, pml4: nat)

  // ---- Separation ------------------------------------------------------------------------

  lemma LeafOwner(mem: Memory, own: Owners, root: nat, v: nat)
    requires WellFormed(mem, own) && Private(mem, own) && root in own && own[root].Root?
    requires LowerHalf(v) && Leaf(mem, root, v).flags.present
    ensures Leaf(mem, root, v).frame in own && own[Leaf(mem, root, v).frame] == Data(root)
    ensures Last(mem, root, Indices(v)).0
    ensures Below(own, Last(mem, root, Indices(v)).1, User(root), Indices(v)[..3])
  {
    hide Walk, Last, Indices, WellFormed;
    RootLastOwner(mem, own, root, Indices(v));
    WalkLast(mem, root, Indices(v));
    assert LeafOk(mem, own, Last(mem, root, Indices(v)).1, Indices(v)[3]);
  }

  /** A path of table indices into the lower half, one to three levels deep. */
  predicate LowerPath(p: seq<nat>) {
    1 <= |p| <= 3 && p[0] < KERNEL_FIRST && forall k | 0 <= k < |p| :: p[k] < ENTRIES
  }

  /** The lower-half tables of two address spaces are different frames, at every level and whatever
      is mapped below them; so are those of one address space for different paths. */
  lemma TablesDisjoint(mem: Memory, own: Owners, r: nat, s: nat, p: seq<nat>, q: seq<nat>)
    requires WellFormed(mem, own) && r in own && own[r].Root? && s in own && own[s].Root?
    requires LowerPath(p) && LowerPath(q) && (r, p) != (s, q)
    requires Reach(mem, r, p).0 && Reach(mem, s, q).0
    ensures Reach(mem, r, p).1 != Reach(mem, s, q).1
    ensures Reach(mem, r, p).1 != s
  {
    hide Reach, WellFormed, At;
    RootReachOwner(mem, own, r, p);
    RootReachOwner(mem, own, s, q);
  }

  /** A lower-half page is no table of any address space, at any level, and no PML4. */
  lemma PageIsNoTable(mem: Memory, own: Owners, r: nat, v: nat, s: nat, q: seq<nat>)
    requires WellFormed(mem, own) && Private(mem, own) && r in own && own[r].Root? && s in own && own[s].Root?
    requires LowerHalf(v) && Leaf(mem, r, v).flags.present
    requires |q| <= 3 && (forall k | 0 <= k < |q| :: q[k] < ENTRIES) && Reach(mem, s, q).0
    ensures Leaf(mem, r, v).frame != Reach(mem, s, q).1
  {
    hide Leaf, WellFormed, Private, LowerHalf, At, Last, Indices;
    LeafOwner(mem, own, r, v);
    if q != [] {
      RootReachOwner(mem, own, s, q);
    }
  }

  /** Two address spaces have no lower-half page in common. */
  lemma PagesDisjoint(mem: Memory, own: Owners, r: nat, s: nat, v: nat, w: nat)
    requires WellFormed(mem, own) && Private(mem, own) && r != s
    requires r in own && own[r].Root? && s in own && own[s].Root?
    requires LowerHalf(v) && LowerHalf(w)
    requires Leaf(mem, r, v).flags.present && Leaf(mem, s, w).flags.present
    ensures Leaf(mem, r, v).frame != Leaf(mem, s, w).frame
  {
    hide Leaf, Last, Indices, WellFormed, Private, LowerHalf;
    LeafOwner(mem, own, r, v);
    LeafOwner(mem, own, s, w);
  }

  /** The lower halves of two address spaces have no frame in common: no table with a table, no page
      with a page, no table with a page, at any level. */
  ghost predicate Separate(mem: Memory, r: nat, s: nat) {
    && (forall p, q | LowerPath(p) && LowerPath(q) && Reach(mem, r, p).0 && Reach(mem, s, q).0 ::
          Reach(mem, r, p).1 != Reach(mem, s, q).1)
    && (forall v: nat, w: nat | LowerHalf(v) && LowerHalf(w) && Leaf(mem, r, v).flags.present && Leaf(mem, s, w).flags.present ::
          Leaf(mem, r, v).frame != Leaf(mem, s, w).frame)
    && (forall v: nat, q | LowerHalf(v) && Leaf(mem, r, v).flags.present && LowerPath(q) && Reach(mem, s, q).0 ::
          Leaf(mem, r, v).frame != Reach(mem, s, q).1)
    && (forall v: nat, q | LowerHalf(v) && Leaf(mem, s, v).flags.present && LowerPath(q) && Reach(mem, r, q).0 ::
          Leaf(mem, s, v).frame != Reach(mem, r, q).1)
  }

  lemma SpacesDisjoint(mem: Memory, own: Owners, r: nat, s: nat)
    requires WellFormed(mem, own) && Private(mem, own) && r != s
    requires r in own && own[r].Root? && s in own && own[s].Root?
    ensures Separate(mem, r, s)
  {
    hide Leaf, Reach, WellFormed, Private, LowerHalf;
    forall p, q | LowerPath(p) && LowerPath(q) && Reach(mem, r, p).0 && Reach(mem, s, q).0
      ensures Reach(mem, r, p).1 != Reach(mem, s, q).1
    {
      TablesDisjoint(mem, own, r, s, p, q);
    }
    forall v: nat, w: nat | LowerHalf(v) && LowerHalf(w) && Leaf(mem, r, v).flags.present && Leaf(mem, s, w).flags.present
      ensures Leaf(mem, r, v).frame != Leaf(mem, s, w).frame
    {
      PagesDisjoint(mem, own, r, s, v, w);
    }
    forall v: nat, q | LowerHalf(v) && Leaf(mem, r, v).flags.present && LowerPath(q) && Reach(mem, s, q).0
      ensures Leaf(mem, r, v).frame != Reach(mem, s, q).1
    {
      PageIsNoTable(mem, own, r, v, s, q);
    }
    forall v: nat, q | LowerHalf(v) && Leaf(mem, s, v).flags.present && LowerPath(q) && Reach(mem, r, q).0
      ensures Leaf(mem, s, v).frame != Reach(mem, r, q).1
    {
      PageIsNoTable(mem, own, s, v, r, q);
    }
  }

  // ---- A fresh PML4 ----------------------------------------------------------------------

  /** The PML4 of a new task: empty lower half, kernel half copied. */
  ghost predicate FreshRoot(table: seq<Entry>, kernel: seq<Entry>) {
    && |table| == |kernel| == ENTRIES
    && (forall i | 0 <= i < KERNEL_FIRST :: table[i] == NONE)
    && (forall i | KERNEL_FIRST <= i < ENTRIES :: table[i] == kernel[i])
  }

  method BuildRoot(kernel: seq<Entry>) returns (table: seq<Entry>)
    requires |kernel| == ENTRIES
    ensures FreshRoot(table, kernel)
  {
    var buf := new Entry[ENTRIES](_ => NONE);
    for i := 0 to KERNEL_FIRST
      invariant forall k | 0 <= k < i :: buf[k] == NONE
    {
      buf[i] := NONE;
    }
    for i := KERNEL_FIRST to ENTRIES
      invariant forall k | 0 <= k < KERNEL_FIRST :: buf[k] == NONE
      invariant forall k | KERNEL_FIRST <= k < i :: buf[k] == kernel[k]
    {
      buf[i] := kernel[i];
    }
    table := buf[..];
  }

  lemma RootAdded(mem: Memory, own: Owners, kernel: nat, f: nat, table: seq<Entry>)
    requires WellFormed(mem, own) && kernel in own && own[kernel].Root? && f !in own
    requires FreshRoot(table, mem[kernel])
    ensures WellFormed(mem[f := table], own[f := Root])
    ensures Private(mem, own) ==> Private(mem[f := table], own[f := Root])
  {
    var mem', own' := mem[f := table], own[f := Root];
    forall t, i | t in own' && !own'[t].Data? && 0 <= i < ENTRIES && Depth(own', t) < 3 && At(mem', t, i).flags.present
      ensures LinkOk(mem', own', t, i)
    {
      if t == f {
        assert At(mem', t, i) == At(mem, kernel, i);
        assert LinkOk(mem, own, kernel, i);
      } else {
        assert At(mem', t, i) == At(mem, t, i);
        assert LinkOk(mem, own, t, i);
      }
    }
    if Private(mem, own) {
      forall t, i | t in own' && own'[t].Table? && own'[t].space.User? && |own'[t].path| == 3 && 0 <= i < ENTRIES
                 && At(mem', t, i).flags.present
        ensures LeafOk(mem', own', t, i)
      {
        assert At(mem', t, i) == At(mem, t, i);
        assert LeafOk(mem, own, t, i);
      }
    }
  }

  /** The new address space starts empty below and equal to the kernel's above. */
  lemma RootLeaves(mem: Memory, own: Owners, kernel: nat, f: nat, table: seq<Entry>, v: nat)
    requires WellFormed(mem, own) && kernel in own && own[kernel].Root? && f !in own
    requires FreshRoot(table, mem[kernel])
    ensures Leaf(mem[f := table], f, v) == if LowerHalf(v) then NONE else Leaf(mem, kernel, v)
  {
    hide Indices;
    var p := Indices(v);
    var mem' := mem[f := table];
    WalkStep(mem', f, p);
    WalkStep(mem, kernel, p);
    if !LowerHalf(v) {
      assert At(mem', f, p[0]) == At(mem, kernel, p[0]);
      if At(mem, kernel, p[0]).flags.present {
        assert LinkOk(mem, own, kernel, p[0]);
        FrameInvisible(mem, own, f, table, At(mem, kernel, p[0]).frame, p[1..]);
      }
    }
  }

  ghost predicate StartsAs(mem': Memory, root: nat, mem: Memory, kernel: nat) {
    forall v: nat :: Leaf(mem', root, v) == if LowerHalf(v) then NONE else Leaf(mem, kernel, v)
  }

  /** Allocates and fills the PML4 of a new address space; 0 when the allocator runs dry. */
  method NewRoot(m: Machine) returns (f: nat)
    requires m.Valid() && Private(m.mem, m.own) && m.current != 0
    modifies m`mem, m`own, m.pmm`freeMemory, m.pmm.bitmap
    ensures m.Valid() && Private(m.mem, m.own)
    ensures f == 0 <==> old(m.pmm.Free()) == {}
    ensures f == 0 ==> m.own == old(m.own) && m.mem == old(m.mem) && m.pmm.Free() == old(m.pmm.Free())
    ensures f != 0 ==> f in old(m.pmm.Free()) && m.pmm.Free() == old(m.pmm.Free()) - {f}
    ensures f != 0 ==> f !in old(m.own) && m.own == old(m.own)[f := Root] && f < m.pmm.totalFrames
    ensures f != 0 ==> SameLeaves(old(m.own), old(m.mem), m.mem) && StartsAs(m.mem, f, old(m.mem), m.current)
    ensures StillOpen(old(m.own), old(m.mem), m.mem)
  {
    hide Walk, Indices, Private, PathOpen, Pmm.Allocator.Free, Pmm.Allocator.Valid;
    var addr := m.pmm.AllocFrame();
    if addr == 0 {
      return 0;
    }
    f := addr / PAGE;
    var table := BuildRoot(m.mem[m.current]);
    RootAdded(m.mem, m.own, m.current, f, table);
    FrameKeepsOpen(m.mem, m.own, f, table);
    forall r, v: nat | r in m.own && m.own[r].Root? ensures Leaf(m.mem[f := table], r, v) == Leaf(m.mem, r, v) {
      FrameInvisible(m.mem, m.own, f, table, r, Indices(v));
    }
    forall v: nat ensures Leaf(m.mem[f := table], f, v) == if LowerHalf(v) then NONE else Leaf(m.mem, m.current, v) {
      RootLeaves(m.mem, m.own, m.current, f, table, v);
    }
    m.mem := m.mem[f := table];
    m.own := m.own[f := Root];
  }

  lemma RootRemoved(mem: Memory, own: Owners, f: nat)
    requires WellFormed(mem, own) && f in own && own[f].Root?
    ensures WellFormed(mem, own - {f})
    ensures Private(mem, own) ==> Private(mem, own - {f})
  {
    var own' := own - {f};
    forall t, i | t in own' && !own'[t].Data? && 0 <= i < ENTRIES && Depth(own', t) < 3 && At(mem, t, i).flags.present
      ensures LinkOk(mem, own', t, i)
    {
      assert LinkOk(mem, own, t, i);
    }
    if Private(mem, own) {
      forall t, i | t in own' && own'[t].Table? && own'[t].space.User? && |own'[t].path| == 3 && 0 <= i < ENTRIES
                 && At(mem, t, i).flags.present
        ensures LeafOk(mem, own', t, i)
      {
        assert LeafOk(mem, own, t, i);
      }
    }
  }

  /** Gives back the PML4 of a task that could not be completed. */
  method DropRoot(m: Machine, f: nat)
    requires m.Valid() && Private(m.mem, m.own) && f in m.own && m.own[f].Root? && m.current != f
    modifies m`own, m.pmm`freeMemory, m.pmm.bitmap
    ensures m.Valid() && Private(m.mem, m.own) && m.own == old(m.own) - {f}
    ensures m.pmm.Free() == old(m.pmm.Free()) + {f}
  {
    hide WellFormed, Private, Pmm.Allocator.Free, Pmm.Allocator.Valid;
    RootRemoved(m.mem, m.own, f);
    FrameBounds(m, f);
    var ok := m.pmm.FreeFrame(f * PAGE);
    m.own := m.own - {f};
  }

  lemma FrameBounds(m: Machine, f: nat)
    requires m.Valid() && f in m.own
    ensures f * PAGE != 0 && f * PAGE % PAGE == 0 && f * PAGE / PAGE == f
    ensures f < m.pmm.totalFrames && f !in m.pmm.Free()
  {
    hide WellFormed, Pmm.Allocator.Free, Pmm.Allocator.Valid;
    FrameAddress(f);
  }

  lemma FrameAddress(f: nat)
    ensures f * PAGE % PAGE == 0 && f * PAGE / PAGE == f && (f != 0 ==> f * PAGE != 0)
  {
  }

  /** Maps one frame as the stack page of the address space of `root`, then restores the active
      address space. */
  method MapStack(m: Machine, root: nat) returns (ok: bool, halted: bool)
    requires m.Valid() && Private(m.mem, m.own) && m.current != 0
    requires root in m.own && m.own[root].Root? && root != 0
    modifies m`mem, m`own, m`current, m.pmm`freeMemory, m.pmm.bitmap
    ensures m.Valid() && Private(m.mem, m.own) && Extends(old(m.own), m.own)
    ensures forall t | t in m.own && t !in old(m.own) :: !m.own[t].Root? && t in old(m.pmm.Free())
    ensures Elf.OthersSame(old(m.own), old(m.mem), m.mem, root)
    ensures StillOpen(old(m.own), old(m.mem), m.mem) && (ok ==> PathOpen(m.mem, root, STACK_PAGE))
    ensures m.pmm.Free() <= old(m.pmm.Free()) && (halted ==> m.pmm.Free() == {})
    ensures !ok && !halted <==> old(m.pmm.Free()) == {}
    ensures !halted ==> m.current == old(m.current)
    ensures !ok && !halted ==> m.own == old(m.own) && m.mem == old(m.mem) && m.pmm.Free() == old(m.pmm.Free())
    ensures ok ==> !halted && exists f ::
              && f !in old(m.own) && f in m.own && m.own[f] == Data(root)
              && OnlyPage(old(m.own), old(m.mem), m.mem, root, STACK_PAGE, Entry(f, Flags(true, true, true, false)))
  {
    hide Leaf, Page, WellFormed, Private, LowerHalf, SameLeaves, Elf.OthersSame, OnlyPage, StillOpen, PathOpen, Pmm.Allocator.Free, Pmm.Allocator.Valid;
    ghost var own0, mem0 := m.own, m.mem;
    StackPageIsLow();
    OpenSelf(own0, mem0);
    NobodyMoved(own0, mem0, root);
    var f := m.TakeFrame(Data(root));
    if f == 0 {
      return false, false;
    }
    Elf.PrivateGrows(m.mem, own0, m.own);
    ghost var own1 := m.own;
    Elf.FrameOfAddress(f);
    var saved := m.current;
    m.SetRoot(root);
    var o := m.MapPage(STACK_PAGE, f * PAGE, Flags(true, true, true, false));
    OpenOlder(own0, own1, mem0, m.mem);
    if o.Halted? {
      OthersHalted(own0, own1, mem0, m.mem, root);
      return false, true;
    }
    OthersAfterMap(own0, own1, mem0, m.mem, root, STACK_PAGE, Entry(f, Flags(true, true, true, false)));
    m.SetRoot(saved);
    return true, false;
  }

  lemma StackPageIsLow()
    ensures LowerHalf(STACK_PAGE)
  {
  }

  lemma OpenSelf(own: Owners, mem: Memory)
    ensures StillOpen(own, mem, mem)
  {
  }

  lemma OpenOlder(own0: Owners, own1: Owners, mem: Memory, mem': Memory)
    requires Extends(own0, own1) && StillOpen(own1, mem, mem')
    ensures StillOpen(own0, mem, mem')
  {
    hide PathOpen;
  }

  lemma OpenTwice(own0: Owners, own1: Owners, mem0: Memory, mem1: Memory, mem2: Memory)
    requires Extends(own0, own1) && StillOpen(own0, mem0, mem1) && StillOpen(own1, mem1, mem2)
    ensures StillOpen(own0, mem0, mem2)
  {
    hide PathOpen;
  }

  lemma NobodyMoved(own: Owners, mem: Memory, root: nat)
    ensures Elf.OthersSame(own, mem, mem, root)
  {
  }

  lemma OthersHalted(own0: Owners, own1: Owners, mem: Memory, mem': Memory, root: nat)
    requires Extends(own0, own1) && SameLeaves(own1, mem, mem')
    ensures Elf.OthersSame(own0, mem, mem', root)
  {
    hide Leaf;
  }

  lemma OthersAfterMap(own0: Owners, own1: Owners, mem: Memory, mem': Memory, root: nat, v: nat, e: Entry)
    requires Extends(own0, own1) && LowerHalf(v) && OnlyPage(own1, mem, mem', root, v, e) && root in own0
    ensures Elf.OthersSame(own0, mem, mem', root) && OnlyPage(own0, mem, mem', root, v, e)
  {
    hide Leaf, Page, LowerHalf, Shares;
  }

  /** What a new address space shows: its stack page, nothing else below, the kernel above. */
  ghost predicate NewSpace(own: Owners, own': Owners, mem: Memory, mem': Memory, kernel: nat, root: nat) {
    && root !in own && root in own' && own'[root].Root?
    && (forall v: nat | !LowerHalf(v) :: Leaf(mem', root, v) == Leaf(mem, kernel, v))
    && (forall v: nat | LowerHalf(v) && Page(v) != Page(STACK_PAGE) :: Leaf(mem', root, v) == NONE)
    && Leaf(mem', root, STACK_PAGE).flags == Flags(true, true, true, false)
    && Leaf(mem', root, STACK_PAGE).frame !in own
    && PathOpen(mem', root, STACK_PAGE)
  }

  lemma NewSpaceBuilt(own: Owners, own1: Owners, own2: Owners, mem: Memory, mem1: Memory, mem2: Memory, kernel: nat, root: nat, f: nat)
    requires root !in own && own1 == own[root := Root] && Extends(own1, own2) && f !in own1
    requires SameLeaves(own, mem, mem1) && StartsAs(mem1, root, mem, kernel)
    requires OnlyPage(own1, mem1, mem2, root, STACK_PAGE, Entry(f, Flags(true, true, true, false)))
    requires PathOpen(mem2, root, STACK_PAGE)
    ensures NewSpace(own, own2, mem, mem2, kernel, root)
  {
    hide Leaf, Page, Indices, Shares, PathOpen;
    StackPageIsLow();
    Elf.SharesSelf(mem1, root, STACK_PAGE);
    forall v: nat | !LowerHalf(v) ensures Page(v) != Page(STACK_PAGE) {
      IndicesIffPage(v, STACK_PAGE);
    }
  }

  lemma OldLeavesKept(own: Owners, own1: Owners, mem: Memory, mem1: Memory, mem2: Memory, root: nat)
    requires root !in own && own1 == own[root := Root]
    requires SameLeaves(own, mem, mem1) && Elf.OthersSame(own1, mem1, mem2, root)
    ensures SameLeaves(own, mem, mem2)
  {
    hide Leaf;
  }

  /** A complete new address space; root 0 when the allocator has fewer than two frames, and then
      nothing is kept. With two or more, only running out of frames for tables can stop it. */
  method BuildSpace(m: Machine) returns (root: nat, halted: bool)
    requires m.Valid() && Private(m.mem, m.own) && m.current != 0
    modifies m`mem, m`own, m`current, m.pmm`freeMemory, m.pmm.bitmap
    ensures !halted ==> m.Valid() && Private(m.mem, m.own) && m.current == old(m.current)
    ensures m.Valid() && m.pmm.Free() <= old(m.pmm.Free()) && (halted ==> m.pmm.Free() == {})
    ensures SameLeaves(old(m.own), old(m.mem), m.mem) && Extends(old(m.own), m.own) && StillOpen(old(m.own), old(m.mem), m.mem)
    ensures forall t | t in m.own && t !in old(m.own) :: t in old(m.pmm.Free()) && (m.own[t].Root? ==> t == root || halted)
    ensures root == 0 && !halted <==> |old(m.pmm.Free())| <= 1
    ensures root == 0 && !halted ==> m.own == old(m.own) && m.pmm.Free() == old(m.pmm.Free())
    ensures root != 0 ==>
              && !halted && root !in old(m.own) && root in m.own && m.own[root].Root?
              && NewSpace(old(m.own), m.own, old(m.mem), m.mem, m.current, root)
  {
    hide Leaf, Page, WellFormed, Private, LowerHalf, OnlyPage, Elf.OthersSame, StartsAs, NewSpace, SameLeaves, Extends, StillOpen, PathOpen, Pmm.Allocator.Free;
    ghost var own0, mem0, free0 := m.own, m.mem, m.pmm.Free();
    SameAsSelf(own0, mem0);
    OpenSelf(own0, mem0);
    root := NewRoot(m);
    FewFrames(free0, root);
    if root == 0 {
      return 0, false;
    }
    ExtendsOne(own0, root);
    root, halted := FinishSpace(m, root, own0, mem0, free0);
  }

  lemma FewFrames(free: set<nat>, x: nat)
    ensures free == {} ==> |free| <= 1
    ensures x in free ==> (free - {x} == {} <==> |free| <= 1)
  {
    if x in free {
      assert |free - {x}| == |free| - 1;
    }
  }

  lemma ExtendsOne(own: Owners, f: nat)
    requires f !in own
    ensures Extends(own, own[f := Root])
  {
  }

  lemma ExtendsTwice(own0: Owners, own1: Owners, own2: Owners)
    requires Extends(own0, own1) && Extends(own1, own2)
    ensures Extends(own0, own2)
  {
  }

  /** The stack of a new address space, or its PML4 given back. */
  method FinishSpace(m: Machine, f: nat, ghost own0: Owners, ghost mem0: Memory, ghost free0: set<nat>) returns (root: nat, halted: bool)
    requires m.Valid() && Private(m.mem, m.own) && m.current != 0 && m.current in own0 && m.current != f
    requires f != 0 && f !in own0 && f in free0 && m.own == own0[f := Root] && m.pmm.Free() == free0 - {f}
    requires SameLeaves(own0, mem0, m.mem) && StillOpen(own0, mem0, m.mem) && StartsAs(m.mem, f, mem0, m.current)
    modifies m`mem, m`own, m`current, m.pmm`freeMemory, m.pmm.bitmap
    ensures m.Valid() && Private(m.mem, m.own) && (!halted ==> m.current == old(m.current))
    ensures m.pmm.Free() <= free0 && (halted ==> m.pmm.Free() == {})
    ensures SameLeaves(own0, mem0, m.mem) && StillOpen(own0, mem0, m.mem) && Extends(own0, m.own)
    ensures forall t | t in m.own && t !in own0 :: t in free0 && (m.own[t].Root? ==> t == root || halted)
    ensures root == 0 && !halted <==> free0 - {f} == {}
    ensures root == 0 && !halted ==> m.own == own0 && m.pmm.Free() == free0
    ensures root != 0 ==> !halted && root == f && f in m.own && m.own[f].Root? && NewSpace(own0, m.own, mem0, m.mem, m.current, f)
  {
    hide Leaf, Page, WellFormed, Private, LowerHalf, OnlyPage, Elf.OthersSame, StartsAs, NewSpace, SameLeaves, Extends, StillOpen, PathOpen, Pmm.Allocator.Free, Pmm.Allocator.Valid;
    ghost var own1, mem1 := m.own, m.mem;
    ExtendsOne(own0, f);
    var ok;
    ok, halted := MapStack(m, f);
    OldLeavesKept(own0, own1, mem0, mem1, m.mem, f);
    OpenTwice(own0, own1, mem0, mem1, m.mem);
    ExtendsTwice(own0, own1, m.own);
    if halted {
      return 0, true;
    }
    if !ok {
      DropRoot(m, f);
      assert m.own == own0;
      SameAsSelf(own0, m.mem);
      return 0, false;
    }
    ghost var g :| g !in own1 && g in m.own && m.own[g] == Data(f)
      && OnlyPage(own1, mem1, m.mem, f, STACK_PAGE, Entry(g, Flags(true, true, true, false)));
    NewSpaceBuilt(own0, own1, m.own, mem0, mem1, m.mem, m.current, f, g);
    StillRoot(own1, m.own, f);
    return f, false;
  }

  lemma StillRoot(own: Owners, own': Owners, f: nat)
    requires Extends(own, own') && f in own
    ensures f in own' && own'[f] == own[f]
  {
  }

  class Kernel {
    const m: Machine
    const table: array<Task>
    /** The boot loader's memory map, and where the kernel's own text and data lie. */
    const memmap: seq<Pmm.Entry>
    const textLow: nat
    const textHigh: nat
    var nextId: nat

    ghost predicate Valid()
      reads this, table, m, m.pmm, m.pmm.bitmap
    {
      && m.Valid() && Private(m.mem, m.own) && m.current != 0
      && table.Length == MAX_TASKS && table as object != m.pmm.bitmap as object
      && RootsOk(table[..], m.own)
    }

    /** The kernel still reaches every frame it works with, whichever address space is active: what
        the page tables of the model hold is what the kernel reads and writes. */
    ghost predicate Grounded()
      reads this, table, m, m.pmm, m.pmm.bitmap
    {
      Valid() && Shown(m.mem, m.own, m.pmm.Free(), m.hhdm, memmap)
    }

    /** Any two live tasks have no lower-half frame in common. */
    ghost predicate AllSeparate()
      reads this, table, m, m.pmm, m.pmm.bitmap
    {
      table.Length == MAX_TASKS
      && forall i, j | 0 <= i < j < MAX_TASKS && table[i].state != Unused && table[j].state != Unused ::
           Separate(m.mem, table[i].pml4, table[j].pml4)
    }

    constructor (m: Machine, memmap: seq<Pmm.Entry>, textLow: nat, textHigh: nat)
      requires m.Valid() && Private(m.mem, m.own) && m.current != 0
      ensures Valid() && fresh(table) && this.m == m && nextId == 0
      ensures this.memmap == memmap && this.textLow == textLow && this.textHigh == textHigh
      ensures forall i | 0 <= i < MAX_TASKS :: table[i].state == Unused
    {
      this.m := m;
      this.memmap := memmap;
      this.textLow := textLow;
      this.textHigh := textHigh;
      table := new Task[MAX_TASKS](_ => Task(0, Unused, 0, 0));
      nextId := 0;
    }

    /** Claims the first unused slot and stamps it with a fresh identifier. */
    method AllocSlot() returns (slot: int)
      requires table.Length == MAX_TASKS
      modifies table, this`nextId
      ensures slot == -1 <==> forall i | 0 <= i < MAX_TASKS :: old(table[i].state) != Unused
      ensures slot == -1 ==> table[..] == old(table[..]) && nextId == old(nextId)
      ensures slot != -1 ==>
                && 0 <= slot < MAX_TASKS && old(table[slot].state) == Unused
                && (forall i | 0 <= i < slot :: old(table[i].state) != Unused)
                && table[..] == old(table[..])[slot := Task(old(nextId), Ready, QUANTUM, old(table[slot].pml4))]
                && nextId == (old(nextId) + 1) % 0x1_0000_0000
    {
      for i := 0 to MAX_TASKS
        invariant table[..] == old(table[..]) && nextId == old(nextId)
        invariant forall k | 0 <= k < i :: old(table[k].state) != Unused
      {
        if table[i].state == Unused {
          table[i] := Task(nextId, Ready, QUANTUM, table[i].pml4);
          nextId := (nextId + 1) % 0x1_0000_0000;
          return i;
        }
      }
      return -1;
    }

    /** The first live task with this identifier. */
    method Get(id: nat) returns (slot: int)
      requires table.Length == MAX_TASKS
      ensures slot == -1 <==> forall i | 0 <= i < MAX_TASKS :: table[i].state == Unused || table[i].id != id
      ensures slot != -1 ==>
                && 0 <= slot < MAX_TASKS && table[slot].state != Unused && table[slot].id == id
                && forall i | 0 <= i < slot :: table[i].state == Unused || table[i].id != id
    {
      for i := 0 to MAX_TASKS
        invariant forall k | 0 <= k < i :: table[k].state == Unused || table[k].id != id
      {
        if table[i].state != Unused && table[i].id == id {
          return i;
        }
      }
      return -1;
    }

    /** Creates a user task; the two heap allocations that precede the page tables are given by
        their outcomes. A new task comes with an address space of its own, and no translation of
        any existing address space changes, whatever the outcome. */
    method CreateUser(capTable: bool, kernelStack: bool) returns (slot: int, halted: bool)
      requires Valid()
      modifies table, this`nextId, m`mem, m`own, m`current, m.pmm`freeMemory, m.pmm.bitmap
      ensures !halted ==> Valid() && m.current == old(m.current)
      ensures SameLeaves(old(m.own), old(m.mem), m.mem) && Extends(old(m.own), m.own)
      ensures StillOpen(old(m.own), old(m.mem), m.mem)
      ensures -1 <= slot < MAX_TASKS && (halted ==> slot == -1)
      ensures m.Valid() && m.pmm.Free() <= old(m.pmm.Free()) && (halted ==> m.pmm.Free() == {})
      ensures slot == -1 && !halted <==>
                || (forall i | 0 <= i < MAX_TASKS :: old(table[i].state) != Unused)
                || !capTable || !kernelStack || |old(m.pmm.Free())| <= 1
      ensures slot == -1 && !halted ==> m.own == old(m.own) && m.pmm.Free() == old(m.pmm.Free())
      ensures old(Grounded()) && !halted ==> Grounded()
      ensures slot == -1 && !halted ==>
                forall i | 0 <= i < MAX_TASKS :: table[i].state == old(table[i].state)
      ensures slot != -1 ==>
                && old(table[slot].state) == Unused && table[slot].state == Ready && table[slot].id == old(nextId)
                && (forall i | 0 <= i < MAX_TASKS && i != slot :: table[i] == old(table[i]))
                && NewSpace(old(m.own), m.own, old(m.mem), m.mem, m.current, table[slot].pml4)
    {
      hide Leaf, Page, WellFormed, Private, LowerHalf, OnlyPage, Elf.OthersSame, StartsAs, NewSpace, SameLeaves, Shown, Extends, StillOpen, PathOpen, Pmm.Allocator.Free;
      ghost var own0, mem0, table0, free0 := m.own, m.mem, table[..], m.pmm.Free();
      SameAsSelf(own0, mem0);
      OpenSelf(own0, mem0);
      halted := false;
      slot := AllocSlot();
      if slot == -1 {
        return;
      }
      var claimed := table[slot];
      if !capTable || !kernelStack {
        table[slot] := claimed.(state := Unused);
        RootsOkSkip(table0, table[..], m.own, slot);
        return -1, false;
      }
      var root;
      root, halted := BuildSpace(m);
      if halted {
        return -1, true;
      }
      if root == 0 {
        table[slot] := claimed.(state := Unused);
        RootsOkSkip(table0, table[..], m.own, slot);
        ShownSame(own0, free0, mem0, m.mem, m.hhdm, memmap);
        return -1, false;
      }
      table[slot] := claimed.(pml4 := root);
      RootsOkAdd(table0, table[..], own0, m.own, slot);
      if Shown(mem0, own0, free0, m.hhdm, memmap) {
        NewSpaceShown(own0, free0, mem0, m.own, m.pmm.Free(), m.mem, m.hhdm, memmap, m.current, root);
      }
    }

    /** Loads a program into a live task. The table of tasks stays as it is, no lower-half address of
        any other task changes its translation, and no page that was there changes its contents,
        whatever the image and the outcome. Kernel-half addresses change in the tasks that share the
        tables there, and in no others. An image clear of the reserved pages leaves the kernel
        grounded; one that is not takes frames away from it. */
    method LoadElf(slot: nat, signed: bool, data: seq<bv8>) returns (r: Elf.Result)
      requires Valid() && slot < MAX_TASKS && table[slot].state != Unused
      requires Elf.Accepted(signed, data) ==> Elf.Readable(data)
      modifies m`mem, m`own, m`bytes, m`current, m.pmm`freeMemory, m.pmm.bitmap
      ensures m.Valid() && (r != Elf.KernelHalted ==> Valid() && m.current == old(m.current))
      ensures r == Elf.KernelHalted ==> m.pmm.Free() == {}
      ensures table[..] == old(table[..]) && Extends(old(m.own), m.own) && StillOpen(old(m.own), old(m.mem), m.mem)
      ensures Elf.OthersLower(old(m.own), old(m.mem), m.mem, table[slot].pml4)
      ensures Elf.Follows(old(m.own), old(m.mem), m.mem, table[slot].pml4)
      ensures Elf.AllLower(Elf.Segments(signed, data)) ==> Elf.OthersSame(old(m.own), old(m.mem), m.mem, table[slot].pml4)
      ensures Elf.UntouchedSame(old(m.own), old(m.mem), m.mem, Elf.Segments(signed, data))
      ensures Elf.BytesKept(old(m.own), old(m.bytes), m.bytes)
      ensures Elf.Accepted(signed, data) && Elf.Inside(Elf.Segments(signed, data), data) ==> r == Elf.Done(0) || m.pmm.Free() == {}
      ensures var phdrs := Elf.Segments(signed, data);
              r == Elf.Done(0) ==>
                Elf.Accepted(signed, data) && Elf.Inside(phdrs, data)
                && Elf.AllNew(old(m.own), m.mem, m.own, table[slot].pml4, phdrs, |phdrs|)
      ensures var phdrs := Elf.Segments(signed, data);
              r == Elf.Done(0) && Elf.PageDisjoint(phdrs, |phdrs|) ==>
                Elf.Placed(m.mem, m.own, m.bytes, table[slot].pml4, phdrs, data, |phdrs|)
      ensures Clear(Elf.Segments(signed, data), m.hhdm, memmap, textLow, textHigh) ==>
                && ReservedKept(old(m.own), old(m.mem), m.mem, m.hhdm, memmap, textLow, textHigh)
                && (old(Grounded()) && r != Elf.KernelHalted ==> Grounded())
    {
      hide Leaf, WellFormed, Private, Elf.Placed, Elf.PageDisjoint, Elf.OthersSame, Elf.OthersLower, Elf.Follows, Elf.AllLower,
        Elf.BytesKept, Elf.Accepted, Elf.Readable, Elf.Segments, Elf.RestSame, Elf.AllNew, Elf.NotUser, Elf.SharedSegment,
        Elf.UntouchedSame, Elf.Inside, SameShares, StillOpen, Shown, Clear, ReservedKept, Extends, Pmm.Allocator.Free;
      ghost var own0, mem0, free0 := m.own, m.mem, m.pmm.Free();
      r := Elf.LoadImage(m, table[slot].pml4, signed, data);
      RootsOkExtend(table[..], own0, m.own);
      if Clear(Elf.Segments(signed, data), m.hhdm, memmap, textLow, textHigh) {
        ClearLoadKeepsReserved(own0, mem0, m.mem, Elf.Segments(signed, data), m.hhdm, memmap, textLow, textHigh);
        if Shown(mem0, own0, free0, m.hhdm, memmap) {
          ShownKept(own0, free0, mem0, m.own, m.pmm.Free(), m.mem, m.hhdm, memmap, textLow, textHigh);
        }
      }
    }

    /** While the kernel is grounded, two live tasks have no lower-half frame in common. */
    lemma TasksSeparate()
      requires Grounded()
      ensures AllSeparate()
    {
      hide Separate, WellFormed, Private, Shown, Pmm.Allocator.Free, Pmm.Allocator.Valid;
      forall i, j | 0 <= i < j < MAX_TASKS && table[i].state != Unused && table[j].state != Unused
        ensures Separate(m.mem, table[i].pml4, table[j].pml4)
      {
        SpacesDisjoint(m.mem, m.own, table[i].pml4, table[j].pml4);
      }
    }

    /** A request the kernel survives: it may be a load of any image that is read without leaving it
        and whose segments are clear of the reserved pages. */
    ghost predicate Harmless(q: Request) {
      q.Load? && Elf.Accepted(q.signed, q.data) ==>
        Elf.Readable(q.data) && Clear(Elf.Segments(q.signed, q.data), m.hhdm, memmap, textLow, textHigh)
    }
  }

  datatype Request = Create(capTable: bool, kernelStack: bool) | Load(slot: nat, signed: bool, data: seq<bv8>)

  lemma NewSpaceShown(own: Owners, free: set<nat>, mem: Memory, own': Owners, free': set<nat>, mem': Memory,
                      hhdm: nat, memmap: seq<Pmm.Entry>, kernel: nat, root: nat)
    requires Shown(mem, own, free, hhdm, memmap) && Extends(own, own') && free' <= free
    requires forall t | t in own' && t !in own :: t in free && (own'[t].Root? ==> t == root)
    requires SameLeaves(own, mem, mem') && kernel in own && own[kernel].Root? && NewSpace(own, own', mem, mem', kernel, root)
    ensures Shown(mem', own', free', hhdm, memmap)
  {
    hide Leaf, Shown, SameLeaves, Extends, LowerHalf, Page, PathOpen;
    ShownGrows(own, free, mem, own', free', mem', hhdm, memmap, kernel, root);
  }

  /** Any run of task creations and loads of harmless images: the kernel stays grounded, its own pages
      stay where they are in every address space, and live tasks have no lower-half frame in common.
      It ends early only where the kernel halts for want of frames. */
  method Serve(k: Kernel, requests: seq<Request>) returns (halted: bool)
    requires k.Grounded() && forall i | 0 <= i < |requests| :: k.Harmless(requests[i])
    modifies k`nextId, k.table, k.m`mem, k.m`own, k.m`bytes, k.m`current, k.m.pmm`freeMemory, k.m.pmm.bitmap
    ensures !halted ==> k.Grounded() && k.AllSeparate() && Extends(old(k.m.own), k.m.own)
    ensures !halted ==> ReservedKept(old(k.m.own), old(k.m.mem), k.m.mem, k.m.hhdm, k.memmap, k.textLow, k.textHigh)
    ensures k.m.Valid() && (halted ==> k.m.pmm.Free() == {})
  {
    hide Leaf, WellFormed, Private, Separate, SameLeaves, Extends, Shown, Clear, ReservedKept, NewSpace, StillOpen, RootsOk, Elf.Accepted, Elf.Readable,
      Elf.Segments, Elf.Follows, Elf.OthersLower, Elf.OthersSame, Elf.AllLower, Elf.AllNew, Elf.Placed, Elf.PageDisjoint,
      Elf.Inside, Elf.UntouchedSame, Elf.BytesKept, Pmm.Allocator.Free, Pmm.Allocator.Valid;
    SameAsSelf(k.m.own, k.m.mem);
    AllReservedKept(k.m.own, k.m.mem, k.m.mem, k.m.hhdm, k.memmap, k.textLow, k.textHigh);
    for i := 0 to |requests|
      invariant k.Grounded() && Extends(old(k.m.own), k.m.own)
      invariant ReservedKept(old(k.m.own), old(k.m.mem), k.m.mem, k.m.hhdm, k.memmap, k.textLow, k.textHigh)
    {
      ghost var own0, mem0 := k.m.own, k.m.mem;
      match requests[i] {
        case Create(capTable, kernelStack) =>
          var slot;
          slot, halted := k.CreateUser(capTable, kernelStack);
          if halted {
            return;
          }
          AllReservedKept(own0, mem0, k.m.mem, k.m.hhdm, k.memmap, k.textLow, k.textHigh);
        case Load(slot, signed, data) =>
          SameAsSelf(own0, mem0);
          AllReservedKept(own0, mem0, mem0, k.m.hhdm, k.memmap, k.textLow, k.textHigh);
          if slot < MAX_TASKS && k.table[slot].state != Unused {
            RefusedIsClear(k, requests[i]);
            var r := k.LoadElf(slot, signed, data);
            if r == Elf.KernelHalted {
              return true;
            }
          }
      }
      ReservedTwice(old(k.m.own), old(k.m.mem), own0, mem0, k.m.mem, k.m.hhdm, k.memmap, k.textLow, k.textHigh);
      ExtendsTwice(old(k.m.own), own0, k.m.own);
    }
    k.TasksSeparate();
    return false;
  }

  /** An image that is refused has no segments to load. */
  lemma RefusedIsClear(k: Kernel, q: Request)
    requires q.Load? && k.Harmless(q)
    ensures Elf.Accepted(q.signed, q.data) ==> Elf.Readable(q.data)
    ensures Clear(Elf.Segments(q.signed, q.data), k.m.hhdm, k.memmap, k.textLow, k.textHigh)
  {
    hide Reserved, Elf.Accepted, Elf.Readable;
  }

  lemma AllReservedKept(own: Owners, mem: Memory, mem': Memory, hhdm: nat, memmap: seq<Pmm.Entry>, lo: nat, hi: nat)
    ensures SameLeaves(own, mem, mem') ==> ReservedKept(own, mem, mem', hhdm, memmap, lo, hi)
    ensures ReservedKept(own, mem, mem, hhdm, memmap, lo, hi)
  {
    hide Leaf, Reserved;
  }

  lemma ReservedTwice(own0: Owners, mem0: Memory, own1: Owners, mem1: Memory, mem2: Memory,
                      hhdm: nat, memmap: seq<Pmm.Entry>, lo: nat, hi: nat)
    requires Extends(own0, own1) && ReservedKept(own0, mem0, mem1, hhdm, memmap, lo, hi)
    requires ReservedKept(own1, mem1, mem2, hhdm, memmap, lo, hi)
    ensures ReservedKept(own0, mem0, mem2, hhdm, memmap, lo, hi)
  {
    hide Leaf, Reserved;
  }

  // ---- Boot ------------------------------------------------------------------------------

  lemma FreeInMap(memmap: seq<Pmm.Entry>, f: nat)
    requires exists i :: 0 <= i < |memmap| && Pmm.Inside(memmap[i], f)
    ensures InMap(memmap, f)
  {
    var i :| 0 <= i < |memmap| && Pmm.Inside(memmap[i], f);
    InsideSpans(memmap[i], f);
  }

  lemma InsideSpans(e: Pmm.Entry, f: nat)
    requires Pmm.Inside(e, f)
    ensures Spans(e, f)
  {
    assert e.base / PAGE <= f;
    assert f + 1 <= (e.base + e.length) / PAGE;
  }

  /** From the memory map to a grounded kernel without tasks. None when there is no usable memory, no
      room for the bitmap, or no frame left for the page tables. */
  method Boot(memmap: seq<Pmm.Entry>, hhdm: nat, textLow: nat, textHigh: nat) returns (p: Pmm.Allocator?, k: Kernel?)
    requires Pmm.NoWrap(memmap) && HighWindow(hhdm, memmap)
    requires Pmm.UsableEnd(memmap, |memmap|) == 0 || Pmm.UsableEnd(memmap, |memmap|) >= PAGE
    requires Pmm.UsableEnd(memmap, |memmap|) <= PAGE * MAX_FRAME
    ensures p == null <==>
              var end := Pmm.UsableEnd(memmap, |memmap|);
              end == 0 || !exists i :: 0 <= i < |memmap| && Pmm.Holds(memmap[i], Bitmap.Bytes(end / PAGE))
    ensures k == null ==> p == null || (p.Valid() && p.Free() == {})
    ensures k != null ==> p != null && k.Grounded() && k.m.pmm == p && k.m.hhdm == hhdm
    ensures k != null ==> k.memmap == memmap && k.textLow == textLow && k.textHigh == textHigh
    ensures k != null ==> forall i | 0 <= i < MAX_TASKS :: k.table[i].state == Unused
  {
    hide WellFormed, Private, Leaf, SameLeaves, Spans, High, HighWindow, Elf.DirectMapped, Pmm.UsableEnd, Pmm.Holds, Pmm.Inside, Pmm.Overlaps, Shown, RootsOk, InMap, Pmm.Allocator.Free;
    k := null;
    p := Pmm.Init(memmap);
    if p == null {
      return;
    }
    forall f | f in p.Free() ensures InMap(memmap, f) {
      FreeInMap(memmap, f);
    }
    k := BootTables(p, memmap, hhdm, textLow, textHigh);
  }

  /** The first root, the window and the kernel over them; null when the frames run out. */
  method BootTables(p: Pmm.Allocator, memmap: seq<Pmm.Entry>, hhdm: nat, textLow: nat, textHigh: nat) returns (k: Kernel?)
    requires p.Valid() && p.totalFrames <= MAX_FRAME && HighWindow(hhdm, memmap)
    requires forall f | f in p.Free() :: InMap(memmap, f)
    modifies p`freeMemory, p.bitmap
    ensures p.Valid() && (k == null ==> p.Free() == {})
    ensures k != null ==> k.Grounded() && k.m.pmm == p && k.m.hhdm == hhdm
    ensures k != null ==> k.memmap == memmap && k.textLow == textLow && k.textHigh == textHigh
    ensures k != null ==> forall i | 0 <= i < MAX_TASKS :: k.table[i].state == Unused
  {
    hide WellFormed, Private, Leaf, SameLeaves, InMap, HighWindow, Elf.DirectMapped, Pmm.Allocator.Free;
    var m := new Machine(p, hhdm);
    var ok := m.InitTables();
    if !ok {
      return null;
    }
    ok := MapWindow(m, memmap);
    if !ok {
      return null;
    }
    k := new Kernel(m, memmap, textLow, textHigh);
  }

  lemma RootsOkExtend(table: seq<Task>, own: Owners, own': Owners)
    requires RootsOk(table, own) && Extends(own, own')
    ensures RootsOk(table, own')
  {
  }

  /** Every live task has a PML4 of its own. */
  ghost predicate RootsOk(table: seq<Task>, own: Owners) {
    && (forall i | 0 <= i < |table| && table[i].state != Unused :: table[i].pml4 in own && own[table[i].pml4].Root?)
    && (forall i, j | 0 <= i < j < |table| && table[i].state != Unused && table[j].state != Unused ::
          table[i].pml4 != table[j].pml4)
  }

  lemma RootsOkSkip(table: seq<Task>, table': seq<Task>, own: Owners, slot: nat)
    requires RootsOk(table, own) && slot < |table| == |table'| && table' == table[slot := table'[slot]]
    requires table'[slot].state == Unused
    ensures RootsOk(table', own)
  {
  }

  lemma RootsOkAdd(table: seq<Task>, table': seq<Task>, own: Owners, own': Owners, slot: nat)
    requires RootsOk(table, own) && slot < |table| && |table'| == |table| && table' == table[slot := table'[slot]]
    requires table[slot].state == Unused && Extends(own, own')
    requires table'[slot].pml4 !in own && table'[slot].pml4 in own' && own'[table'[slot].pml4].Root?
    ensures RootsOk(table', own')
  {
  }

  lemma SameAsSelf(own: Owners, mem: Memory)
    ensures SameLeaves(own, mem, mem) && Extends(own, own)
  {
  }
}
