/** Four-level page tables as values: physical frames holding tables, a walk through them, and
    what linking a new table or writing a leaf entry does to every walk of every address space. */
module PageTables {
  import opened Pte

  const ENTRIES: nat := 512
  /** PML4 entries from here on map the kernel half, shared by all address spaces. */
  const KERNEL_FIRST: nat := 256

  /** Physical memory as far as it holds tables: frame number to 512 entries. */
  type Memory = map<nat, seq<Entry>>

  function Zeros(): seq<Entry> {
    seq(ENTRIES, _ => NONE)
  }

  /** The entry at index `i` of table `t`. */
  function At(mem: Memory, t: nat, i: nat): Entry {
    if t in mem && i < |mem[t]| then mem[t][i] else NONE
  }

  function Put(mem: Memory, t: nat, i: nat, e: Entry): Memory
    requires t in mem && i < |mem[t]|
  {
    mem[t := mem[t][i := e]]
  }

  // ---- Virtual addresses -----------------------------------------------------------------

  /** The four table indices of a virtual address, PML4 first. */
  function Indices(v: nat): (p: seq<nat>)
    ensures |p| == 4 && forall k | 0 <= k < 4 :: p[k] < ENTRIES
  {
    [v / 0x80_0000_0000 % ENTRIES, v / 0x4000_0000 % ENTRIES, v / 0x20_0000 % ENTRIES, v / 0x1000 % ENTRIES]
  }

  /** The 48-bit page number of a virtual address. */
  function Page(v: nat): nat {
    v / 0x1000 % 0x10_0000_0000
  }

  function PageOffset(v: nat): nat {
    v % 0x1000
  }

  predicate LowerHalf(v: nat) {
    Indices(v)[0] < KERNEL_FIRST
  }

  /** Dropping the page offset first does not change the upper indices. */
  lemma DropOffset(v: nat)
    ensures v / 0x20_0000 == v / 0x1000 / 0x200
    ensures v / 0x4000_0000 == v / 0x1000 / 0x4_0000
    ensures v / 0x80_0000_0000 == v / 0x1000 / 0x800_0000
  {
  }

  lemma LowDigit(q: nat)
    ensures q % 0x4_0000 == q / 0x200 % ENTRIES * 0x200 + q % 0x200
  {
  }

  lemma MiddleDigit(q: nat)
    ensures q % 0x800_0000 == q / 0x4_0000 % ENTRIES * 0x4_0000 + q % 0x4_0000
  {
  }

  lemma TopDigit(q: nat)
    ensures q % 0x10_0000_0000 == q / 0x800_0000 % ENTRIES * 0x800_0000 + q % 0x800_0000
  {
  }

  lemma PageFromIndices(v: nat)
    ensures var p := Indices(v);
            Page(v) == p[0] * 0x800_0000 + p[1] * 0x4_0000 + p[2] * 0x200 + p[3]
  {
    var q := v / 0x1000;
    DropOffset(v);
    LowDigit(q);
    MiddleDigit(q);
    TopDigit(q);
  }

  /** Two addresses use the same four entries exactly when they lie in the same 48-bit page. */
  lemma IndicesIffPage(v: nat, w: nat)
    ensures Indices(v) == Indices(w) <==> Page(v) == Page(w)
  {
    hide Indices, Page;
    PageFromIndices(v);
    PageFromIndices(w);
    if Page(v) == Page(w) {
      var p, q := Indices(v), Indices(w);
      Digits(p[0], p[1], p[2], p[3], q[0], q[1], q[2], q[3]);
    }
  }

  lemma Digits(a: nat, b: nat, c: nat, d: nat, a': nat, b': nat, c': nat, d': nat)
    requires b < 512 && c < 512 && d < 512 && b' < 512 && c' < 512 && d' < 512
    requires a * 0x800_0000 + b * 0x4_0000 + c * 0x200 + d == a' * 0x800_0000 + b' * 0x4_0000 + c' * 0x200 + d'
    ensures a == a' && b == b' && c == c' && d == d'
  {
    assert a == a';
    assert b == b';
    assert c == c';
  }

  // ---- Walking ---------------------------------------------------------------------------

  /** The entry reached from table `t` by following `path`; `NONE` if a link is missing. */
  function Walk(mem: Memory, t: nat, path: seq<nat>): Entry
    requires path != []
    decreases path
  {
    var e := At(mem, t, path[0]);
    if |path| == 1 then e
    else if e.flags.present then Walk(mem, e.frame, path[1..])
    else NONE
  }

  /** The leaf entry for address `v` in the address space of `root`. */
  function Leaf(mem: Memory, root: nat, v: nat): Entry {
    Walk(mem, root, Indices(v))
  }

  // ---- Who owns a frame ------------------------------------------------------------------

  /** The half of an address space: the lower half below one PML4, or the part of the kernel half
      below one second-level table, which several PML4s may link to. */
  datatype Space = Kernel(top: nat) | User(root: nat)

  /** The role of an allocated frame: a PML4, a lower table reached by `path`, or a user page. */
  datatype Owner = Root | Table(space: Space, path: seq<nat>) | Data(root: nat)

  type Owners = map<nat, Owner>

  /** The space of table `top` linked at index `i` of the PML4 `root`. */
  function SpaceOf(root: nat, i: nat, top: nat): Space {
    if i < KERNEL_FIRST then User(root) else Kernel(top)
  }

  predicate IsTable(own: Owners, t: nat) {
    t in own && !own[t].Data?
  }

  /** How many links lead from the PML4 to this table. */
  function Depth(own: Owners, t: nat): nat
    requires IsTable(own, t)
  {
    if own[t].Root? then 0 else |own[t].path|
  }

  /** The role table `f` must have when it is linked at index `i` of table `t`. */
  function Child(own: Owners, t: nat, i: nat, f: nat): Owner
    requires IsTable(own, t)
  {
    if own[t].Root? then Table(SpaceOf(t, i, f), [i]) else Table(own[t].space, own[t].path + [i])
  }

  /** The tables form an unaliased tree below each PML4: every frame has one role, and each
      present link leads to a table whose role is that link's position. */
  ghost predicate WellFormed(mem: Memory, own: Owners) {
    && (forall t | t in own && !own[t].Data? :: t in mem && |mem[t]| == ENTRIES)
    && (forall t | t in own && own[t].Table? :: 1 <= |own[t].path| <= 3)
    && (forall t, i | t in own && !own[t].Data? && 0 <= i < ENTRIES && Depth(own, t) < 3 && At(mem, t, i).flags.present ::
          LinkOk(mem, own, t, i))
  }

  ghost predicate LinkOk(mem: Memory, own: Owners, t: nat, i: nat)
    requires IsTable(own, t)
  {
    var e := At(mem, t, i);
    !e.flags.large && e.flags.writable && e.frame in own && own[e.frame] == Child(own, t, i, e.frame)
  }

  lemma TableInMemory(mem: Memory, own: Owners, t: nat)
    requires WellFormed(mem, own) && IsTable(own, t)
    ensures t in mem && |mem[t]| == ENTRIES
  {
  }

  // ---- The table at the end of a walk ----------------------------------------------------

  /** The last-level table that a walk from `t` ends in, if all links are present. */
  function Last(mem: Memory, t: nat, path: seq<nat>): (r: (bool, nat))
    requires path != []
    decreases path
  {
    if |path| == 1 then (true, t)
    else if At(mem, t, path[0]).flags.present then Last(mem, At(mem, t, path[0]).frame, path[1..])
    else (false, 0)
  }

  lemma {:induction false} WalkLast(mem: Memory, t: nat, path: seq<nat>)
    requires path != []
    ensures Walk(mem, t, path)
         == if Last(mem, t, path).0 then At(mem, Last(mem, t, path).1, path[|path| - 1]) else NONE
    decreases path
  {
    if |path| > 1 && At(mem, t, path[0]).flags.present {
      WalkLast(mem, At(mem, t, path[0]).frame, path[1..]);
    }
  }

  /** The path so far of a table below a given PML4. */
  predicate Below(own: Owners, t: nat, space: Space, path: seq<nat>) {
    t in own && own[t] == Table(space, path)
  }

  /** In a well-formed memory the last table of a walk carries the walk as its role. */
  lemma {:induction false} LastOwner(mem: Memory, own: Owners, t: nat, space: Space, prefix: seq<nat>, path: seq<nat>)
    requires WellFormed(mem, own) && Below(own, t, space, prefix)
    requires path != [] && |prefix| + |path| == 4 && forall k | 0 <= k < |path| :: path[k] < ENTRIES
    ensures Last(mem, t, path).0 ==>
              Below(own, Last(mem, t, path).1, space, prefix + path[..|path| - 1])
    decreases path
  {
    if |path| == 1 {
      assert prefix + path[..0] == prefix;
    } else if At(mem, t, path[0]).flags.present {
      assert LinkOk(mem, own, t, path[0]);
      LastOwner(mem, own, At(mem, t, path[0]).frame, space, prefix + [path[0]], path[1..]);
      assert prefix + [path[0]] + path[1..][..|path| - 2] == prefix + path[..|path| - 1];
    }
  }

  lemma RootLastOwner(mem: Memory, own: Owners, root: nat, path: seq<nat>)
    requires WellFormed(mem, own) && root in own && own[root].Root?
    requires |path| == 4 && forall k | 0 <= k < 4 :: path[k] < ENTRIES
    ensures Last(mem, root, path).0 ==>
              && At(mem, root, path[0]).flags.present
              && Below(own, Last(mem, root, path).1, SpaceOf(root, path[0], At(mem, root, path[0]).frame), path[..3])
  {
    if At(mem, root, path[0]).flags.present {
      var top := At(mem, root, path[0]).frame;
      assert LinkOk(mem, own, root, path[0]);
      LastOwner(mem, own, top, SpaceOf(root, path[0], top), [path[0]], path[1..]);
      assert [path[0]] + path[1..][..2] == path[..3];
    }
  }

  // ---- Linking a new, zeroed table -------------------------------------------------------

  /** Memory after frame `f` is zeroed and linked at index `i` of table `t`. */
  function Linked(mem: Memory, t: nat, i: nat, f: nat, user: bool): Memory
    requires t in mem && i < |mem[t]| && t != f
  {
    Put(mem[f := Zeros()], t, i, Entry(f, LinkFlags(user)))
  }

  lemma WalkZeros(mem: Memory, f: nat, path: seq<nat>)
    requires f in mem && mem[f] == Zeros() && path != []
    ensures Walk(mem, f, path) == NONE
  {
  }

  /** Linking an empty table keeps the tree well formed. */
  lemma LinkKeepsWellFormed(mem: Memory, own: Owners, t: nat, i: nat, f: nat, user: bool)
    requires WellFormed(mem, own) && IsTable(own, t) && Depth(own, t) < 3 && i < ENTRIES
    requires f !in own && !At(mem, t, i).flags.present
    ensures WellFormed(Linked(mem, t, i, f, user), own[f := Child(own, t, i, f)])
  {
    var mem' := Linked(mem, t, i, f, user);
    var own' := own[f := Child(own, t, i, f)];
    assert mem'[f] == Zeros();
    forall s, k | s in own' && !own'[s].Data? && 0 <= k < ENTRIES && Depth(own', s) < 3 && At(mem', s, k).flags.present
      ensures LinkOk(mem', own', s, k)
    {
      assert s != f;
      if !(s == t && k == i) {
        assert At(mem', s, k) == At(mem, s, k);
        assert LinkOk(mem, own, s, k);
      }
    }
  }

  /** Linking an empty table changes no walk. */
  lemma {:induction false} LinkKeepsWalks(mem: Memory, own: Owners, t: nat, i: nat, f: nat, user: bool, s: nat, path: seq<nat>)
    requires WellFormed(mem, own) && IsTable(own, t) && Depth(own, t) < 3 && i < ENTRIES
    requires f !in own && !At(mem, t, i).flags.present
    requires IsTable(own, s) && path != [] && Depth(own, s) + |path| == 4
    requires forall k | 0 <= k < |path| :: path[k] < ENTRIES
    ensures Walk(Linked(mem, t, i, f, user), s, path) == Walk(mem, s, path)
    decreases path
  {
    var mem' := Linked(mem, t, i, f, user);
    assert mem'[f] == Zeros();
    if s == t && path[0] == i {
      if |path| > 1 {
        WalkZeros(mem', f, path[1..]);
      }
    } else {
      assert At(mem', s, path[0]) == At(mem, s, path[0]);
      if |path| > 1 && At(mem, s, path[0]).flags.present {
        assert LinkOk(mem, own, s, path[0]);
        LinkKeepsWalks(mem, own, t, i, f, user, At(mem, s, path[0]).frame, path[1..]);
      }
    }
  }

  // ---- Setting the user bit of a link ----------------------------------------------------

  lemma OrUserKeepsWellFormed(mem: Memory, own: Owners, t: nat, i: nat, user: bool)
    requires WellFormed(mem, own) && IsTable(own, t) && i < ENTRIES
    ensures WellFormed(Put(mem, t, i, OrUser(At(mem, t, i), user)), own)
  {
    var mem' := Put(mem, t, i, OrUser(At(mem, t, i), user));
    forall s, k | s in own && !own[s].Data? && 0 <= k < ENTRIES && Depth(own, s) < 3 && At(mem', s, k).flags.present
      ensures LinkOk(mem', own, s, k)
    {
      assert LinkOk(mem, own, s, k);
    }
  }

  lemma {:induction false} OrUserKeepsWalks(mem: Memory, own: Owners, t: nat, i: nat, user: bool, s: nat, path: seq<nat>)
    requires WellFormed(mem, own) && IsTable(own, t) && Depth(own, t) < 3 && i < ENTRIES
    requires IsTable(own, s) && path != [] && Depth(own, s) + |path| == 4
    requires forall k | 0 <= k < |path| :: path[k] < ENTRIES
    ensures Walk(Put(mem, t, i, OrUser(At(mem, t, i), user)), s, path) == Walk(mem, s, path)
    decreases path
  {
    if |path| > 1 && At(mem, s, path[0]).flags.present {
      assert LinkOk(mem, own, s, path[0]);
      OrUserKeepsWalks(mem, own, t, i, user, At(mem, s, path[0]).frame, path[1..]);
    }
  }

  // ---- Writing a leaf entry --------------------------------------------------------------

  lemma LeafKeepsWellFormed(mem: Memory, own: Owners, t: nat, i: nat, e: Entry)
    requires WellFormed(mem, own) && IsTable(own, t) && Depth(own, t) == 3 && i < ENTRIES
    ensures WellFormed(Put(mem, t, i, e), own)
  {
    var mem' := Put(mem, t, i, e);
    forall s, k | s in own && !own[s].Data? && 0 <= k < ENTRIES && Depth(own, s) < 3 && At(mem', s, k).flags.present
      ensures LinkOk(mem', own, s, k)
    {
      assert At(mem', s, k) == At(mem, s, k);
      assert LinkOk(mem, own, s, k);
    }
  }

  lemma {:induction false} LeafKeepsLast(mem: Memory, own: Owners, t: nat, i: nat, e: Entry, s: nat, path: seq<nat>)
    requires WellFormed(mem, own) && IsTable(own, t) && Depth(own, t) == 3 && i < ENTRIES
    requires IsTable(own, s) && path != [] && Depth(own, s) + |path| == 4
    requires forall k | 0 <= k < |path| :: path[k] < ENTRIES
    ensures Last(Put(mem, t, i, e), s, path) == Last(mem, s, path)
    decreases path
  {
    if |path| > 1 {
      assert At(Put(mem, t, i, e), s, path[0]) == At(mem, s, path[0]);
      if At(mem, s, path[0]).flags.present {
        assert LinkOk(mem, own, s, path[0]);
        LeafKeepsLast(mem, own, t, i, e, At(mem, s, path[0]).frame, path[1..]);
      }
    }
  }

  // ---- What user mode is let through -----------------------------------------------------

  /** Every table entry on the way, short of the last, is present and lets user mode through to read
      and write; the processor refuses a user access otherwise, whatever the last entry says. */
  predicate Passes(mem: Memory, t: nat, path: seq<nat>)
    requires path != []
    decreases path
  {
    |path| == 1
    || (var e := At(mem, t, path[0]);
        e.flags.present && e.flags.writable && e.flags.user && Passes(mem, e.frame, path[1..]))
  }

  lemma {:induction false} LinkKeepsPasses(mem: Memory, own: Owners, t: nat, i: nat, f: nat, user: bool, s: nat, path: seq<nat>)
    requires WellFormed(mem, own) && IsTable(own, t) && Depth(own, t) < 3 && i < ENTRIES
    requires f !in own && !At(mem, t, i).flags.present
    requires IsTable(own, s) && path != [] && Depth(own, s) + |path| == 4
    requires (forall k | 0 <= k < |path| :: path[k] < ENTRIES) && Passes(mem, s, path)
    ensures Passes(Linked(mem, t, i, f, user), s, path)
    decreases path
  {
    if |path| > 1 {
      assert At(Linked(mem, t, i, f, user), s, path[0]) == At(mem, s, path[0]);
      assert LinkOk(mem, own, s, path[0]);
      LinkKeepsPasses(mem, own, t, i, f, user, At(mem, s, path[0]).frame, path[1..]);
    }
  }

  lemma {:induction false} OrUserKeepsPasses(mem: Memory, own: Owners, t: nat, i: nat, user: bool, s: nat, path: seq<nat>)
    requires WellFormed(mem, own) && IsTable(own, t) && i < ENTRIES
    requires IsTable(own, s) && path != [] && Depth(own, s) + |path| == 4
    requires (forall k | 0 <= k < |path| :: path[k] < ENTRIES) && Passes(mem, s, path)
    ensures Passes(Put(mem, t, i, OrUser(At(mem, t, i), user)), s, path)
    decreases path
  {
    if |path| > 1 {
      assert LinkOk(mem, own, s, path[0]);
      OrUserKeepsPasses(mem, own, t, i, user, At(mem, s, path[0]).frame, path[1..]);
    }
  }

  lemma {:induction false} LeafKeepsPasses(mem: Memory, own: Owners, t: nat, i: nat, e: Entry, s: nat, path: seq<nat>)
    requires WellFormed(mem, own) && IsTable(own, t) && Depth(own, t) == 3 && i < ENTRIES
    requires IsTable(own, s) && path != [] && Depth(own, s) + |path| == 4
    requires (forall k | 0 <= k < |path| :: path[k] < ENTRIES) && Passes(mem, s, path)
    ensures Passes(Put(mem, t, i, e), s, path)
    decreases path
  {
    if |path| > 1 {
      assert At(Put(mem, t, i, e), s, path[0]) == At(mem, s, path[0]);
      assert LinkOk(mem, own, s, path[0]);
      LeafKeepsPasses(mem, own, t, i, e, At(mem, s, path[0]).frame, path[1..]);
    }
  }

  // ---- Address spaces that share a table -------------------------------------------------

  /** The PML4s `r` and `root` have the entry for `path` in common: they are one, or they link to
      the same second-level table there. */
  predicate SharesPath(mem: Memory, r: nat, root: nat, path: seq<nat>)
    requires path != []
  {
    r == root
    || (var e, k := At(mem, r, path[0]), At(mem, root, path[0]);
        e.flags.present && k.flags.present && e.frame == k.frame)
  }

  /** Sharing happens in the kernel half only. */
  lemma LowerHalfUnshared(mem: Memory, own: Owners, r: nat, root: nat, path: seq<nat>)
    requires WellFormed(mem, own) && r in own && own[r].Root? && root in own && own[root].Root?
    requires path != [] && path[0] < KERNEL_FIRST && SharesPath(mem, r, root, path)
    ensures r == root
  {
    assert At(mem, r, path[0]).flags.present ==> LinkOk(mem, own, r, path[0]);
    assert At(mem, root, path[0]).flags.present ==> LinkOk(mem, own, root, path[0]);
  }

  lemma SharedLast(mem: Memory, r: nat, root: nat, path: seq<nat>)
    requires |path| > 1 && SharesPath(mem, r, root, path)
    ensures Last(mem, r, path) == Last(mem, root, path)
    ensures Walk(mem, r, path) == Walk(mem, root, path)
  {
  }

  /** Two walks end in one table exactly when the PML4s share the entry and the paths agree. */
  lemma LastShared(mem: Memory, own: Owners, root: nat, path: seq<nat>, r: nat, q: seq<nat>)
    requires WellFormed(mem, own) && root in own && own[root].Root? && r in own && own[r].Root?
    requires |path| == |q| == 4
    requires (forall k | 0 <= k < 4 :: path[k] < ENTRIES) && (forall k | 0 <= k < 4 :: q[k] < ENTRIES)
    requires Last(mem, root, path).0
    ensures Last(mem, r, q) == Last(mem, root, path) <==> SharesPath(mem, r, root, path) && q[..3] == path[..3]
  {
    hide Last, WellFormed;
    RootLastOwner(mem, own, root, path);
    RootLastOwner(mem, own, r, q);
    assert q[0] == q[..3][0] && path[0] == path[..3][0];
    if SharesPath(mem, r, root, path) && q[..3] == path[..3] {
      SharedLast(mem, r, root, path);
      LastPrefix(mem, r, path, q);
    }
  }

  /** The last index does not matter for the table a walk ends in. */
  lemma {:induction false} LastPrefix(mem: Memory, t: nat, path: seq<nat>, q: seq<nat>)
    requires |path| == |q| > 0 && path[..|path| - 1] == q[..|path| - 1]
    ensures Last(mem, t, path) == Last(mem, t, q)
    decreases path
  {
    if |path| > 1 {
      assert path[0] == path[..|path| - 1][0] && q[0] == q[..|path| - 1][0];
      assert path[1..][..|path| - 2] == path[..|path| - 1][1..] && q[1..][..|path| - 2] == q[..|path| - 1][1..];
      if At(mem, t, path[0]).flags.present {
        LastPrefix(mem, At(mem, t, path[0]).frame, path[1..], q[1..]);
      }
    }
  }

  /** Writing the leaf entry of `path` below `root` sets that walk from every PML4 that shares it,
      and changes no other walk from any PML4. */
  lemma LeafWrite(mem: Memory, own: Owners, root: nat, path: seq<nat>, e: Entry, r: nat, q: seq<nat>)
    requires WellFormed(mem, own) && root in own && own[root].Root? && r in own && own[r].Root?
    requires |path| == |q| == 4
    requires (forall k | 0 <= k < 4 :: path[k] < ENTRIES) && (forall k | 0 <= k < 4 :: q[k] < ENTRIES)
    requires Last(mem, root, path).0
    ensures IsTable(own, Last(mem, root, path).1) && Depth(own, Last(mem, root, path).1) == 3
    ensures Last(mem, root, path).1 in mem && |mem[Last(mem, root, path).1]| == ENTRIES
    ensures Walk(Put(mem, Last(mem, root, path).1, path[3], e), r, q)
         == if q == path && SharesPath(mem, r, root, path) then e else Walk(mem, r, q)
  {
    hide Walk, Last, LinkOk, WellFormed, SharesPath;
    var t := Last(mem, root, path).1;
    RootLastOwner(mem, own, root, path);
    TableInMemory(mem, own, t);
    var mem' := Put(mem, t, path[3], e);
    LeafKeepsLast(mem, own, t, path[3], e, r, q);
    LastShared(mem, own, root, path, r, q);
    WalkLast(mem, r, q);
    WalkLast(mem', r, q);
    assert path == path[..3] + [path[3]] && q == q[..3] + [q[3]];
  }

  // ---- Every table on the way ------------------------------------------------------------

  /** The table reached from `t` by following all of `path`, if all links are present. */
  function Reach(mem: Memory, t: nat, path: seq<nat>): (r: (bool, nat))
    decreases path
  {
    if path == [] then (true, t)
    else if At(mem, t, path[0]).flags.present then Reach(mem, At(mem, t, path[0]).frame, path[1..])
    else (false, 0)
  }

  lemma {:induction false} ReachOwner(mem: Memory, own: Owners, t: nat, space: Space, prefix: seq<nat>, path: seq<nat>)
    requires WellFormed(mem, own) && Below(own, t, space, prefix)
    requires |prefix| + |path| <= 3 && forall k | 0 <= k < |path| :: path[k] < ENTRIES
    ensures Reach(mem, t, path).0 ==> Below(own, Reach(mem, t, path).1, space, prefix + path)
    decreases path
  {
    if path == [] {
      assert prefix + path == prefix;
    } else if At(mem, t, path[0]).flags.present {
      assert LinkOk(mem, own, t, path[0]);
      ReachOwner(mem, own, At(mem, t, path[0]).frame, space, prefix + [path[0]], path[1..]);
      assert prefix + [path[0]] + path[1..] == prefix + path;
    }
  }

  /** A table on the way of a lower-half address belongs to that address space and that path. */
  lemma RootReachOwner(mem: Memory, own: Owners, root: nat, path: seq<nat>)
    requires WellFormed(mem, own) && root in own && own[root].Root?
    requires 1 <= |path| <= 3 && forall k | 0 <= k < |path| :: path[k] < ENTRIES
    ensures Reach(mem, root, path).0 ==>
              && At(mem, root, path[0]).flags.present
              && Below(own, Reach(mem, root, path).1, SpaceOf(root, path[0], At(mem, root, path[0]).frame), path)
  {
    if At(mem, root, path[0]).flags.present {
      var top := At(mem, root, path[0]).frame;
      assert LinkOk(mem, own, root, path[0]);
      ReachOwner(mem, own, top, SpaceOf(root, path[0], top), [path[0]], path[1..]);
      assert [path[0]] + path[1..] == path;
    }
  }
}
