/** Arithmetic of the PathORAM tree: node 0 is the root, node `n > 0` has parent `(n - 1) / 2`,
    and leaf number `leaf` of a tree of depth `l` sits at node `2^l - 1 + leaf`. */
module OramTree {

  function Pow2(n: nat): (p: nat)
    ensures p >= 1
  {
    if n == 0 then 1 else 2 * Pow2(n - 1)
  }

  function Parent(n: nat): nat {
    if n == 0 then 0 else (n - 1) / 2
  }

  /** `a` lies on the way from `d` up to the root. */
  predicate Ancestor(a: nat, d: nat)
    decreases d
  {
    a == d || (d > 0 && Ancestor(a, Parent(d)))
  }

  function LeafNode(l: nat, leaf: nat): nat {
    Pow2(l) - 1 + leaf
  }

  /** The node at level `i` (root = level 0) of the path from the root to `leaf`. */
  function PathNode(l: nat, leaf: nat, i: nat): nat
    requires i <= l
    decreases l - i
  {
    if i == l then LeafNode(l, leaf) else Parent(PathNode(l, leaf, i + 1))
  }

  function Path(l: nat, leaf: nat): (p: seq<nat>)
    ensures |p| == l + 1
    ensures forall i | 0 <= i <= l :: p[i] == PathNode(l, leaf, i)
  {
    seq(l + 1, i requires 0 <= i <= l => PathNode(l, leaf, i))
  }

  lemma {:induction false} Pow2Monotone(i: nat, j: nat)
    requires i <= j
    ensures Pow2(i) <= Pow2(j)
    decreases j
  {
    if i < j {
      Pow2Monotone(i, j - 1);
    }
  }

  /** Level `i` of the tree is exactly the node interval `[2^i - 1, 2^(i+1) - 1)`. */
  lemma {:induction false} PathNodeLevel(l: nat, leaf: nat, i: nat)
    requires leaf < Pow2(l) && i <= l
    ensures Pow2(i) - 1 <= PathNode(l, leaf, i) < Pow2(i + 1) - 1
    decreases l - i
  {
    if i < l {
      PathNodeLevel(l, leaf, i + 1);
    }
  }

  /** A path starts at the root, ends at its leaf, goes from parent to child, strictly grows and stays
      inside the tree. */
  lemma PathShape(l: nat, leaf: nat)
    requires leaf < Pow2(l)
    ensures Path(l, leaf)[0] == 0
    ensures Path(l, leaf)[l] == LeafNode(l, leaf)
    ensures forall i | 0 < i <= l :: Parent(Path(l, leaf)[i]) == Path(l, leaf)[i - 1]
    ensures forall i, j | 0 <= i < j <= l :: Path(l, leaf)[i] < Path(l, leaf)[j]
    ensures forall i | 0 <= i <= l :: Path(l, leaf)[i] < Pow2(l + 1) - 1
  {
    PathNodeLevel(l, leaf, 0);
    forall i, j | 0 <= i < j <= l
      ensures Path(l, leaf)[i] < Path(l, leaf)[j]
    {
      PathNodeLevel(l, leaf, i);
      PathNodeLevel(l, leaf, j);
      Pow2Monotone(i + 1, j);
    }
    forall i | 0 <= i <= l
      ensures Path(l, leaf)[i] < Pow2(l + 1) - 1
    {
      PathNodeLevel(l, leaf, i);
      Pow2Monotone(i + 1, l + 1);
    }
  }

  lemma {:induction false} AncestorOfPathNode(l: nat, leaf: nat, i: nat, n: nat)
    requires leaf < Pow2(l) && i <= l
    ensures Ancestor(n, PathNode(l, leaf, i)) <==> exists k :: 0 <= k <= i && n == Path(l, leaf)[k]
    decreases i
  {
    PathNodeLevel(l, leaf, i);
    var path := Path(l, leaf);
    if i == 0 {
      assert PathNode(l, leaf, 0) == path[0];
    } else {
      AncestorOfPathNode(l, leaf, i - 1, n);
      Pow2Monotone(1, i);
      assert path[i] == PathNode(l, leaf, i) > 0;
      assert Parent(PathNode(l, leaf, i)) == PathNode(l, leaf, i - 1);
    }
  }

  /** The ancestors of a leaf are exactly the nodes of its path. */
  lemma AncestorIffOnPath(l: nat, leaf: nat, n: nat)
    requires leaf < Pow2(l)
    ensures Ancestor(n, LeafNode(l, leaf)) <==> n in Path(l, leaf)
  {
    AncestorOfPathNode(l, leaf, l, n);
  }

  /** The walk from a node to the root that decides whether it meets `ancestor`. */
  method IsAncestor(ancestor: nat, descendant: nat) returns (r: bool)
    ensures r <==> Ancestor(ancestor, descendant)
  {
    var curr := descendant;
    while curr > 0
      invariant Ancestor(ancestor, descendant) <==> Ancestor(ancestor, curr)
    {
      if curr == ancestor {
        return true;
      }
      curr := (curr - 1) / 2;
    }
    return ancestor == 0;
  }

  /** Fills a buffer with the path of a leaf, from the last level up to the root. */
  method GetPath(l: nat, leaf: nat) returns (path: array<nat>)
    ensures fresh(path)
    ensures path[..] == Path(l, leaf)
  {
    path := new nat[l + 1];
    var curr := Pow2(l) - 1 + leaf;
    var i: int := l;
    ghost var spec := Path(l, leaf);
    while i >= 0
      invariant -1 <= i <= l
      invariant path[i + 1..] == spec[i + 1..]
      invariant i >= 0 ==> curr == spec[i]
    {
      path[i] := curr;
      if curr > 0 {
        curr := (curr - 1) / 2;
      }
      assert i > 0 ==> spec[i - 1] == Parent(spec[i]);
      assert path[i..] == [path[i]] + path[i + 1..];
      i := i - 1;
    }
  }
}
