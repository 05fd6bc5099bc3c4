/** The proof-tree arena: nodes linked by parent, first-child and next-sibling ids. */
module Tree {
  import opened Game

  datatype ProofNode = ProofNode(
    parent: Option<nat>,
    firstChild: Option<nat>,
    nextSibling: Option<nat>,
    mv: Move,
    hash: nat,
    outcome: Option<Outcome>,
    depth: U32)

  /** Parents come before children and siblings are chained from newer to older.  Every
      arena the worker, the rebuild and the binary reader make is linked this way. */
  predicate NodeLinked(nodes: seq<ProofNode>, i: nat)
    requires i < |nodes|
  {
    var n := nodes[i];
    && (n.parent.Some? <==> i > 0)
    && (n.parent.Some? ==> n.parent.value < i)
    && (n.firstChild.Some? ==> i < n.firstChild.value < |nodes| && nodes[n.firstChild.value].parent == Some(i))
    && (n.nextSibling.Some? ==> 0 < n.nextSibling.value < i && nodes[n.nextSibling.value].parent == n.parent)
  }

  ghost predicate Linked(nodes: seq<ProofNode>)
  {
    && |nodes| > 0
    && forall i :: 0 <= i < |nodes| ==> NodeLinked(nodes, i)
  }

  ghost predicate Within(ids: seq<nat>, low: nat, high: nat)
  {
    forall k :: 0 <= k < |ids| ==> low <= ids[k] < high
  }

  /** The sibling chain that starts at `next`. */
  function Chain(nodes: seq<ProofNode>, next: Option<nat>): (ids: seq<nat>)
    requires Linked(nodes)
    requires next.Some? ==> next.value < |nodes|
    ensures forall c :: c in ids ==> next.Some? && c <= next.value && nodes[c].parent == nodes[next.value].parent
    decreases if next.None? then 0 else next.value + 1
  {
    if next.None? then []
    else
      assert NodeLinked(nodes, next.value);
      [next.value] + Chain(nodes, nodes[next.value].nextSibling)
  }

  function Children(nodes: seq<ProofNode>, i: nat): (ids: seq<nat>)
    requires Linked(nodes) && i < |nodes|
    ensures forall c :: c in ids ==> i < c < |nodes| && nodes[c].parent == Some(i)
    ensures Within(ids, i + 1, |nodes|)
  {
    assert NodeLinked(nodes, i);
    var ids := Chain(nodes, nodes[i].firstChild);
    assert forall c :: c in ids ==> NodeLinked(nodes, c);
    assert forall k :: 0 <= k < |ids| ==> ids[k] in ids;
    ids
  }

  /** The stored depths of the listed nodes. */
  function DepthsAt(nodes: seq<ProofNode>, kids: seq<nat>): (r: seq<U32>)
    requires Within(kids, 0, |nodes|)
  {
    seq(|kids|, i requires 0 <= i < |kids| => nodes[kids[i]].depth)
  }

  ghost predicate Descending(ids: seq<nat>)
  {
    forall a, b :: 0 <= a < b < |ids| ==> ids[b] < ids[a]
  }

  lemma {:induction false} ChainDescending(nodes: seq<ProofNode>, next: Option<nat>)
    requires Linked(nodes)
    requires next.Some? ==> next.value < |nodes|
    ensures Descending(Chain(nodes, next))
    decreases if next.None? then 0 else next.value + 1
  {
    if next.Some? {
      assert NodeLinked(nodes, next.value);
      var rest := Chain(nodes, nodes[next.value].nextSibling);
      ChainDescending(nodes, nodes[next.value].nextSibling);
      assert forall j :: 0 <= j < |rest| ==> rest[j] in rest;
    }
  }

  lemma {:induction false} ChildrenDescending(nodes: seq<ProofNode>, i: nat)
    requires Linked(nodes) && i < |nodes|
    ensures Descending(Children(nodes, i))
  {
    assert NodeLinked(nodes, i);
    ChainDescending(nodes, nodes[i].firstChild);
  }

  /** Walk the sibling chain of `i`. */
  method ListChildren(nodes: seq<ProofNode>, i: nat) returns (ids: seq<nat>)
    requires Linked(nodes) && i < |nodes|
    ensures ids == Children(nodes, i)
  {
    ids := [];
    assert NodeLinked(nodes, i);
    var next: Option<nat> := nodes[i].firstChild;
    while next.Some?
      invariant next.Some? ==> next.value < |nodes|
      invariant ids + Chain(nodes, next) == Children(nodes, i)
      decreases if next.None? then 0 else next.value + 1
    {
      assert NodeLinked(nodes, next.value);
      ids := ids + [next.value];
      next := nodes[next.value].nextSibling;
    }
  }

  /** A chain depends only on the sibling links of its members. */
  lemma {:induction false} ChainFrame(a: seq<ProofNode>, b: seq<ProofNode>, next: Option<nat>)
    requires Linked(a) && Linked(b)
    requires next.Some? ==> next.value < |a| && next.value < |b|
    requires forall c :: c in Chain(a, next) ==> c < |b| && b[c].nextSibling == a[c].nextSibling
    ensures Chain(a, next) == Chain(b, next)
    decreases if next.None? then 0 else next.value + 1
  {
    if next.Some? {
      assert NodeLinked(a, next.value) && NodeLinked(b, next.value);
      assert next.value in Chain(a, next);
      var rest := Chain(a, a[next.value].nextSibling);
      assert forall c :: c in rest ==> c in Chain(a, next);
      ChainFrame(a, b, a[next.value].nextSibling);
    }
  }

  function MinOf(ds: seq<U32>): (m: U32)
    requires ds != []
    ensures exists k :: 0 <= k < |ds| && ds[k] == m
    ensures forall k :: 0 <= k < |ds| ==> m <= ds[k]
  {
    if |ds| == 1 then ds[0]
    else
      var r := MinOf(ds[..|ds| - 1]);
      if ds[|ds| - 1] < r then ds[|ds| - 1] else r
  }

  function MaxOf(ds: seq<U32>): (m: U32)
    requires ds != []
    ensures exists k :: 0 <= k < |ds| && ds[k] == m
    ensures forall k :: 0 <= k < |ds| ==> ds[k] <= m
  {
    if |ds| == 1 then ds[0]
    else
      var r := MaxOf(ds[..|ds| - 1]);
      if r < ds[|ds| - 1] then ds[|ds| - 1] else r
  }

  /** The depth an expanded node's children imply: the shortest win, the longest loss. */
  function ProvenDepth(o: Option<Outcome>, ds: seq<U32>): U32
  {
    match o
    case Some(Win) => SatInc(if ds == [] then 0 else MinOf(ds))
    case Some(Loss) => SatInc(if ds == [] then 0 else MaxOf(ds))
    case _ => 0
  }

  /** Append a child in front of its siblings. */
  function AddNode(nodes: seq<ProofNode>, parent: nat, mv: Move, hash: nat, o: Option<Outcome>,
          d: U32): (r: seq<ProofNode>)
    requires Linked(nodes) && parent < |nodes|
    ensures Linked(r) && |r| == |nodes| + 1
  {
    var id := |nodes|;
    var old_first := nodes[parent].firstChild;
    var grown := nodes + [ProofNode(Some(parent), None, old_first, mv, hash, o, d)];
    var r := grown[parent := grown[parent].(firstChild := Some(id))];
    AddNodeLinked(nodes, parent, r);
    r
  }

  lemma {:induction false} AddNodeLinked(nodes: seq<ProofNode>, parent: nat, r: seq<ProofNode>)
    requires Linked(nodes) && parent < |nodes| && |r| == |nodes| + 1
    requires r[|nodes|].parent == Some(parent) && r[|nodes|].firstChild == None
             && r[|nodes|].nextSibling == nodes[parent].firstChild
    requires r[parent] == nodes[parent].(firstChild := Some(|nodes|))
    requires forall i :: 0 <= i < |nodes| && i != parent ==> r[i] == nodes[i]
    ensures Linked(r)
  {
    assert NodeLinked(nodes, parent);
    forall i | 0 <= i < |r|
      ensures NodeLinked(r, i)
    {
      if i < |nodes| {
        assert NodeLinked(nodes, i);
      }
    }
  }

  /** The new node joins the head of its parent's chain; every other chain is as before. */
  lemma {:induction false} AddNodeChildren(nodes: seq<ProofNode>, parent: nat, mv: Move, hash: nat, o: Option<Outcome>,
          d: U32)
    requires Linked(nodes) && parent < |nodes|
    ensures var r := AddNode(nodes, parent, mv, hash, o, d);
            && Children(r, |nodes|) == []
            && Children(r, parent) == [|nodes|] + Children(nodes, parent)
            && forall i :: 0 <= i < |nodes| && i != parent ==> Children(r, i) == Children(nodes, i)
  {
    var r := AddNode(nodes, parent, mv, hash, o, d);
    assert forall i :: 0 <= i < |r| ==> NodeLinked(r, i);
    assert NodeLinked(nodes, parent);
    ChainFrame(nodes, r, nodes[parent].firstChild);
    assert Chain(r, Some(|nodes|)) == [|nodes|] + Chain(r, r[|nodes|].nextSibling);
    forall i | 0 <= i < |nodes| && i != parent
      ensures Children(r, i) == Children(nodes, i)
    {
      assert NodeLinked(nodes, i);
      ChainFrame(nodes, r, nodes[i].firstChild);
    }
  }

  /** The number of steps a stack walk over the subtree of `id` takes, twice over. */
  ghost function Weight(nodes: seq<ProofNode>, id: nat): nat
    requires Linked(nodes) && id < |nodes|
    decreases |nodes| - id, 1, 0
  {
    2 + WeightAll(nodes, Children(nodes, id), 0, id + 1)
  }

  ghost function WeightAll(nodes: seq<ProofNode>, ids: seq<nat>, i: nat, low: nat): nat
    requires Linked(nodes) && Within(ids, low, |nodes|) && i <= |ids|
    decreases |nodes| - low, 2, |ids| - i
  {
    if i == |ids| then 0 else Weight(nodes, ids[i]) + WeightAll(nodes, ids, i + 1, low)
  }

  /** `j` lies in the subtree of `id`. */
  ghost predicate Under(nodes: seq<ProofNode>, j: nat, id: nat)
    requires Linked(nodes) && j < |nodes|
    decreases j
  {
    j == id || (j > id && (assert NodeLinked(nodes, j); Under(nodes, nodes[j].parent.value, id)))
  }

  lemma {:induction false} UnderParent(nodes: seq<ProofNode>, j: nat, c: nat)
    requires Linked(nodes) && j < |nodes| && 0 < c < |nodes| && Under(nodes, j, c)
    ensures nodes[c].parent.Some? && Under(nodes, j, nodes[c].parent.value) && j >= c
    decreases j
  {
    assert NodeLinked(nodes, c) && NodeLinked(nodes, j);
    if j != c {
      UnderParent(nodes, nodes[j].parent.value, c);
    } else {
      assert Under(nodes, nodes[j].parent.value, nodes[c].parent.value);
    }
  }

  /** Siblings head disjoint subtrees. */
  lemma {:induction false} SiblingsDisjoint(nodes: seq<ProofNode>, j: nat, c: nat, d: nat)
    requires Linked(nodes) && j < |nodes| && c < |nodes| && d < |nodes| && c != d
    requires c > 0 && d > 0 && nodes[c].parent == nodes[d].parent
    requires Under(nodes, j, c)
    ensures !Under(nodes, j, d)
    decreases j
  {
    assert NodeLinked(nodes, c) && NodeLinked(nodes, d) && NodeLinked(nodes, j);
    if j != c {
      SiblingsDisjoint(nodes, nodes[j].parent.value, c, d);
    }
  }

  // ----- edges -----

  /** `c` is on the sibling chain of `i`. */
  ghost predicate IsKid(nodes: seq<ProofNode>, i: nat, c: nat)
    requires Linked(nodes)
  {
    i < |nodes| && c in Children(nodes, i)
  }

  /** `i` is reached from the root through sibling chains. */
  ghost predicate Attached(nodes: seq<ProofNode>, i: nat)
    requires Linked(nodes)
    decreases i
  {
    i < |nodes|
    && (i == 0
        || (assert NodeLinked(nodes, i); var p := nodes[i].parent.value; Attached(nodes, p) && IsKid(nodes, p, i)))
  }

  lemma {:induction false} KidFacts(nodes: seq<ProofNode>, i: nat, c: nat)
    requires Linked(nodes) && IsKid(nodes, i, c)
    ensures i < c < |nodes| && nodes[c].parent == Some(i)
  {
  }

  lemma {:induction false} AddNodeKids(nodes: seq<ProofNode>, parent: nat, mv: Move, hash: nat, o: Option<Outcome>,
          d: U32)
    requires Linked(nodes) && parent < |nodes|
    ensures var r := AddNode(nodes, parent, mv, hash, o, d);
            forall i: nat, c: nat :: IsKid(r, i, c) <==> (IsKid(nodes, i, c) || (i == parent && c == |nodes|))
  {
    AddNodeChildren(nodes, parent, mv, hash, o, d);
    var r := AddNode(nodes, parent, mv, hash, o, d);
    forall i: nat, c: nat
      ensures IsKid(r, i, c) <==> (IsKid(nodes, i, c) || (i == parent && c == |nodes|))
    {
      if i < |nodes| && i != parent {
        assert Children(r, i) == Children(nodes, i);
      }
    }
  }

  lemma {:induction false} AddNodeAttached(nodes: seq<ProofNode>, parent: nat, mv: Move, hash: nat, o: Option<Outcome>,
          d: U32, i: nat)
    requires Linked(nodes) && parent < |nodes|
    ensures var r := AddNode(nodes, parent, mv, hash, o, d);
            Attached(r, i) <==> (Attached(nodes, i) || (i == |nodes| && Attached(nodes, parent)))
    decreases i
  {
    var r := AddNode(nodes, parent, mv, hash, o, d);
    AddNodeKids(nodes, parent, mv, hash, o, d);
    if 0 < i < |r| {
      assert NodeLinked(r, i);
      AddNodeAttached(nodes, parent, mv, hash, o, d, r[i].parent.value);
      if i < |nodes| {
        assert NodeLinked(nodes, i);
      }
    }
  }

  /** Payload changes leave the links alone. */
  ghost predicate SameLinks(a: seq<ProofNode>, b: seq<ProofNode>)
  {
    |a| == |b|
    && forall i :: 0 <= i < |a| ==>
         a[i].parent == b[i].parent && a[i].firstChild == b[i].firstChild && a[i].nextSibling == b[i].nextSibling
  }

  lemma {:induction false} SameLinksKids(a: seq<ProofNode>, b: seq<ProofNode>)
    requires Linked(a) && SameLinks(a, b)
    ensures Linked(b)
    ensures forall i :: 0 <= i < |a| ==> Children(b, i) == Children(a, i)
    ensures forall i: nat, c: nat :: IsKid(b, i, c) <==> IsKid(a, i, c)
  {
    forall i | 0 <= i < |b|
      ensures NodeLinked(b, i)
    {
      assert NodeLinked(a, i);
    }
    forall i | 0 <= i < |a|
      ensures Children(b, i) == Children(a, i)
    {
      assert NodeLinked(a, i);
      ChainFrame(a, b, a[i].firstChild);
    }
  }

  lemma {:induction false} SameLinksAttached(a: seq<ProofNode>, b: seq<ProofNode>, i: nat)
    requires Linked(a) && Linked(b) && SameLinks(a, b)
    ensures Attached(b, i) <==> Attached(a, i)
    decreases i
  {
    if 0 < i < |a| {
      assert NodeLinked(a, i) && NodeLinked(b, i);
      SameLinksKids(a, b);
      SameLinksAttached(a, b, a[i].parent.value);
    }
  }
}
