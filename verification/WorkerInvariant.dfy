/** What every event keeps: the index is the tree, and realised parents keep only the children
    that prove them. */
module WorkerInvariant {
  import opened Game
  import opened Tree
  import opened Worker

  ghost predicate EdgeIndexed(a: Arena, i: nat, c: nat)
    requires Ranged(a)
  {
    Attached(a.nodes, i) && IsKid(a.nodes, i, c) ==>
      (i, a.nodes[c].mv) in a.index && a.index[(i, a.nodes[c].mv)] == c
  }

  ghost predicate KeyIsEdge(a: Arena, k: (nat, Move))
    requires Ranged(a)
  {
    k in a.index ==>
      Attached(a.nodes, k.0) && IsKid(a.nodes, k.0, a.index[k]) && a.nodes[a.index[k]].mv == k.1
  }

  /** The index holds exactly the edges that are reached from the root through sibling
      chains. */
  ghost predicate IndexExact(a: Arena)
    requires Ranged(a)
  {
    && (forall i: nat, c: nat :: EdgeIndexed(a, i, c))
    && (forall k: (nat, Move) :: KeyIsEdge(a, k))
  }

  ghost predicate RealKid(nodes: seq<ProofNode>, i: nat, c: nat)
    requires Linked(nodes)
  {
    IsKid(nodes, i, c) && nodes[c].outcome.Some?
  }

  /** A realised Win node has at most one realised child, a Loss; the realised children of a
      Loss node are Wins; a drawn node has none. */
  ghost predicate Polar(nodes: seq<ProofNode>, i: nat)
    requires Linked(nodes)
  {
    i < |nodes| && nodes[i].outcome.Some? ==>
      var o := nodes[i].outcome.value;
      && (forall c: nat :: RealKid(nodes, i, c) ==> o != Draw && nodes[c].outcome == Some(o.Flip()))
      && (o == Win ==> forall c: nat, d: nat :: RealKid(nodes, i, c) && RealKid(nodes, i, d) ==> c == d)
  }

  ghost predicate Inv(a: Arena)
  {
    Ranged(a) && IndexExact(a) && forall i: nat :: Polar(a.nodes, i)
  }

  // ----- growing a path -----

  lemma {:induction false} StepKeeps(a: Arena, id: nat, m: Move)
    requires Ranged(a) && IndexExact(a) && Attached(a.nodes, id)
    ensures var r := Step(a, id, m);
            IndexExact(r.0) && Attached(r.0.nodes, r.1) && IsKid(r.0.nodes, id, r.1) && r.0.nodes[r.1].mv == m
  {
    var r := Step(a, id, m);
    if (id, m) in a.index {
      assert KeyIsEdge(a, (id, m));
      assert NodeLinked(a.nodes, r.1);
    } else {
      AddNodeKids(a.nodes, id, m, 0, None, 0);
      var nodes' := AddNode(a.nodes, id, m, 0, None, 0);
      assert nodes' == r.0.nodes;
      AddNodeAttached(a.nodes, id, m, 0, None, 0, |a.nodes|);
      AddNodeAttached(a.nodes, id, m, 0, None, 0, id);
      assert NodeLinked(nodes', |a.nodes|);
      StepIndexExact(a, id, m);
    }
  }

  lemma {:induction false} StepIndexExact(a: Arena, id: nat, m: Move)
    requires Ranged(a) && IndexExact(a) && Attached(a.nodes, id) && (id, m) !in a.index
    ensures IndexExact(Step(a, id, m).0)
  {
    var r := Step(a, id, m).0;
    AddNodeKids(a.nodes, id, m, 0, None, 0);
    forall i: nat, c: nat
      ensures EdgeIndexed(r, i, c)
    {
      AddNodeAttached(a.nodes, id, m, 0, None, 0, i);
      assert EdgeIndexed(a, i, c);
    }
    forall k: (nat, Move)
      ensures KeyIsEdge(r, k)
    {
      AddNodeAttached(a.nodes, id, m, 0, None, 0, k.0);
      assert KeyIsEdge(a, k);
    }
  }

  /** What a step leaves alone. */
  ghost predicate Grows(a: seq<ProofNode>, b: seq<ProofNode>)
  {
    && |a| <= |b|
    && (forall i :: 0 <= i < |a| ==> b[i] == a[i].(firstChild := b[i].firstChild))
    && (forall i :: |a| <= i < |b| ==> b[i].outcome.None?)
  }

  lemma {:induction false} StepPolar(a: Arena, id: nat, m: Move, i: nat)
    requires Ranged(a) && id < |a.nodes| && Polar(a.nodes, i)
    ensures Polar(Step(a, id, m).0.nodes, i) && Grows(a.nodes, Step(a, id, m).0.nodes)
  {
    if (id, m) !in a.index {
      AddNodeKids(a.nodes, id, m, 0, None, 0);
      var r := Step(a, id, m).0.nodes;
      assert forall c: nat :: RealKid(r, i, c) <==> RealKid(a.nodes, i, c);
    }
  }

  lemma {:induction false} StepPast(a: Arena, id: nat, m: Move)
    requires Ranged(a) && IndexExact(a) && Attached(a.nodes, id)
    ensures Step(a, id, m).1 > id
  {
    StepKeeps(a, id, m);
    hide Step, IndexExact, Attached, IsKid;
    KidFacts(Step(a, id, m).0.nodes, id, Step(a, id, m).1);
  }

  lemma {:induction false} LocateNext(a: Arena, path: seq<Move>, n: nat)
    requires Ranged(a) && n <= |path|
    ensures n == 0 ==> Locate(a, path, n) == (a, 0)
    ensures n > 0 ==>
              var p := Locate(a, path, n - 1);
              Ranged(p.0) && p.1 < |p.0.nodes| && Locate(a, path, n) == Step(p.0, p.1, path[n - 1])
  {
    hide Step, Ranged;
  }

  lemma {:induction false} RootAttached(a: Arena)
    requires Ranged(a)
    ensures Attached(a.nodes, 0)
  {
  }

  /** Following a path keeps the index exact and ends on the node the path names. */
  lemma {:induction false} LocateKeeps(a: Arena, path: seq<Move>, n: nat)
    requires Ranged(a) && IndexExact(a) && n <= |path|
    ensures var r := Locate(a, path, n);
            && IndexExact(r.0) && Attached(r.0.nodes, r.1)
            && (n == 0 ==> r.1 == 0)
            && (n > 0 ==> r.1 > 0 && r.0.nodes[r.1].mv == path[n - 1])
  {
    hide Step, IndexExact, Attached, IsKid, Ranged, Locate;
    LocateNext(a, path, n);
    if n == 0 {
      RootAttached(a);
    } else {
      var p := Locate(a, path, n - 1);
      LocateKeeps(a, path, n - 1);
      StepKeeps(p.0, p.1, path[n - 1]);
      StepPast(p.0, p.1, path[n - 1]);
    }
  }

  lemma {:induction false} LocatePolar(a: Arena, path: seq<Move>, n: nat, i: nat)
    requires Ranged(a) && Polar(a.nodes, i) && n <= |path|
    ensures Polar(Locate(a, path, n).0.nodes, i)
  {
    if n > 0 {
      LocatePolar(a, path, n - 1, i);
      var p := Locate(a, path, n - 1);
      StepPolar(p.0, p.1, path[n - 1], i);
    }
  }

  /** Index entries lead from older to newer nodes. */
  ghost predicate Rises(a: Arena)
  {
    Ranged(a) && forall k :: k in a.index ==> k.0 < a.index[k]
  }

  lemma {:induction false} ExactRises(a: Arena)
    requires Ranged(a) && IndexExact(a)
    ensures Rises(a)
  {
    forall k | k in a.index
      ensures k.0 < a.index[k]
    {
      assert KeyIsEdge(a, k);
      KidFacts(a.nodes, k.0, a.index[k]);
    }
  }

  /** `ids` are the nodes a walk along the first `n` moves visits, and the index knows every
      edge of it. */
  ghost predicate Trail(b: Arena, path: seq<Move>, n: nat, ids: seq<nat>)
    requires n <= |path|
  {
    && |ids| == n + 1 && ids[0] == 0
    && forall k :: 0 <= k < n ==> (ids[k], path[k]) in b.index && b.index[(ids[k], path[k])] == ids[k + 1]
  }

  ghost predicate Climbs(ids: seq<nat>)
  {
    forall k :: 0 <= k < |ids| - 1 ==> ids[k] < ids[|ids| - 1]
  }

  /** A walk only moves to newer nodes, and the edges walked stay in the index. */
  lemma {:induction false} LocateTrail(a: Arena, path: seq<Move>, n: nat) returns (ids: seq<nat>)
    requires Rises(a) && n <= |path|
    ensures var r := Locate(a, path, n);
            Rises(r.0) && Trail(r.0, path, n, ids) && ids[n] == r.1 && Climbs(ids)
  {
    if n == 0 {
      ids := [0];
    } else {
      var before := LocateTrail(a, path, n - 1);
      var p := Locate(a, path, n - 1);
      ids := before + [Step(p.0, p.1, path[n - 1]).1];
      TrailStep(p.0, p.1, path, n, before);
    }
  }

  lemma {:induction false} TrailStep(a: Arena, id: nat, path: seq<Move>, n: nat, ids: seq<nat>)
    requires Rises(a) && id < |a.nodes| && 0 < n <= |path|
    requires Trail(a, path, n - 1, ids) && ids[n - 1] == id && Climbs(ids)
    ensures var r := Step(a, id, path[n - 1]);
            Rises(r.0) && Trail(r.0, path, n, ids + [r.1]) && Climbs(ids + [r.1])
  {
    var r := Step(a, id, path[n - 1]);
    var longer := ids + [r.1];
    assert id < r.1;
    forall k | 0 <= k < n
      ensures (longer[k], path[k]) in r.0.index && r.0.index[(longer[k], path[k])] == longer[k + 1]
    {
      if k < n - 1 {
        assert longer[k] == ids[k] && longer[k + 1] == ids[k + 1];
      }
    }
  }

  lemma {:induction false} FollowTrail(b: Arena, path: seq<Move>, n: nat, ids: seq<nat>, j: nat)
    requires Ranged(b) && j <= n <= |path| && Trail(b, path, n, ids)
    ensures Locate(b, path, j) == (b, ids[j])
    decreases j
  {
    if j > 0 {
      FollowTrail(b, path, n, ids, j - 1);
    }
  }

  /** Once located, the parent of a path is found again through the index alone, also after
      entries at or below the path's end were dropped. */
  lemma {:induction false} LocateParent(a: Arena, path: seq<Move>, b: Arena)
    requires Rises(a) && Ranged(b) && path != []
    requires var r := Locate(a, path, |path|);
             forall k :: k in r.0.index && k.0 < r.1 ==> k in b.index && b.index[k] == r.0.index[k]
    ensures Locate(b, path, |path| - 1) == (b, Locate(a, path, |path| - 1).1)
  {
    var n := |path| - 1;
    var ids := LocateTrail(a, path, n);
    var p := Locate(a, path, n);
    TrailStep(p.0, p.1, path, n + 1, ids);
    var r := Step(p.0, p.1, path[n]);
    var longer := ids + [r.1];
    assert Locate(a, path, n + 1) == r;
    forall k | 0 <= k < n
      ensures (ids[k], path[k]) in b.index && b.index[(ids[k], path[k])] == ids[k + 1]
    {
      assert longer[k] == ids[k] && longer[k + 1] == ids[k + 1];
    }
    FollowTrail(b, path, n, ids, n);
  }

  // ----- choosing children -----

  /** The kept list is a selection of the chain, and every child left out lies outside it. */
  lemma {:induction false} ReconcileKids(a: Arena, id: nat)
    requires Ranged(a) && id < |a.nodes| && a.nodes[id].outcome.Some?
    ensures var kids := Children(a.nodes, id);
            var kept := Kept(a.nodes, kids, a.nodes[id].outcome.value);
            var r := Reconcile(a, id).nodes;
            && (forall c: nat :: c in kept ==> c in kids)
            && (forall i: nat, c: nat :: IsKid(r, i, c) <==> IsKid(a.nodes, i, c) && (i == id ==> c in kept))
            && (forall i :: 0 <= i < |r| ==>
                 r[i] == a.nodes[i].(firstChild := r[i].firstChild, nextSibling := r[i].nextSibling))
  {
    var kids := Children(a.nodes, id);
    var o := a.nodes[id].outcome.value;
    var kept := Kept(a.nodes, kids, o);
    var r := Reconcile(a, id).nodes;
    KeptSelection(a.nodes, id, o);
    KeptFrom(a.nodes, kids, o);
    RelinkChildren(a.nodes, id, kept);
    RelinkFields(a.nodes, id, kept, 0);
    forall i: nat, c: nat
      ensures IsKid(r, i, c) <==> IsKid(a.nodes, i, c) && (i == id ==> c in kept)
    {
      if i < |r| && i != id {
        assert Children(r, i) == Children(a.nodes, i);
      }
    }
  }

  /** Reconciling detaches exactly the subtrees of the children left out. */
  lemma {:induction false} ReconcileAttached(a: Arena, id: nat, x: nat)
    requires Ranged(a) && a.nodes != [] && Attached(a.nodes, id) && a.nodes[id].outcome.Some?
    ensures var kids := Children(a.nodes, id);
            var kept := Kept(a.nodes, kids, a.nodes[id].outcome.value);
            Attached(Reconcile(a, id).nodes, x) <==> Attached(a.nodes, x) && !Cut(a.nodes, kids, kept, x)
    decreases x
  {
    var kids := Children(a.nodes, id);
    var kept := Kept(a.nodes, kids, a.nodes[id].outcome.value);
    var r := Reconcile(a, id).nodes;
    if x == 0 {
      forall j | 0 <= j < |kids| && kids[j] !in kept
        ensures !Under(a.nodes, x, kids[j])
      {
        KidFacts(a.nodes, id, kids[j]);
      }
    } else if x < |r| {
      assert NodeLinked(a.nodes, x) && NodeLinked(r, x);
      ReconcileKids(a, id);
      var p := a.nodes[x].parent.value;
      assert r[x].parent == a.nodes[x].parent;
      ReconcileAttached(a, id, p);
      CutStep(a.nodes, id, kids, kept, x);
    }
  }

  lemma {:induction false} CutStep(nodes: seq<ProofNode>, id: nat, kids: seq<nat>, kept: seq<nat>, x: nat)
    requires Linked(nodes) && id < |nodes| && kids == Children(nodes, id) && 0 < x < |nodes|
    ensures nodes[x].parent.Some? && nodes[x].parent.value < x
    ensures Cut(nodes, kids, kept, x) <==>
              Cut(nodes, kids, kept, nodes[x].parent.value) || (x in kids && x !in kept)
  {
    assert NodeLinked(nodes, x);
    var p := nodes[x].parent.value;
    forall j | 0 <= j < |kids|
      ensures Under(nodes, x, kids[j]) <==> Under(nodes, p, kids[j]) || x == kids[j]
    {
      UnderStep(nodes, x, kids[j]);
    }
    if x in kids && x !in kept {
      var j :| 0 <= j < |kids| && kids[j] == x;
      assert Under(nodes, x, kids[j]);
    }
  }

  lemma {:induction false} UnderStep(nodes: seq<ProofNode>, x: nat, c: nat)
    requires Linked(nodes) && 0 < x < |nodes| && 0 < c
    ensures nodes[x].parent.Some? && nodes[x].parent.value < x
    ensures Under(nodes, x, c) <==> Under(nodes, nodes[x].parent.value, c) || x == c
  {
    assert NodeLinked(nodes, x);
    assert Under(nodes, nodes[x].parent.value, c) ==> c <= nodes[x].parent.value;
  }

  lemma {:induction false} ReconcileExact(a: Arena, id: nat)
    requires Ranged(a) && IndexExact(a) && Attached(a.nodes, id)
    ensures IndexExact(Reconcile(a, id))
  {
    if a.nodes[id].outcome.Some? {
      var kids := Children(a.nodes, id);
      var kept := Kept(a.nodes, kids, a.nodes[id].outcome.value);
      var r := Reconcile(a, id);
      ReconcileKids(a, id);
      forall i: nat, c: nat
        ensures EdgeIndexed(r, i, c)
      {
        ReconcileAttached(a, id, i);
        assert EdgeIndexed(a, i, c);
        if Attached(r.nodes, i) && IsKid(r.nodes, i, c) {
          KeptEdge(a, id, kids, kept, i, c);
        }
      }
      forall k: (nat, Move)
        ensures KeyIsEdge(r, k)
      {
        ReconcileAttached(a, id, k.0);
        assert KeyIsEdge(a, k);
      }
    }
  }

  /** The key of a surviving edge is not dropped: siblings have different moves. */
  lemma {:induction false} KeptEdge(a: Arena, id: nat, kids: seq<nat>, kept: seq<nat>, i: nat, c: nat)
    requires Ranged(a) && IndexExact(a) && Attached(a.nodes, id) && kids == Children(a.nodes, id)
    requires IsKid(a.nodes, i, c) && (i == id ==> c in kept) && Attached(a.nodes, i) && !Cut(a.nodes, kids, kept, i)
    ensures !Dropped(a.nodes, id, kids, kept, (i, a.nodes[c].mv))
  {
    assert EdgeIndexed(a, i, c);
    forall j | 0 <= j < |kids| && kids[j] !in kept
      ensures (i, a.nodes[c].mv) != (id, a.nodes[kids[j]].mv)
    {
      assert IsKid(a.nodes, id, kids[j]) && EdgeIndexed(a, id, kids[j]);
    }
  }

  lemma {:induction false} ReconcilePolar(a: Arena, id: nat)
    requires Ranged(a) && id < |a.nodes|
    ensures Polar(Reconcile(a, id).nodes, id)
    ensures forall i: nat :: i != id && Polar(a.nodes, i) ==> Polar(Reconcile(a, id).nodes, i)
  {
    if a.nodes[id].outcome.Some? {
      var kids := Children(a.nodes, id);
      var o := a.nodes[id].outcome.value;
      var kept := Kept(a.nodes, kids, o);
      var r := Reconcile(a, id).nodes;
      ReconcileKids(a, id);
      KeptFrom(a.nodes, kids, o);
      assert forall i: nat, c: nat :: i != id ==> (RealKid(r, i, c) <==> RealKid(a.nodes, i, c));
      assert forall c: nat :: RealKid(r, id, c) ==> c in kept;
    }
  }

  /** Entries above the reconciled node survive. */
  lemma {:induction false} ReconcileKeepsAbove(a: Arena, id: nat)
    requires Ranged(a) && id < |a.nodes|
    ensures forall k :: k in a.index && k.0 < id ==>
              k in Reconcile(a, id).index && Reconcile(a, id).index[k] == a.index[k]
  {
    var kids := Children(a.nodes, id);
    forall x: nat, j | x < id && 0 <= j < |kids|
      ensures !Under(a.nodes, x, kids[j])
    {
      assert IsKid(a.nodes, id, kids[j]);
      KidFacts(a.nodes, id, kids[j]);
    }
  }

  // ----- events -----

  lemma {:induction false} ApplyKeeps(a: Arena, id: nat, e: Event)
    requires Ranged(a) && IndexExact(a) && id < |a.nodes| && (id > 0 ==> a.nodes[id].mv == e.Mv())
    ensures var b := a.(nodes := Apply(a.nodes, id, e));
            Ranged(b) && IndexExact(b)
  {
    var b := a.(nodes := Apply(a.nodes, id, e));
    ApplyRanged(a, id, e);
    SameLinksKids(a.nodes, b.nodes);
    assert forall i :: 0 < i < |a.nodes| ==> b.nodes[i].mv == a.nodes[i].mv;
    forall i: nat, c: nat
      ensures EdgeIndexed(b, i, c)
    {
      SameLinksAttached(a.nodes, b.nodes, i);
      assert EdgeIndexed(a, i, c);
    }
    forall k: (nat, Move)
      ensures KeyIsEdge(b, k)
    {
      SameLinksAttached(a.nodes, b.nodes, k.0);
      assert KeyIsEdge(a, k);
    }
  }

  /** Realising or deepening a node disturbs only its own and its parent's choice of
      children. */
  lemma {:induction false} ApplyPolar(a: Arena, id: nat, e: Event, i: nat)
    requires Ranged(a) && id < |a.nodes| && Polar(a.nodes, i)
    requires a.nodes[id].outcome.None? ==> i != id && a.nodes[id].parent != Some(i)
    ensures Ranged(a.(nodes := Apply(a.nodes, id, e))) && Polar(Apply(a.nodes, id, e), i)
  {
    ApplyRanged(a, id, e);
    var b := Apply(a.nodes, id, e);
    SameLinksKids(a.nodes, b);
    assert forall c: nat :: RealKid(b, i, c) <==> RealKid(a.nodes, i, c);
  }

  lemma {:induction false} RealiseKeeps(a: Arena, id: nat, e: Event)
    requires Inv(a) && Attached(a.nodes, id) && (id > 0 ==> a.nodes[id].mv == e.Mv())
    ensures var b := Realise(a, id, e);
            && IndexExact(b)
            && (forall i: nat :: a.nodes[id].parent != Some(i) ==> Polar(b.nodes, i))
            && (forall k :: k in a.index && k.0 < id ==> k in b.index && b.index[k] == a.index[k])
            && (id > 0 ==> b.nodes[id].parent == a.nodes[id].parent)
  {
    ApplyKeeps(a, id, e);
    var b := a.(nodes := Apply(a.nodes, id, e));
    forall i: nat | a.nodes[id].parent != Some(i) && (a.nodes[id].outcome.None? ==> i != id)
      ensures Polar(b.nodes, i)
    {
      ApplyPolar(a, id, e, i);
    }
    if a.nodes[id].outcome.None? {
      SameLinksAttached(a.nodes, b.nodes, id);
      ReconcileExact(b, id);
      ReconcilePolar(b, id);
      ReconcileKeepsAbove(b, id);
      if b.nodes[id].outcome.Some? {
        ReconcileKids(b, id);
      }
    }
  }

  /** The located node of a nonempty path hangs below the node of the path's parent. */
  lemma {:induction false} LocatedParent(a: Arena, path: seq<Move>)
    requires Inv(a) && path != []
    ensures var l := Locate(a, path, |path|);
            var p := Locate(a, path, |path| - 1).1;
            && p < l.1 && l.0.nodes[l.1].parent == Some(p) && Attached(l.0.nodes, p)
            && Inv(l.0) && Attached(l.0.nodes, l.1) && l.0.nodes[l.1].mv == path[|path| - 1]
  {
    hide Step, Attached, IndexExact;
    var n := |path| - 1;
    LocateKeeps(a, path, n);
    var l1 := Locate(a, path, n);
    StepKeeps(l1.0, l1.1, path[n]);
    var l := Step(l1.0, l1.1, path[n]);
    assert l == Locate(a, path, n + 1);
    KidFacts(l.0.nodes, l1.1, l.1);
    LocateInv(a, path, n + 1);
    AttachedParent(l.0.nodes, l.1);
  }

  /** The lookup of the parent after the node was realised creates nothing: an event changes
      its own node, that node's children and its siblings. */
  lemma {:induction false} ProcessParent(a: Arena, e: Event) returns (p: nat)
    requires Inv(a) && e.path != []
    ensures var l := Locate(a, e.path, |e.path|);
            var b := Realise(l.0, l.1, e);
            && p < l.1 && l.0.nodes[l.1].parent == Some(p) && Attached(l.0.nodes, p)
            && Process(a, e) == if b.nodes[p].outcome.Some? then Reconcile(b, p) else b
  {
    LocatedParent(a, e.path);
    var l := Locate(a, e.path, |e.path|);
    p := Locate(a, e.path, |e.path| - 1).1;
    RealiseKeeps(l.0, l.1, e);
    ExactRises(a);
    LocateParent(a, e.path, Realise(l.0, l.1, e));
  }

  lemma {:induction false} AttachedParent(nodes: seq<ProofNode>, i: nat)
    requires Linked(nodes) && Attached(nodes, i) && i > 0
    ensures nodes[i].parent.Some? && Attached(nodes, nodes[i].parent.value)
  {
  }

  lemma {:induction false} LocateInv(a: Arena, path: seq<Move>, n: nat)
    requires Inv(a) && n <= |path|
    ensures Inv(Locate(a, path, n).0)
  {
    LocateKeeps(a, path, n);
    forall i: nat
      ensures Polar(Locate(a, path, n).0.nodes, i)
    {
      LocatePolar(a, path, n, i);
    }
  }

  /** Every event keeps the invariant. */
  lemma {:induction false} ProcessKeeps(a: Arena, e: Event)
    requires Inv(a)
    ensures Inv(Process(a, e))
  {
    var n := |e.path|;
    LocateInv(a, e.path, n);
    LocateKeeps(a, e.path, n);
    var l := Locate(a, e.path, n);
    var b := Realise(l.0, l.1, e);
    RealiseKeeps(l.0, l.1, e);
    if n == 0 {
      assert NodeLinked(l.0.nodes, 0);
    } else {
      var p := ProcessParent(a, e);
      if b.nodes[p].outcome.Some? {
        RealiseAttached(l.0, l.1, e, p);
        ReconcileExact(b, p);
        ReconcilePolar(b, p);
      }
    }
  }

  /** Nodes above the realised one stay attached. */
  lemma {:induction false} RealiseAttached(a: Arena, id: nat, e: Event, p: nat)
    requires Ranged(a) && Attached(a.nodes, id) && Attached(a.nodes, p) && p < id
    ensures Attached(Realise(a, id, e).nodes, p)
  {
    ApplyRanged(a, id, e);
    var b := a.(nodes := Apply(a.nodes, id, e));
    SameLinksAttached(a.nodes, b.nodes, p);
    SameLinksAttached(a.nodes, b.nodes, id);
    if a.nodes[id].outcome.None? {
      ReconcileAttached(b, id, p);
      CutBelow(b.nodes, id, p);
    }
  }

  lemma {:induction false} CutBelow(nodes: seq<ProofNode>, id: nat, p: nat)
    requires Linked(nodes) && id < |nodes| && p <= id
    ensures forall kept :: !Cut(nodes, Children(nodes, id), kept, p)
  {
    var kids := Children(nodes, id);
    forall j | 0 <= j < |kids|
      ensures !Under(nodes, p, kids[j])
    {
      KidFacts(nodes, id, kids[j]);
    }
  }

  lemma {:induction false} FreshInv()
    ensures Inv(Fresh())
  {
    var a := Fresh();
    assert NodeLinked(a.nodes, 0);
    assert forall i: nat, c: nat :: !IsKid(a.nodes, i, c);
    assert forall i: nat, c: nat :: EdgeIndexed(a, i, c);
  }

  /** The worker's invariant holds after any run of events. */
  lemma {:induction false} RunKeeps(es: seq<Event>, n: nat)
    requires n <= |es|
    ensures Inv(Run(es, n))
  {
    hide Process, Inv;
    if n == 0 {
      FreshInv();
    } else {
      RunKeeps(es, n - 1);
      ProcessKeeps(Run(es, n - 1), es[n - 1]);
    }
  }

  /** The first child of `i`, in chain order from position `j`, reached by `m`. */
  function Scan(nodes: seq<ProofNode>, kids: seq<nat>, j: nat, m: Move): Option<nat>
    requires Within(kids, 0, |nodes|) && j <= |kids|
    decreases |kids| - j
  {
    if j == |kids| then None
    else if nodes[kids[j]].mv == m then Some(kids[j])
    else Scan(nodes, kids, j + 1, m)
  }

  lemma {:induction false} ScanFinds(nodes: seq<ProofNode>, kids: seq<nat>, j: nat, m: Move)
    requires Within(kids, 0, |nodes|) && j <= |kids|
    ensures var f := Scan(nodes, kids, j, m);
            && (f.Some? ==> f.value < |nodes| && f.value in kids && nodes[f.value].mv == m)
            && (f.None? ==> forall k :: j <= k < |kids| ==> nodes[kids[k]].mv != m)
    decreases |kids| - j
  {
    if j < |kids| {
      ScanFinds(nodes, kids, j + 1, m);
    }
  }

  /** After any run of events an index lookup at a node the root reaches answers what a scan of
      that node's sibling chain would. */
  lemma {:induction false} LookupIsScan(es: seq<Event>, i: nat, m: Move)
    requires Attached(Run(es, |es|).nodes, i)
    ensures var a := Run(es, |es|);
            (if (i, m) in a.index then Some(a.index[(i, m)]) else None) == Scan(a.nodes, Children(a.nodes, i), 0, m)
  {
    var a := Run(es, |es|);
    RunKeeps(es, |es|);
    var kids := Children(a.nodes, i);
    ScanFinds(a.nodes, kids, 0, m);
    var f := Scan(a.nodes, kids, 0, m);
    assert KeyIsEdge(a, (i, m));
    if (i, m) in a.index {
      var k :| 0 <= k < |kids| && kids[k] == a.index[(i, m)];
      assert f.Some?;
    }
    if f.Some? {
      assert EdgeIndexed(a, i, f.value);
    }
  }
}
