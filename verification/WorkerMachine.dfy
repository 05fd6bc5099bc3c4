/** The worker itself: the arena and the index updated in place, method by method against the
    event specification. */
module WorkerMachine {
  import opened Game
  import opened Tree
  import opened Worker
  import opened WorkerInvariant

  // ----- the index entries below a node -----

  function EdgeKeys(nodes: seq<ProofNode>, id: nat, ids: seq<nat>, n: nat): set<(nat, Move)>
    requires Within(ids, 0, |nodes|) && n <= |ids|
  {
    if n == 0 then {} else EdgeKeys(nodes, id, ids, n - 1) + {(id, nodes[ids[n - 1]].mv)}
  }

  /** The keys of every edge of the chain subtree of `id`. */
  ghost function KeysBelow(nodes: seq<ProofNode>, id: nat): set<(nat, Move)>
    requires Linked(nodes) && id < |nodes|
    decreases |nodes| - id, 0, 0
  {
    var kids := Children(nodes, id);
    EdgeKeys(nodes, id, kids, |kids|) + KeysAll(nodes, kids, |kids|, id + 1)
  }

  ghost function KeysAll(nodes: seq<ProofNode>, ids: seq<nat>, n: nat, low: nat): set<(nat, Move)>
    requires Linked(nodes) && Within(ids, low, |nodes|) && n <= |ids|
    decreases |nodes| - low, 1, n
  {
    if n == 0 then {} else KeysAll(nodes, ids, n - 1, low) + KeysBelow(nodes, ids[n - 1])
  }

  /** Everything a stack of nodes still has to remove. */
  ghost function Pending(nodes: seq<ProofNode>, ids: seq<nat>): set<(nat, Move)>
    requires Linked(nodes)
  {
    if ids == [] then {}
    else
      var c := ids[|ids| - 1];
      Pending(nodes, ids[..|ids| - 1]) + if c < |nodes| then KeysBelow(nodes, c) else {}
  }

  /** The steps a stack of nodes still takes. */
  ghost function Size(nodes: seq<ProofNode>, ids: seq<nat>): nat
    requires Linked(nodes)
  {
    if ids == [] then 0
    else
      var c := ids[|ids| - 1];
      Size(nodes, ids[..|ids| - 1]) + if c < |nodes| then Weight(nodes, c) else 0
  }

  lemma {:induction false} EdgeKeysHas(nodes: seq<ProofNode>, id: nat, ids: seq<nat>, n: nat, k: (nat, Move))
    requires Within(ids, 0, |nodes|) && n <= |ids|
    ensures k in EdgeKeys(nodes, id, ids, n) <==> k.0 == id && exists j :: 0 <= j < n && nodes[ids[j]].mv == k.1
  {
    if n > 0 {
      EdgeKeysHas(nodes, id, ids, n - 1, k);
    }
  }

  lemma {:induction false} KeysAllFind(nodes: seq<ProofNode>, ids: seq<nat>, n: nat, low: nat, k: (nat, Move))
    returns (j: nat)
    requires Linked(nodes) && Within(ids, low, |nodes|) && n <= |ids| && k in KeysAll(nodes, ids, n, low)
    ensures j < n && k in KeysBelow(nodes, ids[j])
    decreases n
  {
    j := n - 1;
    if k !in KeysBelow(nodes, ids[n - 1]) {
      j := KeysAllFind(nodes, ids, n - 1, low, k);
    }
  }

  lemma {:induction false} KeysAllHas(nodes: seq<ProofNode>, ids: seq<nat>, n: nat, low: nat, j: nat)
    requires Linked(nodes) && Within(ids, low, |nodes|) && j < n <= |ids|
    ensures KeysBelow(nodes, ids[j]) <= KeysAll(nodes, ids, n, low)
    decreases n
  {
    if j < n - 1 {
      KeysAllHas(nodes, ids, n - 1, low, j);
    }
  }

  lemma {:induction false} SizeFrom(nodes: seq<ProofNode>, ids: seq<nat>, i: nat, low: nat)
    requires Linked(nodes) && Within(ids, low, |nodes|) && i <= |ids|
    ensures Size(nodes, ids) == Size(nodes, ids[..i]) + WeightAll(nodes, ids, i, low)
    decreases |ids| - i
  {
    if i < |ids| {
      assert ids[..i + 1][..i] == ids[..i];
      SizeFrom(nodes, ids, i + 1, low);
    } else {
      assert ids[..i] == ids;
    }
  }

  /** The keys below a child are among the keys below its parent. */
  lemma {:induction false} KeysBelowKid(nodes: seq<ProofNode>, i: nat, c: nat)
    requires Linked(nodes) && IsKid(nodes, i, c)
    ensures KeysBelow(nodes, c) <= KeysBelow(nodes, i)
  {
    var kids := Children(nodes, i);
    var j :| 0 <= j < |kids| && kids[j] == c;
    KeysAllHas(nodes, kids, |kids|, i + 1, j);
  }

  lemma {:induction false} KeysBelowUnder(nodes: seq<ProofNode>, root: nat, x: nat)
    requires Linked(nodes) && root < |nodes| && Attached(nodes, x) && Under(nodes, x, root)
    ensures KeysBelow(nodes, x) <= KeysBelow(nodes, root)
    decreases x
  {
    if x != root {
      AttachedParent(nodes, x);
      KeysBelowUnder(nodes, root, nodes[x].parent.value);
      KeysBelowKid(nodes, nodes[x].parent.value, x);
    }
  }

  lemma {:induction false} KeysBelowCases(nodes: seq<ProofNode>, root: nat, k: (nat, Move)) returns (c: nat)
    requires Linked(nodes) && root < |nodes| && k in KeysBelow(nodes, root)
    ensures k.0 == root || (IsKid(nodes, root, c) && k in KeysBelow(nodes, c))
  {
    var kids := Children(nodes, root);
    EdgeKeysHas(nodes, root, kids, |kids|, k);
    if k.0 != root {
      var j := KeysAllFind(nodes, kids, |kids|, root + 1, k);
      c := kids[j];
    } else {
      c := root;
    }
  }

  lemma {:induction false} KeysBelowAre(nodes: seq<ProofNode>, root: nat, k: (nat, Move))
    requires Linked(nodes) && root < |nodes| && k in KeysBelow(nodes, root)
    ensures k.0 < |nodes| && Under(nodes, k.0, root)
    decreases |nodes| - root
  {
    var c := KeysBelowCases(nodes, root, k);
    if k.0 != root {
      KidFacts(nodes, root, c);
      KeysBelowAre(nodes, c, k);
      UnderParent(nodes, k.0, c);
    }
  }

  /** With an exact index the entries below a node are those whose parent lies under it. */
  lemma {:induction false} IndexedBelow(a: Arena, root: nat, k: (nat, Move))
    requires Ranged(a) && IndexExact(a) && root < |a.nodes| && k in a.index
    ensures k in KeysBelow(a.nodes, root) <==> k.0 < |a.nodes| && Under(a.nodes, k.0, root)
  {
    if k in KeysBelow(a.nodes, root) {
      KeysBelowAre(a.nodes, root, k);
    } else if k.0 < |a.nodes| && Under(a.nodes, k.0, root) {
      assert KeyIsEdge(a, k);
      KeysBelowUnder(a.nodes, root, k.0);
      var kids := Children(a.nodes, k.0);
      EdgeKeysHas(a.nodes, k.0, kids, |kids|, k);
    }
  }

  /** The keys the first `n` children take with them when they are not kept. */
  ghost function Removed(nodes: seq<ProofNode>, id: nat, kids: seq<nat>, kept: seq<nat>, n: nat): set<(nat, Move)>
    requires Linked(nodes) && Within(kids, 0, |nodes|) && n <= |kids|
  {
    if n == 0 then {}
    else
      var c := kids[n - 1];
      Removed(nodes, id, kids, kept, n - 1) + if c in kept then {} else {(id, nodes[c].mv)} + KeysBelow(nodes, c)
  }

  lemma {:induction false} RemovedHas(nodes: seq<ProofNode>, id: nat, kids: seq<nat>, kept: seq<nat>, n: nat,
          k: (nat, Move))
    requires Linked(nodes) && Within(kids, 0, |nodes|) && n <= |kids|
    ensures k in Removed(nodes, id, kids, kept, n) <==>
            exists j ::
              0 <= j < n && kids[j] !in kept && (k == (id, nodes[kids[j]].mv) || k in KeysBelow(nodes, kids[j]))
  {
    if n > 0 {
      RemovedHas(nodes, id, kids, kept, n - 1, k);
    }
  }

  lemma {:induction false} RemovedIsDropped(a: Arena, id: nat, kids: seq<nat>, kept: seq<nat>)
    requires Ranged(a) && IndexExact(a) && Within(kids, 0, |a.nodes|)
    ensures a.index - Removed(a.nodes, id, kids, kept, |kids|) ==
            map k | k in a.index && !Dropped(a.nodes, id, kids, kept, k) :: a.index[k]
  {
    forall k | k in a.index
      ensures k in Removed(a.nodes, id, kids, kept, |kids|) <==> Dropped(a.nodes, id, kids, kept, k)
    {
      RemovedHas(a.nodes, id, kids, kept, |kids|, k);
      forall j | 0 <= j < |kids|
        ensures k in KeysBelow(a.nodes, kids[j]) <==> k.0 < |a.nodes| && Under(a.nodes, k.0, kids[j])
      {
        IndexedBelow(a, kids[j], k);
      }
    }
  }

  // ----- loops over child lists -----

  /** The first of the shallowest Loss children, by the running best depth. */
  method PickLoss(nodes: seq<ProofNode>, kids: seq<nat>) returns (kept: seq<nat>)
    requires Within(kids, 0, |nodes|)
    ensures kept == Kept(nodes, kids, Win)
  {
    var best: Option<nat> := None;
    var bestDepth := U32_MAX;
    for i := 0 to |kids|
      invariant best == BestLoss(nodes, kids, i)
      invariant bestDepth == if best.Some? then nodes[kids[best.value]].depth else U32_MAX
    {
      var child := nodes[kids[i]];
      if child.outcome == Some(Loss) && child.depth < bestDepth {
        bestDepth := child.depth;
        best := Some(i);
      }
    }
    kept := if best.Some? then [kids[best.value]] else [];
  }

  method PickWins(nodes: seq<ProofNode>, kids: seq<nat>) returns (kept: seq<nat>)
    requires Within(kids, 0, |nodes|)
    ensures kept == Kept(nodes, kids, Loss)
  {
    kept := [];
    for i := 0 to |kids|
      invariant kept == Wins(nodes, kids, i)
    {
      if nodes[kids[i]].outcome == Some(Win) {
        kept := kept + [kids[i]];
      }
    }
  }

  /** Rebuild a child list, last kept child first. */
  method RebuildList(nodes: seq<ProofNode>, parent: nat, kept: seq<nat>) returns (r: seq<ProofNode>)
    requires parent < |nodes| && Within(kept, 0, |nodes|)
    ensures r == Relink(nodes, parent, kept, 0)
  {
    r := nodes[parent := nodes[parent].(firstChild := None)];
    for j := |kept| downto 0
      invariant r == Relink(nodes, parent, kept, j)
    {
      var oldFirst := r[parent].firstChild;
      r := r[kept[j] := r[kept[j]].(nextSibling := oldFirst)];
      r := r[parent := r[parent].(firstChild := Some(kept[j]))];
    }
  }

  lemma {:induction false} AllPending(nodes: seq<ProofNode>, ids: seq<nat>, n: nat, low: nat)
    requires Linked(nodes) && Within(ids, low, |nodes|) && n <= |ids|
    ensures KeysAll(nodes, ids, n, low) == Pending(nodes, ids[..n])
  {
    if n > 0 {
      AllPending(nodes, ids, n - 1, low);
      assert ids[..n][..n - 1] == ids[..n - 1];
    }
  }

  lemma {:induction false} Push(nodes: seq<ProofNode>, rest: seq<nat>, kids: seq<nat>)
    requires Linked(nodes)
    ensures Pending(nodes, rest + kids) == Pending(nodes, rest) + Pending(nodes, kids)
    ensures Size(nodes, rest + kids) == Size(nodes, rest) + Size(nodes, kids)
    decreases |kids|
  {
    if kids == [] {
      assert rest + kids == rest;
    } else {
      var front := kids[..|kids| - 1];
      assert (rest + kids)[..|rest + kids| - 1] == rest + front;
      Push(nodes, rest, front);
    }
  }

  lemma {:induction false} Single(nodes: seq<ProofNode>, id: nat)
    requires Linked(nodes) && id < |nodes|
    ensures Pending(nodes, [id]) == KeysBelow(nodes, id) && Size(nodes, [id]) == Weight(nodes, id)
  {
    assert [id][..0] == [];
  }

  lemma {:induction false} BelowUnfold(nodes: seq<ProofNode>, id: nat)
    requires Linked(nodes) && id < |nodes|
    ensures var kids := Children(nodes, id);
            && KeysBelow(nodes, id) == EdgeKeys(nodes, id, kids, |kids|) + Pending(nodes, kids)
            && Weight(nodes, id) == 2 + Size(nodes, kids)
  {
    var kids := Children(nodes, id);
    AllPending(nodes, kids, |kids|, id + 1);
    assert kids[..|kids|] == kids;
    SizeFrom(nodes, kids, 0, id + 1);
    assert kids[..0] == [];
  }

  /** What is still to be removed when a node is popped and its children are pushed. */
  lemma {:induction false} PopKeys(nodes: seq<ProofNode>, rest: seq<nat>, id: nat, kids: seq<nat>)
    requires Linked(nodes) && id < |nodes| && kids == Children(nodes, id)
    ensures Pending(nodes, rest + [id]) == EdgeKeys(nodes, id, kids, |kids|) + Pending(nodes, rest + kids)
    ensures Size(nodes, rest + kids) < Size(nodes, rest + [id])
  {
    Push(nodes, rest, [id]);
    Single(nodes, id);
    BelowUnfold(nodes, id);
    Push(nodes, rest, kids);
  }

  /** Removing a part of what is pending from the index leaves the rest pending. */
  lemma {:induction false} RemovePart<K, V>(index: map<K, V>, part: set<K>, rest: set<K>)
    ensures (index - part) - rest == index - (part + rest)
  {
  }

  class ProofTreeWorker {
    var nodes: seq<ProofNode>
    var index: map<(nat, Move), nat>
    var memoryLimited: bool

    constructor ()
      ensures Valid() && Now() == Fresh() && !memoryLimited
    {
      nodes := [ProofNode(None, None, None, NO_MOVE, 0, None, 0)];
      index := map[];
      memoryLimited := false;
      new;
      FreshInv();
    }

    ghost function Now(): Arena
      reads this
    {
      Arena(nodes, index)
    }

    ghost predicate Valid()
      reads this
    {
      Inv(Now())
    }

    /** Locate the node for `path`, creating placeholder ancestors as needed. */
    method FindOrCreateNode(path: seq<Move>) returns (id: nat)
      requires Ranged(Now())
      modifies this`nodes, this`index
      ensures (Now(), id) == Locate(old(Now()), path, |path|)
    {
      id := 0;
      for i := 0 to |path|
        invariant (Now(), id) == Locate(old(Now()), path, i)
      {
        var key := (id, path[i]);
        if key in index {
          id := index[key];
        } else {
          var newId := |nodes|;
          nodes := AddNode(nodes, id, path[i], 0, None, 0);
          index := index[key := newId];
          id := newId;
        }
      }
    }

    method ApplyEvent(id: nat, e: Event)
      requires id < |nodes|
      modifies this`nodes
      ensures nodes == Apply(old(nodes), id, e)
    {
      var node := nodes[id].(mv := e.Mv(), hash := e.hash);
      if node.outcome.None? {
        node := node.(outcome := Some(e.outcome), depth := e.depth);
      } else if e.depth < node.depth {
        node := node.(depth := e.depth);
      }
      nodes := nodes[id := node];
    }

    /** Forget the edges to the children of a popped node and push the children. */
    method PopEdges(id: nat, kids: seq<nat>, rest: seq<nat>) returns (stack: seq<nat>)
      requires Within(kids, 0, |nodes|)
      modifies this`index
      ensures index == old(index) - EdgeKeys(nodes, id, kids, |kids|) && stack == rest + kids
    {
      stack := rest;
      for i := 0 to |kids|
        invariant stack == rest + kids[..i]
        invariant index == old(index) - EdgeKeys(nodes, id, kids, i)
      {
        index := index - {(id, nodes[kids[i]].mv)};
        stack := stack + [kids[i]];
      }
    }

    /** Forget every edge of the subtree of `root`. */
    method RemoveChildIndexSubtree(root: nat)
      requires Linked(nodes) && root < |nodes|
      modifies this`index
      ensures index == old(index) - KeysBelow(nodes, root)
    {
      var stack := [root];
      Single(nodes, root);
      ghost var goal := index - KeysBelow(nodes, root);
      while stack != []
        invariant Within(stack, 0, |nodes|)
        invariant index - Pending(nodes, stack) == goal
        decreases Size(nodes, stack)
      {
        var id := stack[|stack| - 1];
        var rest := stack[..|stack| - 1];
        assert rest + [id] == stack;
        var kids := ListChildren(nodes, id);
        PopKeys(nodes, rest, id, kids);
        RemovePart(index, EdgeKeys(nodes, id, kids, |kids|), Pending(nodes, rest + kids));
        stack := PopEdges(id, kids, rest);
      }
    }

    /** Drop the children that are not kept from the index, with everything below them. */
    method DropChildren(parent: nat, kids: seq<nat>, kept: seq<nat>)
      requires Linked(nodes) && Within(kids, 0, |nodes|)
      modifies this`index
      ensures index == old(index) - Removed(nodes, parent, kids, kept, |kids|)
    {
      for i := 0 to |kids|
        invariant index == old(index) - Removed(nodes, parent, kids, kept, i)
      {
        if kids[i] !in kept {
          index := index - {(parent, nodes[kids[i]].mv)};
          RemoveChildIndexSubtree(kids[i]);
        }
      }
    }

    /** Keep the children that prove a realised node. */
    method ReconcileChildren(parent: nat)
      requires Ranged(Now()) && IndexExact(Now()) && parent < |nodes|
      modifies this`nodes, this`index
      ensures Now() == Reconcile(old(Now()), parent)
    {
      if nodes[parent].outcome.None? {
        return;
      }
      var oldChildren := ListChildren(nodes, parent);
      var kept: seq<nat>;
      match nodes[parent].outcome.value {
        case Win => kept := PickLoss(nodes, oldChildren);
        case Loss => kept := PickWins(nodes, oldChildren);
        case Draw => kept := [];
      }
      ReconcileIs(Now(), parent, oldChildren, kept);
      DropChildren(parent, oldChildren, kept);
      nodes := RebuildList(nodes, parent, kept);
    }

    method RealiseNode(id: nat, e: Event)
      requires Inv(Now()) && id < |nodes| && (id > 0 ==> nodes[id].mv == e.Mv())
      modifies this`nodes, this`index
      ensures Now() == Realise(old(Now()), id, e)
    {
      var wasDummy := nodes[id].outcome.None?;
      ApplyKeeps(Now(), id, e);
      ApplyEvent(id, e);
      if wasDummy {
        ReconcileChildren(id);
      }
    }

    method HandleEvent(e: Event)
      requires Valid()
      modifies this`nodes, this`index
      ensures Now() == Process(old(Now()), e)
    {
      InvIsExact(Now());
      hide Inv, Locate, Realise, Reconcile, IndexExact, Process, Ranged;
      ghost var was := Now();
      ProcessSteps(was, e);
      var id := FindOrCreateNode(e.path);
      RealiseNode(id, e);
      if e.path != [] {
        HandleParent(was, e);
      }
    }

    /** Reconcile the parent of a realised node. */
    method HandleParent(ghost was: Arena, e: Event)
      requires e.path != [] && Ranged(was) && Ranged(Now()) && ParentStep(was, e, Now())
      modifies this`nodes, this`index
      ensures Now() == Process(was, e)
    {
      hide Inv, Locate, Reconcile, Process, Ranged, IndexExact;
      var parentId := FindOrCreateNode(e.path[..|e.path| - 1]);
      if nodes[parentId].outcome.Some? {
        ReconcileChildren(parentId);
      }
    }

    /** One event, unless memory has run out; `over` says whether the estimate afterwards
        exceeds the budget. */
    method ProcessEvent(e: Event, over: bool)
      requires Valid()
      modifies this
      ensures Valid()
      ensures Now() == if old(memoryLimited) then old(Now()) else Process(old(Now()), e)
      ensures memoryLimited == (old(memoryLimited) || over)
    {
      if !memoryLimited {
        ProcessKeeps(Now(), e);
        HandleEvent(e);
        memoryLimited := over;
      }
    }
  }

  lemma {:induction false} ReconcileIs(a: Arena, id: nat, kids: seq<nat>, kept: seq<nat>)
    requires Ranged(a) && IndexExact(a) && id < |a.nodes| && a.nodes[id].outcome.Some?
    requires kids == Children(a.nodes, id) && kept == Kept(a.nodes, kids, a.nodes[id].outcome.value)
    ensures Within(kept, 0, |a.nodes|)
    ensures Reconcile(a, id) == Arena(Relink(a.nodes, id, kept, 0), a.index - Removed(a.nodes, id, kids, kept, |kids|))
  {
    KeptSelection(a.nodes, id, a.nodes[id].outcome.value);
    RemovedIsDropped(a, id, kids, kept);
  }

  lemma {:induction false} LocatePrefix(a: Arena, path: seq<Move>, n: nat, j: nat)
    requires Ranged(a) && j <= n <= |path|
    ensures Locate(a, path[..n], j) == Locate(a, path, j)
  {
    if j > 0 {
      LocatePrefix(a, path, n, j - 1);
    }
  }

  /** What each part of an event's handling needs. */
  lemma {:induction false} ProcessSteps(a: Arena, e: Event)
    requires Inv(a)
    ensures var l := Locate(a, e.path, |e.path|);
            && Inv(l.0) && (l.1 > 0 ==> l.0.nodes[l.1].mv == e.Mv())
            && if e.path != [] then ParentStep(a, e, Realise(l.0, l.1, e)) else Process(a, e) == Realise(l.0, l.1, e)
  {
    hide Inv, Locate, Realise, ParentStep;
    InvIsExact(a);
    LocateInv(a, e.path, |e.path|);
    LocateKeeps(a, e.path, |e.path|);
    var l := Locate(a, e.path, |e.path|);
    if e.path != [] {
      RealiseKeeps(l.0, l.1, e);
      ParentReady(a, e, Realise(l.0, l.1, e));
    }
  }

  lemma {:induction false} InvIsExact(a: Arena)
    requires Inv(a)
    ensures Ranged(a) && IndexExact(a)
  {
  }

  ghost predicate ParentStep(a: Arena, e: Event, b: Arena)
    requires Ranged(a) && Ranged(b) && e.path != []
  {
    var up := Locate(b, e.path[..|e.path| - 1], |e.path| - 1);
    && IndexExact(up.0)
    && Process(a, e) == if up.0.nodes[up.1].outcome.Some? then Reconcile(up.0, up.1) else up.0
  }

  lemma {:induction false} ParentReady(a: Arena, e: Event, b: Arena)
    requires Ranged(a) && Ranged(b) && IndexExact(b) && e.path != []
    requires var l := Locate(a, e.path, |e.path|); b == Realise(l.0, l.1, e)
    ensures ParentStep(a, e, b)
  {
    LocatePrefix(b, e.path, |e.path| - 1, |e.path| - 1);
    LocateKeeps(b, e.path, |e.path| - 1);
  }
}
