/** One event of a completed walk, processed by the worker: nothing is pruned, one node is
    appended. */
module WalkAppend {
  import opened Game
  import opened Tree
  import opened Worker
  import opened WorkerInvariant
  import opened WorkerMachine

  // ----- relinking all children changes nothing -----

  lemma {:induction false} ChainNext(nodes: seq<ProofNode>, next: Option<nat>, k: nat)
    requires Linked(nodes) && (next.Some? ==> next.value < |nodes|) && k < |Chain(nodes, next)|
    ensures Chain(nodes, next)[k] < |nodes|
    ensures var ids := Chain(nodes, next);
            nodes[ids[k]].nextSibling == if k + 1 == |ids| then None else Some(ids[k + 1])
    decreases k
  {
    assert NodeLinked(nodes, next.value);
    var rest := nodes[next.value].nextSibling;
    if k > 0 {
      ChainNext(nodes, rest, k - 1);
    } else if rest.Some? {
      assert Chain(nodes, rest) != [];
    }
  }

  lemma {:induction false} RelinkedAt(nodes: seq<ProofNode>, p: nat, kids: seq<nat>, r: seq<ProofNode>, i: nat)
    requires Linked(nodes) && p < |nodes| && kids == Children(nodes, p) && Relinked(nodes, p, kids, 0, r) && i < |nodes|
    ensures r[i] == nodes[i]
  {
    assert NodeLinked(nodes, p);
    if !Absent(kids, 0, i) {
      var k :| 0 <= k < |kids| && kids[k] == i;
      ChainNext(nodes, nodes[p].firstChild, k);
      assert NextIs(r, kids, k);
    }
  }

  lemma {:induction false} RelinkAll(nodes: seq<ProofNode>, p: nat)
    requires Linked(nodes) && p < |nodes|
    ensures var kids := Children(nodes, p); Relink(nodes, p, kids, 0) == nodes
  {
    var kids := Children(nodes, p);
    ChildrenSelection(nodes, p);
    RelinkFields(nodes, p, kids, 0);
    var r := Relink(nodes, p, kids, 0);
    hide Relink, Relinked, Children;
    forall i | 0 <= i < |nodes|
      ensures r[i] == nodes[i]
    {
      RelinkedAt(nodes, p, kids, r, i);
    }
  }

  lemma {:induction false} WinsAll(nodes: seq<ProofNode>, kids: seq<nat>, n: nat)
    requires Within(kids, 0, |nodes|) && n <= |kids| && forall k :: 0 <= k < n ==> nodes[kids[k]].outcome == Some(Win)
    ensures Wins(nodes, kids, n) == kids[..n]
  {
    if n > 0 {
      WinsAll(nodes, kids, n - 1);
      assert kids[..n] == kids[..n - 1] + [kids[n - 1]];
    }
  }

  /** The children of `p` all prove its outcome, and a Win node has at most one. */
  ghost predicate AllProve(nodes: seq<ProofNode>, p: nat)
    requires Linked(nodes) && p < |nodes|
  {
    var kids := Children(nodes, p);
    nodes[p].outcome.Some? && nodes[p].outcome != Some(Draw) && (nodes[p].outcome == Some(Win) ==> |kids| <= 1)
    && forall k :: 0 <= k < |kids| ==>
         nodes[kids[k]].outcome == Some(nodes[p].outcome.value.Flip()) && nodes[kids[k]].depth < U32_MAX
  }

  lemma {:induction false} KeepAll(nodes: seq<ProofNode>, p: nat)
    requires Linked(nodes) && p < |nodes| && AllProve(nodes, p)
    ensures Kept(nodes, Children(nodes, p), nodes[p].outcome.value) == Children(nodes, p)
  {
    var kids := Children(nodes, p);
    if nodes[p].outcome == Some(Loss) {
      WinsAll(nodes, kids, |kids|);
      assert kids[..|kids|] == kids;
    } else if |kids| == 1 {
      assert nodes[kids[0]].outcome == Some(Loss);
      assert BestLoss(nodes, kids, 1) == Some(0);
      assert kids == [kids[0]];
    }
  }

  /** A Win's only child, a Loss, survives reconciling exactly when its depth is below the
      saturation value: the running best depth starts there. */
  lemma {:induction false} OnlyLossKept(nodes: seq<ProofNode>, c: nat)
    requires c < |nodes| && nodes[c].outcome == Some(Loss)
    ensures Kept(nodes, [c], Win) == [c] <==> nodes[c].depth < U32_MAX
  {
    assert BestLoss(nodes, [c], 0) == None;
    assert BestLoss(nodes, [c], 1) == if nodes[c].depth < U32_MAX then Some(0) else None;
  }

  /** Reconciling a node whose children all prove it changes nothing. */
  lemma {:induction false} ReconcileNothing(a: Arena, p: nat)
    requires Ranged(a) && p < |a.nodes|
    requires a.nodes[p].outcome.Some? ==>
        Kept(a.nodes, Children(a.nodes, p), a.nodes[p].outcome.value) == Children(a.nodes, p)
    ensures Reconcile(a, p) == a
  {
    if a.nodes[p].outcome.Some? {
      RelinkAll(a.nodes, p);
      var kids := Children(a.nodes, p);
      assert forall j :: 0 <= j < |kids| ==> kids[j] in kids;
      assert forall k :: k in a.index ==> !Dropped(a.nodes, p, kids, kids, k);
    }
  }

  lemma {:induction false} KeepNone(nodes: seq<ProofNode>, p: nat, o: Outcome)
    requires Linked(nodes) && p < |nodes| && Children(nodes, p) == []
    ensures Kept(nodes, Children(nodes, p), o) == []
  {
  }

  // ----- appending -----

  /** The arena with one more realised child of `p`. */
  function Appended(a: Arena, p: nat, e: Event): (r: Arena)
    requires Ranged(a) && p < |a.nodes|
    ensures Ranged(r)
  {
    Arena(AddNode(a.nodes, p, e.Mv(), e.hash, Some(e.outcome), e.depth), a.index[(p, e.Mv()) := |a.nodes|])
  }

  /** Node `p` waits for a child `e`: it is decided the other way, its children so far prove
      it, none of them is a Win's only one, and none has the event's move. */
  ghost predicate Waits(a: Arena, p: nat, e: Event)
    requires Ranged(a)
  {
    && p < |a.nodes| && AllProve(a.nodes, p) && a.nodes[p].outcome == Some(e.outcome.Flip()) && e.outcome != Draw
    && e.depth < U32_MAX
    && (a.nodes[p].outcome == Some(Win) ==> Children(a.nodes, p) == [])
    && (p, e.Mv()) !in a.index
  }

  lemma {:induction false} AppendedProves(a: Arena, p: nat, e: Event)
    requires Ranged(a) && Waits(a, p, e)
    ensures AllProve(Appended(a, p, e).nodes, p)
  {
    var r := Appended(a, p, e).nodes;
    AddNodeChildren(a.nodes, p, e.Mv(), e.hash, Some(e.outcome), e.depth);
    var kids := Children(a.nodes, p);
    forall k | 0 <= k < |Children(r, p)|
      ensures r[Children(r, p)[k]].outcome == Some(r[p].outcome.value.Flip()) && r[Children(r, p)[k]].depth < U32_MAX
    {
      if k > 0 {
        assert Children(r, p)[k] == kids[k - 1] && kids[k - 1] in kids;
      }
    }
  }

  /** A placeholder made real is a realised node. */
  lemma {:induction false} RealisedNode(a: Arena, p: nat, e: Event)
    requires Ranged(a) && p < |a.nodes| && (p, e.Mv()) !in a.index
    ensures var s := Step(a, p, e.Mv());
            s.1 == |a.nodes| && Realise(s.0, s.1, e) == Appended(a, p, e)
  {
    var s := Step(a, p, e.Mv());
    var id := |a.nodes|;
    AddNodeChildren(a.nodes, p, e.Mv(), 0, None, 0);
    ApplyRanged(s.0, id, e);
    var b := s.0.(nodes := Apply(s.0.nodes, id, e));
    SameLinksKids(s.0.nodes, b.nodes);
    KeepNone(b.nodes, id, e.outcome);
    ReconcileNothing(b, id);
    assert b.nodes == Appended(a, p, e).nodes;
  }

  /** `path` names node `id`. */
  ghost predicate Knows(a: Arena, path: seq<Move>, id: nat)
    requires Ranged(a)
  {
    Locate(a, path, |path|) == (a, id)
  }

  lemma {:induction false} KnowsKid(a: Arena, path: seq<Move>, id: nat, m: Move)
    requires Ranged(a) && Knows(a, path, id) && (id, m) in a.index
    ensures Knows(a, path + [m], a.index[(id, m)])
  {
    assert (path + [m])[..|path|] == path;
    LocatePrefix(a, path + [m], |path|, |path|);
  }

  lemma {:induction false} KnowsStep(a: Arena, path: seq<Move>, p: nat)
    requires Ranged(a) && path != [] && Knows(a, path[..|path| - 1], p)
    ensures Locate(a, path, |path| - 1) == (a, p)
    ensures p < |a.nodes| && Locate(a, path, |path|) == Step(a, p, path[|path| - 1])
  {
    LocatePrefix(a, path, |path| - 1, |path| - 1);
  }

  /** Known paths stay known while the index only grows. */
  lemma {:induction false} KnowsMore(a: Arena, b: Arena, path: seq<Move>, id: nat)
    requires Ranged(a) && Ranged(b) && Knows(a, path, id) && Rises(a)
    requires forall k :: k in a.index ==> k in b.index && b.index[k] == a.index[k]
    ensures Knows(b, path, id)
  {
    var ids := LocateTrail(a, path, |path|);
    FollowTrail(b, path, |path|, ids, |path|);
  }

  /** The event of a waiting child appends one node and nothing else. */
  lemma {:induction false} ProcessAppends(a: Arena, e: Event, p: nat)
    requires Inv(a) && e.path != [] && Knows(a, e.path[..|e.path| - 1], p) && Waits(a, p, e)
    ensures Process(a, e) == Appended(a, p, e)
  {
    hide Waits, AllProve, Knows, Locate, Realise, Step, Reconcile, Appended;
    KnowsStep(a, e.path, p);
    WaitsFacts(a, p, e);
    RealisedNode(a, p, e);
    var b := Appended(a, p, e);
    var q := ProcessParent(a, e);
    AppendedFacts(a, p, e);
    StepParent(a, p, e.Mv());
    AppendedProves(a, p, e);
    ProvesKept(b.nodes, p);
    ReconcileNothing(b, p);
  }

  lemma {:induction false} ProvesKept(nodes: seq<ProofNode>, p: nat)
    requires Linked(nodes) && p < |nodes| && AllProve(nodes, p)
    ensures nodes[p].outcome.Some? && Kept(nodes, Children(nodes, p), nodes[p].outcome.value) == Children(nodes, p)
  {
    KeepAll(nodes, p);
  }

  lemma {:induction false} WaitsFacts(a: Arena, p: nat, e: Event)
    requires Ranged(a) && Waits(a, p, e)
    ensures p < |a.nodes| && (p, e.Mv()) !in a.index
  {
  }

  lemma {:induction false} AppendedFacts(a: Arena, p: nat, e: Event)
    requires Ranged(a) && p < |a.nodes|
    ensures |Appended(a, p, e).nodes| == |a.nodes| + 1
  {
  }

  lemma {:induction false} StepParent(a: Arena, p: nat, m: Move)
    requires Ranged(a) && p < |a.nodes| && (p, m) !in a.index
    ensures var s := Step(a, p, m); s.1 == |a.nodes| && s.0.nodes[s.1].parent == Some(p)
  {
  }
}
