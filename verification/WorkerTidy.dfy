/** Two further facts every event keeps: moves below the root are real, and siblings differ in
    their moves, also in subtrees that were dropped. */
module WorkerTidy {
  import opened Game
  import opened Tree
  import opened Worker
  import opened WorkerInvariant

  ghost predicate SameMove(nodes: seq<ProofNode>, i: nat, c: nat, d: nat)
    requires Linked(nodes)
  {
    IsKid(nodes, i, c) && IsKid(nodes, i, d) && nodes[c].mv == nodes[d].mv
  }

  ghost predicate Tidy(nodes: seq<ProofNode>)
    requires Linked(nodes)
  {
    && (forall i :: 0 < i < |nodes| ==> nodes[i].mv != NO_MOVE)
    && (forall i: nat, c: nat, d: nat :: SameMove(nodes, i, c, d) ==> c == d)
  }

  lemma {:induction false} StepTidy(a: Arena, id: nat, m: Move)
    requires Ranged(a) && IndexExact(a) && Attached(a.nodes, id) && Tidy(a.nodes) && m != NO_MOVE
    ensures Tidy(Step(a, id, m).0.nodes)
  {
    if (id, m) !in a.index {
      var r := Step(a, id, m).0.nodes;
      AddNodeKids(a.nodes, id, m, 0, None, 0);
      forall i: nat, c: nat, d: nat | SameMove(r, i, c, d)
        ensures c == d
      {
        assert EdgeIndexed(a, i, c) && EdgeIndexed(a, i, d);
        if c < |a.nodes| && d < |a.nodes| {
          assert SameMove(a.nodes, i, c, d);
        }
      }
    }
  }

  lemma {:induction false} LocateTidy(a: Arena, path: seq<Move>, n: nat)
    requires Ranged(a) && IndexExact(a) && Tidy(a.nodes) && n <= |path| && NO_MOVE !in path
    ensures Tidy(Locate(a, path, n).0.nodes)
  {
    hide Step, Tidy, IndexExact;
    if n > 0 {
      var p := Locate(a, path, n - 1);
      LocateTidy(a, path, n - 1);
      LocateKeeps(a, path, n - 1);
      StepTidy(p.0, p.1, path[n - 1]);
    }
  }

  /** Fewer children, the same moves. */
  lemma {:induction false} FewerTidy(a: seq<ProofNode>, b: seq<ProofNode>)
    requires Linked(a) && Linked(b) && |a| == |b| && Tidy(a)
    requires forall i :: 0 < i < |a| ==> b[i].mv == a[i].mv
    requires forall i: nat, c: nat :: IsKid(b, i, c) ==> IsKid(a, i, c)
    ensures Tidy(b)
  {
    forall i: nat, c: nat, d: nat | SameMove(b, i, c, d)
      ensures c == d
    {
      KidFacts(b, i, c);
      KidFacts(b, i, d);
      assert SameMove(a, i, c, d);
    }
  }

  lemma {:induction false} ReconcileTidy(a: Arena, id: nat)
    requires Ranged(a) && id < |a.nodes| && Tidy(a.nodes)
    ensures Tidy(Reconcile(a, id).nodes)
  {
    if a.nodes[id].outcome.Some? {
      ReconcileKids(a, id);
      FewerTidy(a.nodes, Reconcile(a, id).nodes);
    }
  }

  lemma {:induction false} RealiseTidy(a: Arena, id: nat, e: Event)
    requires Ranged(a) && id < |a.nodes| && Tidy(a.nodes) && (id > 0 ==> a.nodes[id].mv == e.Mv())
    ensures Tidy(Realise(a, id, e).nodes)
  {
    ApplyRanged(a, id, e);
    var b := a.(nodes := Apply(a.nodes, id, e));
    SameLinksKids(a.nodes, b.nodes);
    FewerTidy(a.nodes, b.nodes);
    if a.nodes[id].outcome.None? {
      ReconcileTidy(b, id);
    }
  }

  lemma {:induction false} ProcessTidy(a: Arena, e: Event)
    requires Inv(a) && Tidy(a.nodes) && NO_MOVE !in e.path
    ensures Tidy(Process(a, e).nodes)
  {
    hide Realise, Reconcile, Tidy, Locate;
    var l := Locate(a, e.path, |e.path|);
    LocateInv(a, e.path, |e.path|);
    LocateKeeps(a, e.path, |e.path|);
    LocateTidy(a, e.path, |e.path|);
    RealiseTidy(l.0, l.1, e);
    if e.path != [] {
      var p := ProcessParent(a, e);
      var b := Realise(l.0, l.1, e);
      if b.nodes[p].outcome.Some? {
        ReconcileTidy(b, p);
      }
    }
  }

  ghost predicate RealPaths(es: seq<Event>)
  {
    forall i :: 0 <= i < |es| ==> NO_MOVE !in es[i].path
  }

  lemma {:induction false} FreshTidy()
    ensures Linked(Fresh().nodes) && Tidy(Fresh().nodes)
  {
    var a := Fresh();
    assert NodeLinked(a.nodes, 0);
    assert Children(a.nodes, 0) == [];
    assert forall i: nat, c: nat :: !IsKid(a.nodes, i, c);
  }

  lemma {:induction false} RunTidy(es: seq<Event>, n: nat)
    requires n <= |es| && RealPaths(es)
    ensures Tidy(Run(es, n).nodes)
  {
    hide Process, Inv, Tidy;
    if n == 0 {
      FreshTidy();
    } else {
      RunTidy(es, n - 1);
      RunKeeps(es, n - 1);
      ProcessTidy(Run(es, n - 1), es[n - 1]);
    }
  }
}
