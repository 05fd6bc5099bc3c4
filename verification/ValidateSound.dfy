/** What an accepted tree proves about the game. */
module ValidateSound {
  import opened Game
  import opened Tree
  import opened Validate
  import opened ValidateMachine

  /** At every interior node of the replay the static classification is silent or agrees.
      The validator itself looks at the static outcome of depth-0 nodes only. */
  ghost predicate InteriorAgrees(g: Rules, nodes: seq<ProofNode>, id: nat, p: Position)
    requires Linked(nodes) && id < |nodes|
    decreases |nodes| - id
  {
    nodes[id].depth > 0 ==>
      && (g.terminal(p).None? || g.terminal(p) == nodes[id].outcome)
      && var kids := Children(nodes, id);
         forall k :: 0 <= k < |kids| ==> InteriorAgrees(g, nodes, kids[k], g.play(p, nodes[kids[k]].mv))
  }

  /** Every node of the replay has, at its position, the outcome it claims within the depth it
      claims. */
  ghost predicate ClaimsTrue(g: Rules, nodes: seq<ProofNode>, id: nat, p: Position)
    requires Linked(nodes) && id < |nodes|
    decreases |nodes| - id
  {
    && nodes[id].outcome.Some?
    && Forced(g, p, nodes[id].outcome.value, nodes[id].depth)
    && (nodes[id].depth > 0 ==>
          var kids := Children(nodes, id);
          forall k :: 0 <= k < |kids| ==> ClaimsTrue(g, nodes, kids[k], g.play(p, nodes[kids[k]].mv)))
  }

  lemma {:induction false} ExpectedSmall(nodes: seq<ProofNode>, id: nat)
    requires Linked(nodes) && id < |nodes|
    ensures Expected(nodes, id) < |nodes| - id
    decreases |nodes| - id
  {
    var kids := Children(nodes, id);
    if kids != [] {
      var ds := seq(|kids|, i requires 0 <= i < |kids| => Expected(nodes, kids[i]));
      forall i | 0 <= i < |ds|
        ensures ds[i] < |nodes| - id - 1
      {
        ExpectedSmall(nodes, kids[i]);
      }
      ProvenDepthBounded(nodes[id].outcome, ds, |nodes| - id - 1);
    }
  }

  lemma {:induction false} ProvenDepthBounded(o: Option<Outcome>, ds: seq<U32>, n: nat)
    requires ds != [] && forall k :: 0 <= k < |ds| ==> ds[k] < n
    ensures ProvenDepth(o, ds) <= n
  {
    assert MinOf(ds) < n && MaxOf(ds) < n;
  }

  /** A proven depth lies strictly above every child's under a Loss, and above an only child's
      under a Win, as long as nothing saturates. */
  lemma {:induction false} ProvenDepthAbove(o: Outcome, ds: seq<U32>)
    requires ds != [] && forall k :: 0 <= k < |ds| ==> ds[k] < U32_MAX
    ensures o == Loss ==> forall k :: 0 <= k < |ds| ==> ds[k] < ProvenDepth(Some(o), ds)
    ensures o == Win && |ds| == 1 ==> ds[0] < ProvenDepth(Some(o), ds)
  {
    assert MaxOf(ds) < U32_MAX;
  }

  /** The children of an accepted interior node carry smaller depths. */
  lemma {:induction false} StepDepth(g: Rules, nodes: seq<ProofNode>, id: nat, p: Position, onPath: set<nat>)
    requires Linked(nodes) && id < |nodes| <= U32_MAX
    requires Clean(g, nodes, id, p, onPath) && Shaped(nodes, id) && nodes[id].depth > 0
    ensures var kids := Children(nodes, id);
            && kids != []
            && (nodes[id].outcome == Some(Loss) ==> forall k :: 0 <= k < |kids| ==>
                 nodes[kids[k]].depth < nodes[id].depth)
            && (nodes[id].outcome == Some(Win) ==> nodes[kids[0]].depth < nodes[id].depth)
  {
    var kids := Children(nodes, id);
    var ds := seq(|kids|, i requires 0 <= i < |kids| => Expected(nodes, kids[i]));
    assert kids != [] && nodes[id].depth == ProvenDepth(nodes[id].outcome, ds);
    assert nodes[id].outcome.Some?;
    hide Clean, Shaped, Expected, Children, Linked, ProvenDepth;
    forall k | 0 <= k < |kids|
      ensures ds[k] == nodes[kids[k]].depth && ds[k] < U32_MAX
    {
      KidDepth(g, nodes, id, p, onPath, k);
    }
    ProvenDepthAbove(nodes[id].outcome.value, ds);
  }

  lemma {:induction false} KidDepth(g: Rules, nodes: seq<ProofNode>, id: nat, p: Position, onPath: set<nat>, k: nat)
    requires Linked(nodes) && id < |nodes| <= U32_MAX
    requires Clean(g, nodes, id, p, onPath) && Shaped(nodes, id) && nodes[id].depth > 0
    requires k < |Children(nodes, id)|
    ensures var c := Children(nodes, id)[k];
            nodes[c].depth == Expected(nodes, c) < U32_MAX
  {
    var c := Children(nodes, id)[k];
    var q := g.play(p, nodes[c].mv);
    assert Clean(g, nodes, c, q, onPath + {g.hash(q)}) && Shaped(nodes, c);
    ExpectedSmall(nodes, c);
  }

  /** On an accepted subtree the claims are true exactly when no interior node sits on a
      position that the rules already end differently. */
  lemma {:induction false} ClaimsTrueIff(g: Rules, nodes: seq<ProofNode>, id: nat, p: Position, onPath: set<nat>)
    requires Linked(nodes) && id < |nodes| <= U32_MAX && g.Sane()
    requires Clean(g, nodes, id, p, onPath) && Shaped(nodes, id)
    ensures ClaimsTrue(g, nodes, id, p) <==> InteriorAgrees(g, nodes, id, p)
    decreases |nodes| - id
  {
    if nodes[id].depth > 0 {
      var kids := Children(nodes, id);
      forall k | 0 <= k < |kids|
        ensures var q := g.play(p, nodes[kids[k]].mv);
                ClaimsTrue(g, nodes, kids[k], q) <==> InteriorAgrees(g, nodes, kids[k], q)
      {
        var q := g.play(p, nodes[kids[k]].mv);
        ClaimsTrueIff(g, nodes, kids[k], q, onPath + {g.hash(q)});
      }
      if InteriorAgrees(g, nodes, id, p) && g.terminal(p).None? {
        StepForced(g, nodes, id, p, onPath);
      }
    }
  }

  ghost predicate KidsTrue(g: Rules, nodes: seq<ProofNode>, id: nat, p: Position)
    requires Linked(nodes) && id < |nodes|
  {
    var kids := Children(nodes, id);
    forall k :: 0 <= k < |kids| ==> ClaimsTrue(g, nodes, kids[k], g.play(p, nodes[kids[k]].mv))
  }

  lemma {:induction false} StepForced(g: Rules, nodes: seq<ProofNode>, id: nat, p: Position, onPath: set<nat>)
    requires Linked(nodes) && id < |nodes| <= U32_MAX && g.Sane()
    requires Clean(g, nodes, id, p, onPath) && Shaped(nodes, id) && nodes[id].depth > 0 && g.terminal(p).None?
    requires KidsTrue(g, nodes, id, p)
    ensures Forced(g, p, nodes[id].outcome.value, nodes[id].depth)
  {
    StepDepth(g, nodes, id, p, onPath);
    if nodes[id].outcome == Some(Win) {
      var c := Children(nodes, id)[0];
      assert Forced(g, g.play(p, nodes[c].mv), Loss, nodes[c].depth);
      ForcedMonotone(g, g.play(p, nodes[c].mv), Loss, nodes[c].depth, nodes[id].depth - 1);
    } else {
      forall i | 0 <= i < |g.legal(p)|
        ensures Forced(g, g.play(p, g.legal(p)[i]), Win, nodes[id].depth - 1)
      {
        ReplyForced(g, nodes, id, p, i, nodes[id].depth);
      }
    }
  }

  lemma {:induction false} ReplyForced(g: Rules, nodes: seq<ProofNode>, id: nat, p: Position, i: nat, n: nat)
    requires Linked(nodes) && id < |nodes| && KidsTrue(g, nodes, id, p) && i < |g.legal(p)|
    requires Replied(nodes, Children(nodes, id), g.legal(p)[i])
    requires forall k :: 0 <= k < |Children(nodes, id)| ==>
               nodes[Children(nodes, id)[k]].outcome == Some(Win) && nodes[Children(nodes, id)[k]].depth < n
    ensures Forced(g, g.play(p, g.legal(p)[i]), Win, n - 1)
  {
    var kids := Children(nodes, id);
    var m := g.legal(p)[i];
    var k :| 0 <= k < |kids| && nodes[kids[k]].mv == m;
    assert ClaimsTrue(g, nodes, kids[k], g.play(p, m));
    ForcedMonotone(g, g.play(p, m), Win, nodes[kids[k]].depth, n - 1);
  }

  /** When play stops at terminal positions no interior node can sit on one. */
  lemma {:induction false} StoppedPlayAgrees(g: Rules, nodes: seq<ProofNode>, id: nat, p: Position, onPath: set<nat>)
    requires Linked(nodes) && id < |nodes| <= U32_MAX
    requires forall q: Position :: g.terminal(q).Some? ==> g.legal(q) == []
    requires Clean(g, nodes, id, p, onPath) && Shaped(nodes, id)
    ensures InteriorAgrees(g, nodes, id, p)
    decreases |nodes| - id
  {
    if nodes[id].depth > 0 {
      StepDepth(g, nodes, id, p, onPath);
      var kids := Children(nodes, id);
      assert nodes[kids[0]].mv in g.legal(p);
      forall k | 0 <= k < |kids|
        ensures InteriorAgrees(g, nodes, kids[k], g.play(p, nodes[kids[k]].mv))
      {
        var q := g.play(p, nodes[kids[k]].mv);
        StoppedPlayAgrees(g, nodes, kids[k], q, onPath + {g.hash(q)});
      }
    }
  }

  /** Depth 0 exactly at the nodes without children: what the worker's last pass and the
      binary reader guarantee. */
  ghost predicate LeavesAreZero(nodes: seq<ProofNode>)
    requires Linked(nodes)
  {
    forall i :: 0 <= i < |nodes| ==> (nodes[i].depth == 0 <==> Children(nodes, i) == [])
  }

  lemma {:induction false} LeavesAreZeroShaped(nodes: seq<ProofNode>, id: nat)
    requires Linked(nodes) && id < |nodes| && LeavesAreZero(nodes)
    ensures Shaped(nodes, id)
    decreases |nodes| - id
  {
    if nodes[id].depth != 0 {
      var kids := Children(nodes, id);
      forall k | 0 <= k < |kids|
        ensures Shaped(nodes, kids[k])
      {
        LeavesAreZeroShaped(nodes, kids[k]);
      }
    }
  }

  /** Every node of the replay has, at its position, the outcome it claims. */
  ghost predicate OutcomesTrue(g: Rules, nodes: seq<ProofNode>, id: nat, p: Position)
    requires Linked(nodes) && id < |nodes|
    decreases |nodes| - id
  {
    && nodes[id].outcome.Some? && Holds(g, p, nodes[id].outcome.value)
    && (nodes[id].depth > 0 ==>
          var kids := Children(nodes, id);
          forall k :: 0 <= k < |kids| ==> OutcomesTrue(g, nodes, kids[k], g.play(p, nodes[kids[k]].mv)))
  }

  /** What one node's rules make of true children. */
  lemma {:induction false} StepHolds(g: Rules, nodes: seq<ProofNode>, id: nat, p: Position)
    requires Linked(nodes) && id < |nodes| && g.Sane() && LocalOk(g, nodes, id, p) && nodes[id].depth > 0
             && g.terminal(p).None?
    requires forall k :: 0 <= k < |Children(nodes, id)| ==>
               OutcomesTrue(g, nodes, Children(nodes, id)[k], g.play(p, nodes[Children(nodes, id)[k]].mv))
    ensures Holds(g, p, nodes[id].outcome.value)
  {
    var kids := Children(nodes, id);
    hide Children, Holds, Linked;
    if nodes[id].outcome == Some(Win) {
      assert OutcomesTrue(g, nodes, kids[0], g.play(p, nodes[kids[0]].mv));
      WinByReply(g, p, nodes[kids[0]].mv);
    } else {
      forall m | m in g.legal(p)
        ensures Holds(g, g.play(p, m), Win)
      {
        var i :| 0 <= i < |g.legal(p)| && g.legal(p)[i] == m;
        assert Replied(nodes, kids, g.legal(p)[i]);
        var k: nat :| k < |kids| && nodes[kids[k]].mv == m;
        assert OutcomesTrue(g, nodes, kids[k], g.play(p, nodes[kids[k]].mv));
      }
      LossByReplies(g, p);
    }
  }

  lemma {:induction false} StaticHolds(g: Rules, p: Position, o: Outcome)
    requires o != Draw && g.terminal(p).Some?
    ensures Holds(g, p, o) <==> g.terminal(p) == Some(o)
  {
    if g.terminal(p) == Some(o) {
      assert Forced(g, p, o, 0);
    }
  }

  /** On any accepted tree, depth-0 nodes with children included, the outcomes are true exactly
      when no interior node sits on a position that the rules already end differently. */
  lemma {:induction false} OutcomesTrueIff(g: Rules, nodes: seq<ProofNode>, id: nat, p: Position, onPath: set<nat>)
    requires Linked(nodes) && id < |nodes| && g.Sane() && Clean(g, nodes, id, p, onPath)
    ensures OutcomesTrue(g, nodes, id, p) <==> InteriorAgrees(g, nodes, id, p)
    decreases |nodes| - id
  {
    var kids := Children(nodes, id);
    var o := nodes[id].outcome.value;
    if nodes[id].depth > 0 {
      assert KidsClean(g, nodes, kids, id + 1, p, onPath);
      hide LocalOk, Expected, Shaped, Holds;
      forall k | 0 <= k < |kids|
        ensures var q := g.play(p, nodes[kids[k]].mv);
                OutcomesTrue(g, nodes, kids[k], q) <==> InteriorAgrees(g, nodes, kids[k], q)
      {
        var q := g.play(p, nodes[kids[k]].mv);
        OutcomesTrueIff(g, nodes, kids[k], q, onPath + {g.hash(q)});
      }
      if g.terminal(p).Some? {
        StaticHolds(g, p, o);
      } else if InteriorAgrees(g, nodes, id, p) {
        StepHolds(g, nodes, id, p);
      }
    } else {
      StaticHolds(g, p, o);
    }
  }

  /** The promise of the validator: an empty defect list on a tree whose leaves are its
      depth-0 nodes means the root outcome is forced within the root depth, as long as no
      interior node sits on a finished position. */
  method AcceptsOnlyProofs(g: Rules, root: Position, nodes: seq<ProofNode>) returns (ok: bool)
    requires Linked(nodes) && |nodes| <= U32_MAX && g.Sane()
    ensures ok <==> Clean(g, nodes, 0, root, {})
    ensures ok && InteriorAgrees(g, nodes, 0, root) ==> nodes[0].outcome.Some? && Holds(g, root, nodes[0].outcome.value)
    ensures ok && LeavesAreZero(nodes) && InteriorAgrees(g, nodes, 0, root) ==>
              nodes[0].outcome.Some? && Forced(g, root, nodes[0].outcome.value, nodes[0].depth)
  {
    var defects := ValidateProofTree(g, Some(root), nodes);
    ReportEmptyIffClean(g, nodes, 0, root, [], {});
    ok := |defects| == 0;
    if ok {
      OutcomesTrueIff(g, nodes, 0, root, {});
    }
    if ok && LeavesAreZero(nodes) && InteriorAgrees(g, nodes, 0, root) {
      LeavesAreZeroShaped(nodes, 0);
      ClaimsTrueIff(g, nodes, 0, root, {});
    }
  }

  /** A drawn position that still has a legal move, played into a lost one. */
  function DrawnWithMoves(): Rules
  {
    Rules((p: Position) => if p == 0 then [1] else [],
          (p: Position, m: Move) => p + m,
          (p: Position) => if p == 0 then Some(Draw) else Some(Loss),
          (p: Position) => if p < 0 then 2 * -p else 2 * p + 1)
  }

  function WinInOne(): seq<ProofNode>
  {
    [ProofNode(None, Some(1), None, NO_MOVE, 0, Some(Win), 1),
     ProofNode(Some(0), None, None, 1, 0, Some(Loss), 0)]
  }

  lemma {:induction false} WinInOneShape()
    ensures var nodes := WinInOne();
            && Linked(nodes) && LeavesAreZero(nodes)
            && Children(nodes, 0) == [1] && Children(nodes, 1) == []
            && Expected(nodes, 1) == 0 && Expected(nodes, 0) == 1
  {
    var nodes := WinInOne();
    assert NodeLinked(nodes, 0) && NodeLinked(nodes, 1);
    assert Chain(nodes, None) == [];
    assert Chain(nodes, Some(1)) == [1];
    assert Children(nodes, 0) == [1] && Children(nodes, 1) == [];
    var ds := seq(1, i requires 0 <= i < 1 => Expected(nodes, [1][i]));
    assert ds == [0];
  }

  /** Without the interior condition acceptance proves nothing: this tree is accepted at a
      position that the rules call a draw. */
  lemma {:induction false} AcceptedButFalse()
    ensures var g, nodes := DrawnWithMoves(), WinInOne();
            && g.Sane() && g.Injective() && Linked(nodes) && LeavesAreZero(nodes)
            && Clean(g, nodes, 0, 0, {})
            && !Holds(g, 0, Win)
  {
    WinInOneShape();
    var g, nodes := DrawnWithMoves(), WinInOne();
    hide Children, LeavesAreZero, Linked;
    assert Clean(g, nodes, 1, 1, {} + {g.hash(1)});
  }
}
