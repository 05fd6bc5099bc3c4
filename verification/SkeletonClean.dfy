/** The skeleton of every proven node of a true tree is a proof the validator accepts. */
module SkeletonClean {
  import opened Game
  import opened Tree
  import opened Paths
  import opened PathDepth
  import opened PathOrder
  import opened PathSame
  import opened PathTruth
  import opened PathSkeleton
  import V = Validate
  import VS = ValidateSound

  // ----- bounds of kept children -----

  lemma {:induction false} KeptIsKid(nodes: seq<PathNode>, i: nat, x: nat) returns (y: nat)
    requires Shaped(nodes) && i < |nodes| && x < |Kept(nodes, i)|
    ensures y < |Kids(nodes, i)| && Kept(nodes, i)[x] == Kids(nodes, i)[y]
  {
    KidsWithin(nodes, i);
    y := if nodes[i].outcome == Some(Win) then Best(nodes, Kids(nodes, i), KidBounds(nodes, i), |Kids(nodes, i)|).value
         else x;
  }

  lemma {:induction false} LossKeepsAll(nodes: seq<PathNode>, i: nat)
    requires Shaped(nodes) && i < |nodes| && nodes[i].outcome == Some(Loss)
    ensures Kept(nodes, i) == Kids(nodes, i)
  {
  }

  ghost function KeptBounds(nodes: seq<PathNode>, i: nat): (bs: seq<nat>)
    requires Shaped(nodes) && i < |nodes|
    ensures |bs| == |Kept(nodes, i)|
  {
    seq(|Kept(nodes, i)|, x requires 0 <= x < |Kept(nodes, i)| => Bound(nodes, Kept(nodes, i)[x]))
  }

  lemma {:induction false} WinKept(nodes: seq<PathNode>, i: nat)
    requires Shaped(nodes) && AllOk(nodes) && i < |nodes| && nodes[i].outcome == Some(Win) && nodes[i].children != map[]
    ensures |Kept(nodes, i)| == 1 && Bound(nodes, i) == KeptBounds(nodes, i)[0] + 1
  {
    KidsWithin(nodes, i);
    assert NodeOk(nodes, i);
    var ids, bs := Kids(nodes, i), KidBounds(nodes, i);
    var x :| 0 <= x < |ids| && nodes[ids[x]].outcome == Some(Loss);
    hide Kids;
    LossBoundAt(nodes, ids, bs, x);
    var best := Best(nodes, ids, bs, |ids|).value;
    LossBoundAt(nodes, ids, bs, best);
  }

  lemma {:induction false} LossKept(nodes: seq<PathNode>, i: nat)
    requires Shaped(nodes) && i < |nodes| && nodes[i].outcome == Some(Loss) && nodes[i].children != map[]
    ensures |Kept(nodes, i)| > 0 && Bound(nodes, i) == Greatest(KeptBounds(nodes, i)) + 1
  {
    KidsWithin(nodes, i);
    LossKeepsAll(nodes, i);
    hide Kids, Greatest, Kept;
    assert KeptBounds(nodes, i) == KidBounds(nodes, i);
  }

  lemma {:induction false} NoneKept(nodes: seq<PathNode>, i: nat)
    requires Shaped(nodes) && i < |nodes| && nodes[i].children == map[]
    ensures |Kept(nodes, i)| == 0 && Bound(nodes, i) == 0
  {
    KidsWithin(nodes, i);
  }

  // ----- the facts of one node -----

  ghost predicate Proof(g: Rules, start: Position, nodes: seq<PathNode>, marks: set<Mark>, k: Skel)
  {
    && Shaped(nodes) && Linked(k.tree) && |k.tree| == |k.src|
    && TrueTree(g, start, nodes, marks) && AllOk(nodes) && BoundsFit(nodes) && Skeleton(nodes, k)
  }

  /** The position of a skeleton node. */
  ghost function Pos(g: Rules, start: Position, nodes: seq<PathNode>, k: Skel, t: nat): Position
    requires Shaped(nodes)
  {
    if t < |k.src| && k.src[t] < |nodes| then At(g, start, nodes, k.src[t]) else start
  }

  predicate Decisive(o: Option<Outcome>) { o == Some(Win) || o == Some(Loss) }

  lemma {:induction false} NodeFacts(g: Rules, start: Position, nodes: seq<PathNode>, marks: set<Mark>, k: Skel, t: nat)
    requires Proof(g, start, nodes, marks, k) && t < |k.tree|
    ensures k.src[t] < |nodes| && Copied(nodes, k, t) && Decisive(nodes[k.src[t]].outcome)
    ensures k.tree[t].outcome == nodes[k.src[t]].outcome && k.tree[t].hash == 0
            && k.tree[t].depth == Bound(nodes, k.src[t])
    ensures StandFor(k, Children(k.tree, t), Kept(nodes, k.src[t]))
    ensures Pos(g, start, nodes, k, t) == At(g, start, nodes, k.src[t])
  {
    assert Copied(nodes, k, t) && Opened(nodes, k, t);
    hide Reads, Truthful, Replay, AllOk, BoundsFit, Skeleton, Linked, Children, Kept, Bound, ClaimBacked, Holds;
    Backed(g, start, nodes, marks, k.src[t]);
    EitherWay(nodes[k.src[t]].outcome);
  }

  lemma {:induction false} EitherWay(o: Option<Outcome>)
    requires o.Some? && o.value != Draw
    ensures Decisive(o)
  {
  }

  /** A kept child is proven the other way, by a legal move. */
  lemma {:induction false} KeptLegal(g: Rules, start: Position, nodes: seq<PathNode>, marks: set<Mark>, i: nat, x: nat)
    requires TrueTree(g, start, nodes, marks) && AllOk(nodes) && i < |nodes| && Decisive(nodes[i].outcome)
    requires x < |Kept(nodes, i)|
    ensures var c := Kept(nodes, i)[x];
            && i < c < |nodes| && nodes[c].outcome == Some(nodes[i].outcome.value.Flip()) && nodes[c].mv.Some?
            && nodes[c].mv.value in g.legal(At(g, start, nodes, i))
            && At(g, start, nodes, c) == g.play(At(g, start, nodes, i), nodes[c].mv.value)
  {
    KeptProven(nodes, i);
    hide Reads, Truthful, Replay, AllOk, Kept;
    var y := KeptIsKid(nodes, i, x);
    KidLegal(g, start, nodes, marks, i, y);
    LastMove(nodes, Kept(nodes, i)[x]);
  }

  /** The `x`-th child: what it copies, its outcome, and where its legal move leads. */
  lemma {:induction false} SkelKid(g: Rules, start: Position, nodes: seq<PathNode>, marks: set<Mark>, k: Skel, t: nat,
          x: nat)
    requires Proof(g, start, nodes, marks, k) && t < |k.tree| && x < |Children(k.tree, t)|
    ensures var kids := Children(k.tree, t);
            && t < kids[x] < |k.tree| && k.src[t] < |nodes| && k.src[kids[x]] < |nodes|
            && |Kept(nodes, k.src[t])| == |kids|
            && k.src[kids[x]] == Kept(nodes, k.src[t])[|kids| - 1 - x]
    ensures var c := Children(k.tree, t)[x];
            && k.tree[t].outcome.Some? && k.tree[c].outcome == Some(k.tree[t].outcome.value.Flip())
            && k.tree[c].mv in g.legal(Pos(g, start, nodes, k, t))
            && Pos(g, start, nodes, k, c) == g.play(Pos(g, start, nodes, k, t), k.tree[c].mv)
            && Some(k.tree[c].mv) == nodes[k.src[c]].mv
  {
    var i, kids := k.src[t], Children(k.tree, t);
    var c := kids[x];
    hide Reads, Truthful, Replay, AllOk, BoundsFit, Skeleton, Linked, Kept, Bound, Children, Kids, Keys;
    NodeFacts(g, start, nodes, marks, k, t);
    assert k.src[kids[x]] == Kept(nodes, i)[|kids| - 1 - x];
    NodeFacts(g, start, nodes, marks, k, c);
    KeptLegal(g, start, nodes, marks, i, |kids| - 1 - x);
  }

  // ----- depths -----

  ghost predicate DepthRight(k: Skel, t: nat)
    requires Linked(k.tree)
  {
    t < |k.tree| && V.Expected(k.tree, t) == k.tree[t].depth && (k.tree[t].depth == 0 <==> |Children(k.tree, t)| == 0)
  }

  lemma {:induction false} ReversedMax(ds: seq<U32>, bs: seq<nat>)
    requires |ds| == |bs| > 0 && forall x :: 0 <= x < |ds| ==> ds[x] == bs[|bs| - 1 - x]
    ensures MaxOf(ds) == Greatest(bs)
  {
    var a :| 0 <= a < |ds| && ds[a] == MaxOf(ds);
    var b :| 0 <= b < |bs| && bs[b] == Greatest(bs);
    assert ds[a] == bs[|bs| - 1 - a];
    assert ds[|bs| - 1 - b] == bs[b];
  }

  /** The depth pass gives the bound. */
  lemma {:induction false} DepthIs(o: Outcome, ds: seq<U32>, bs: seq<nat>, bound: nat)
    requires Decisive(Some(o)) && |ds| == |bs| > 0 && bound <= U32_MAX
    requires forall x :: 0 <= x < |ds| ==> ds[x] == bs[|bs| - 1 - x]
    requires o == Win ==> |bs| == 1 && bound == bs[0] + 1
    requires o == Loss ==> bound == Greatest(bs) + 1
    ensures ProvenDepth(Some(o), ds) == bound
  {
    ReversedMax(ds, bs);
    hide MaxOf, Greatest;
    if o == Win {
      assert ds[0] == bs[0];
    }
  }

  lemma {:induction false} ExpectedUnfold(tree: seq<ProofNode>, t: nat, ds: seq<U32>)
    requires Linked(tree) && t < |tree| && |ds| == |Children(tree, t)|
    requires forall x :: 0 <= x < |ds| ==> ds[x] == V.Expected(tree, Children(tree, t)[x])
    ensures V.Expected(tree, t) == if |ds| == 0 then 0 else ProvenDepth(tree[t].outcome, ds)
  {
    var kids := Children(tree, t);
    assert ds == seq(|kids|, i requires 0 <= i < |kids| => V.Expected(tree, kids[i]));
  }

  /** A node's depth is right when its children's are. */
  lemma {:induction false} DepthClose(g: Rules, start: Position, nodes: seq<PathNode>, marks: set<Mark>, k: Skel,
          t: nat)
    requires Proof(g, start, nodes, marks, k) && t < |k.tree|
    requires forall x :: 0 <= x < |Children(k.tree, t)| ==> DepthRight(k, Children(k.tree, t)[x])
    ensures DepthRight(k, t)
  {
    hide Reads, Truthful, Replay, AllOk, Skeleton, Linked, Kept, Bound, Children, ProvenDepth, Greatest, V.Expected;
    NodeFacts(g, start, nodes, marks, k, t);
    var i, kids := k.src[t], Children(k.tree, t);
    var bs := KeptBounds(nodes, i);
    var ds: seq<U32> := seq(|kids|, x requires 0 <= x < |kids| => V.Expected(k.tree, kids[x]));
    forall x | 0 <= x < |kids|
      ensures ds[x] == bs[|bs| - 1 - x]
    {
      SkelKid(g, start, nodes, marks, k, t, x);
      assert DepthRight(k, kids[x]);
      NodeFacts(g, start, nodes, marks, k, kids[x]);
    }
    ExpectedUnfold(k.tree, t, ds);
    assert Bound(nodes, i) <= U32_MAX;
    if nodes[i].children == map[] {
      NoneKept(nodes, i);
    } else {
      if nodes[i].outcome == Some(Win) {
        WinKept(nodes, i);
      } else {
        LossKept(nodes, i);
      }
      DepthIs(nodes[i].outcome.value, ds, bs, Bound(nodes, i));
    }
  }

  /** Stored depths are the bottom-up depths, and zero exactly at the leaves. */
  lemma {:induction false} SkelDepth(g: Rules, start: Position, nodes: seq<PathNode>, marks: set<Mark>, k: Skel, t: nat)
    requires Proof(g, start, nodes, marks, k) && t < |k.tree|
    ensures DepthRight(k, t)
    decreases |k.tree| - t
  {
    hide Proof, DepthRight, Children, Linked;
    ProofLinked(g, start, nodes, marks, k);
    forall x | 0 <= x < |Children(k.tree, t)|
      ensures DepthRight(k, Children(k.tree, t)[x])
    {
      SkelDepth(g, start, nodes, marks, k, Children(k.tree, t)[x]);
    }
    DepthClose(g, start, nodes, marks, k, t);
  }

  lemma {:induction false} ProofLinked(g: Rules, start: Position, nodes: seq<PathNode>, marks: set<Mark>, k: Skel)
    requires Proof(g, start, nodes, marks, k)
    ensures Linked(k.tree) && Shaped(nodes) && |k.tree| == |k.src|
  {
  }

  // ----- the local rules -----

  lemma {:induction false} LocalIntro(g: Rules, tree: seq<ProofNode>, t: nat, q: Position, kids: seq<nat>)
    requires Linked(tree) && t < |tree| && Decisive(tree[t].outcome) && tree[t].hash == 0
    requires kids == Children(tree, t)
    requires tree[t].depth == 0 ==> g.terminal(q) == tree[t].outcome
    requires tree[t].depth > 0 && tree[t].outcome == Some(Win) ==> |kids| == 1
    requires forall x :: 0 <= x < |kids| ==>
               tree[kids[x]].outcome == Some(tree[t].outcome.value.Flip()) && tree[kids[x]].mv in g.legal(q)
    requires tree[t].depth > 0 && tree[t].outcome == Some(Loss) ==>
               forall n :: 0 <= n < |g.legal(q)| ==> V.Replied(tree, kids, g.legal(q)[n])
    ensures V.LocalOk(g, tree, t, q)
  {
    hide Children, Linked, V.Replied;
  }

  lemma {:induction false} OpenHasKids(g: Rules, start: Position, nodes: seq<PathNode>, marks: set<Mark>, i: nat)
    requires TrueTree(g, start, nodes, marks) && i < |nodes| && nodes[i].outcome.Some?
    requires g.terminal(At(g, start, nodes, i)).None?
    ensures nodes[i].children != map[]
  {
    hide Reads, Truthful, Replay;
    Backed(g, start, nodes, marks, i);
    var q := At(g, start, nodes, i);
    if nodes[i].outcome == Some(Win) {
      var m :| m in g.legal(q) && Claim(PathOf(nodes, i) + [m], Loss) in marks;
      ClaimedChild(g, start, nodes, marks, i, m, Loss);
    } else {
      LostHasReply(g, q);
      var m := g.legal(q)[0];
      assert m in g.legal(q);
      ClaimedChild(g, start, nodes, marks, i, m, Win);
    }
  }

  lemma {:induction false} LostHasReply(g: Rules, q: Position)
    requires Holds(g, q, Loss) && g.terminal(q).None?
    ensures g.legal(q) != []
  {
    var n: nat :| Forced(g, q, Loss, n);
  }

  /** A node of depth 0 stands at a finished position. */
  lemma {:induction false} LeafRule(g: Rules, start: Position, nodes: seq<PathNode>, marks: set<Mark>, k: Skel, t: nat)
    requires Proof(g, start, nodes, marks, k) && t < |k.tree| && k.tree[t].depth == 0
    ensures g.terminal(Pos(g, start, nodes, k, t)) == k.tree[t].outcome
  {
    hide Reads, Truthful, Replay, AllOk, Skeleton, Linked, Kept, Bound, Children, BoundsFit, ClaimBacked, Holds,
      KeptBounds;
    NodeFacts(g, start, nodes, marks, k, t);
    var i := k.src[t];
    Backed(g, start, nodes, marks, i);
    if g.terminal(At(g, start, nodes, i)).None? {
      OpenHasKids(g, start, nodes, marks, i);
      if nodes[i].outcome == Some(Win) {
        WinKept(nodes, i);
      } else {
        LossKept(nodes, i);
      }
    }
  }

  lemma {:induction false} WinRule(g: Rules, start: Position, nodes: seq<PathNode>, marks: set<Mark>, k: Skel, t: nat)
    requires Proof(g, start, nodes, marks, k) && t < |k.tree| && k.tree[t].depth > 0 && k.tree[t].outcome == Some(Win)
    ensures |Children(k.tree, t)| == 1
  {
    hide Reads, Truthful, Replay, AllOk, Skeleton, Linked, Kept, Bound, Children, BoundsFit;
    NodeFacts(g, start, nodes, marks, k, t);
    if nodes[k.src[t]].children == map[] {
      NoneKept(nodes, k.src[t]);
    } else {
      WinKept(nodes, k.src[t]);
    }
  }

  /** Every legal reply of an expanded Loss node has a child. */
  lemma {:induction false} LossRule(g: Rules, start: Position, nodes: seq<PathNode>, marks: set<Mark>, k: Skel, t: nat,
          m: Move)
    requires Proof(g, start, nodes, marks, k) && t < |k.tree| && k.tree[t].depth > 0 && k.tree[t].outcome == Some(Loss)
    requires m in g.legal(Pos(g, start, nodes, k, t))
    ensures V.Replied(k.tree, Children(k.tree, t), m)
  {
    hide Reads, Truthful, Replay, AllOk, Skeleton, Linked, Kept, Bound, Children, BoundsFit, Kids, Keys;
    NodeFacts(g, start, nodes, marks, k, t);
    var i, kids := k.src[t], Children(k.tree, t);
    Backed(g, start, nodes, marks, i);
    if g.terminal(At(g, start, nodes, i)).Some? {
      NoKids(nodes, i);
    }
    ClaimedChild(g, start, nodes, marks, i, m, Win);
    LossKeepsAll(nodes, i);
    var y := KidByMove(nodes, i, m);
    ChildPath(nodes, i, m);
    var x := |kids| - 1 - y;
    SkelKid(g, start, nodes, marks, k, t, x);
    LastMove(nodes, k.src[kids[x]]);
    assert k.tree[kids[x]].mv == m;
  }

  lemma {:induction false} SkelLocal(g: Rules, start: Position, nodes: seq<PathNode>, marks: set<Mark>, k: Skel, t: nat)
    requires Proof(g, start, nodes, marks, k) && t < |k.tree|
    ensures V.LocalOk(g, k.tree, t, Pos(g, start, nodes, k, t))
  {
    hide Proof, Children, Linked, V.LocalOk, V.Replied, Pos, Bound, Kept, Copied;
    ProofLinked(g, start, nodes, marks, k);
    NodeFacts(g, start, nodes, marks, k, t);
    var q, kids := Pos(g, start, nodes, k, t), Children(k.tree, t);
    forall x | 0 <= x < |kids|
      ensures k.tree[kids[x]].outcome == Some(k.tree[t].outcome.value.Flip()) && k.tree[kids[x]].mv in g.legal(q)
    {
      SkelKid(g, start, nodes, marks, k, t, x);
    }
    if k.tree[t].depth == 0 {
      LeafRule(g, start, nodes, marks, k, t);
    } else if k.tree[t].outcome == Some(Win) {
      WinRule(g, start, nodes, marks, k, t);
    } else {
      forall n | 0 <= n < |g.legal(q)|
        ensures V.Replied(k.tree, kids, g.legal(q)[n])
      {
        LossRule(g, start, nodes, marks, k, t, g.legal(q)[n]);
      }
    }
    LocalIntro(g, k.tree, t, q, kids);
  }

  // ----- no hash repeats -----

  /** The hashes on the path belong to positions of no smaller rank. */
  ghost predicate Behind(g: Rules, rank: Position -> nat, onPath: set<nat>, p: Position)
  {
    forall q: Position :: g.hash(q) in onPath ==> rank(p) <= rank(q)
  }

  lemma {:induction false} StepAhead(g: Rules, rank: Position -> nat, onPath: set<nat>, p: Position, m: Move)
    requires g.Injective() && g.Ranked(rank) && m in g.legal(p) && Behind(g, rank, onPath, p)
    ensures var q := g.play(p, m); g.hash(q) !in onPath && Behind(g, rank, onPath + {g.hash(q)}, q)
  {
    RankDown(g, rank, p, m);
    var q := g.play(p, m);
    forall x: Position | g.hash(x) in onPath + {g.hash(q)}
      ensures rank(q) <= rank(x)
    {
      if g.hash(x) == g.hash(q) {
        assert x == q;
      }
    }
  }

  // ----- the whole skeleton -----

  lemma {:induction false} CleanIntro(g: Rules, tree: seq<ProofNode>, t: nat, q: Position, onPath: set<nat>)
    requires Linked(tree) && t < |tree| && V.LocalOk(g, tree, t, q) && tree[t].depth == V.Expected(tree, t)
    requires V.KidsClean(g, tree, Children(tree, t), t + 1, q, onPath)
    ensures V.Clean(g, tree, t, q, onPath)
  {
    hide V.LocalOk, V.Expected, V.KidsClean, V.Shaped, Children, Linked;
  }

  /** Every proven node's skeleton is accepted by the validator at the node's position. */
  lemma {:induction false} SkelClean(g: Rules, start: Position, rank: Position -> nat, nodes: seq<PathNode>,
          marks: set<Mark>, k: Skel, t: nat, onPath: set<nat>)
    requires Proof(g, start, nodes, marks, k) && t < |k.tree|
    requires g.Injective() && g.Ranked(rank) && Behind(g, rank, onPath, Pos(g, start, nodes, k, t))
    ensures V.Clean(g, k.tree, t, Pos(g, start, nodes, k, t), onPath)
    decreases |k.tree| - t
  {
    hide Proof, Children, Linked, V.LocalOk, V.Expected, V.Clean, Pos, Behind, Kept;
    ProofLinked(g, start, nodes, marks, k);
    SkelLocal(g, start, nodes, marks, k, t);
    SkelDepth(g, start, nodes, marks, k, t);
    var q, kids := Pos(g, start, nodes, k, t), Children(k.tree, t);
    forall x | 0 <= x < |kids|
      ensures var p := g.play(q, k.tree[kids[x]].mv);
              g.hash(p) !in onPath && V.Clean(g, k.tree, kids[x], p, onPath + {g.hash(p)})
    {
      SkelKid(g, start, nodes, marks, k, t, x);
      StepAhead(g, rank, onPath, q, k.tree[kids[x]].mv);
      SkelClean(g, start, rank, nodes, marks, k, kids[x], onPath + {g.hash(g.play(q, k.tree[kids[x]].mv))});
    }
    assert V.KidsClean(g, k.tree, kids, t + 1, q, onPath);
    CleanIntro(g, k.tree, t, q, onPath);
  }

  lemma {:induction false} SkelLeaves(g: Rules, start: Position, nodes: seq<PathNode>, marks: set<Mark>, k: Skel)
    requires Proof(g, start, nodes, marks, k)
    ensures VS.LeavesAreZero(k.tree)
  {
    hide V.Expected, Linked;
    forall t | 0 <= t < |k.tree|
      ensures k.tree[t].depth == 0 <==> Children(k.tree, t) == []
    {
      SkelDepth(g, start, nodes, marks, k, t);
    }
  }
}
