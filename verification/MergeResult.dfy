/** The merge closed end to end: good shards always merge, and the result is true, tight and
    accepted by the validator again. */
module MergeResult {
  import opened Game
  import opened Tree
  import opened Paths
  import opened PathDepth
  import opened PathOrder
  import opened PathMerge
  import opened PathSame
  import opened PathTruth
  import opened PathShards
  import opened PathSkeleton
  import opened SkeletonClean
  import V = Validate
  import VS = ValidateSound
  import VM = ValidateMachine

  /** The marks say what these good shards say, exact claims aside. */
  ghost predicate FactsOf(ss: seq<Shard>, marks: set<Mark>)
    requires AllShaped(ss)
  {
    Facts(marks) == Facts(AllMarks(ss))
  }

  lemma {:induction false} ShardAmong(ss: seq<Shard>, k: nat)
    requires AllShaped(ss) && k < |ss|
    ensures Facts(ShardMarks(ss[k])) <= Facts(AllMarks(ss))
  {
    hide ShardMarks;
    assert forall m :: m in ShardMarks(ss[k]) ==> m in AllMarks(ss);
  }

  /** Every claim is some shard node's. */
  lemma {:induction false} ClaimSource(ss: seq<Shard>, m: Mark) returns (k: nat, j: nat)
    requires AllShaped(ss) && m in AllMarks(ss) && m.Claim?
    ensures k < |ss| && ShardShaped(ss[k]) && j < |ss[k].nodes| && ShardAt(ss[k], j) == m.p
    ensures ss[k].nodes[j].outcome == Some(m.o)
  {
    hide StemMarks, OwnMarks, ShardAt, ShardShaped;
    var x :| 0 <= x < |ss| && m in ShardMarks(ss[x]);
    ShardParts(ss[x]);
    StemClaimless(ss[x].path, ss[x].tag, |ss[x].path|);
    MarksSplit(ss[x]);
    var y: nat :| y < |ss[x].nodes| && m in OwnMarks(ss[x], y);
    OwnClaim(ss[x], y, m);
    k, j := x, y;
  }

  lemma {:induction false} ShardParts(s: Shard)
    requires ShardShaped(s)
    ensures Linked(s.nodes)
  {
  }

  /** Recomputed bounds fit 32 bits: none exceeds the depth some shard stores. */
  lemma {:induction false} BoundsAreSmall(g: Rules, start: Position, ss: seq<Shard>, nodes: seq<PathNode>,
          marks: set<Mark>)
    requires AllGood(g, start, ss) && AllShaped(ss) && g.Sane() && TrueTree(g, start, nodes, marks)
             && FactsOf(ss, marks)
    ensures BoundsFit(nodes)
  {
    hide GoodShard, Reads, Truthful, Bound, AllMarks;
    forall i | 0 <= i < |nodes|
      ensures Bound(nodes, i) <= U32_MAX
    {
      SmallBound(g, start, ss, nodes, marks, i);
    }
  }

  lemma {:induction false} SmallBound(g: Rules, start: Position, ss: seq<Shard>, nodes: seq<PathNode>, marks: set<Mark>,
          i: nat)
    requires AllGood(g, start, ss) && AllShaped(ss) && g.Sane() && TrueTree(g, start, nodes, marks)
             && FactsOf(ss, marks)
    requires i < |nodes|
    ensures Bound(nodes, i) <= U32_MAX
  {
    if nodes[i].outcome.Some? {
      var m := Claim(PathOf(nodes, i), nodes[i].outcome.value);
      assert NodeReads(nodes, marks, i) && m in marks;
      hide GoodShard, Reads, Truthful, Bound, AllMarks, ShardMarks, NodeReads;
      FactsIn(marks, AllMarks(ss), m);
      var k, j := ClaimSource(ss, m);
      ShardAmong(ss, k);
      BoundAtMost(g, start, nodes, marks, ss[k], j, i);
    }
  }

  lemma {:induction false} OkNodes(g: Rules, start: Position, nodes: seq<PathNode>, marks: set<Mark>)
    requires TrueTree(g, start, nodes, marks)
    ensures AllOk(nodes) && NoDraws(nodes)
  {
    TrueChecks(g, start, nodes, marks);
    TruthfulConsistent(g, start, marks);
    NoDrawNodes(nodes, marks);
  }

  /** The proven node `i`: its outcome is forced within its bound. */
  ghost predicate ProvenTrue(g: Rules, start: Position, nodes: seq<PathNode>, depths: seq<nat>, i: nat)
    requires Shaped(nodes) && i < |nodes| == |depths|
  {
    nodes[i].outcome.Some? ==> Forced(g, At(g, start, nodes, i), nodes[i].outcome.value, depths[i])
  }

  /** The moves from the start to a node, read off upwards and reversed. */
  method PathMoves(nodes: seq<PathNode>, i: nat) returns (p: Path)
    requires Shaped(nodes) && i < |nodes|
    ensures p == PathOf(nodes, i)
  {
    p := [];
    var cur: nat := i;
    assert NodeShaped(nodes, cur);
    while nodes[cur].mv.Some?
      invariant cur < |nodes| && PathOf(nodes, cur) + p == PathOf(nodes, i)
      decreases cur
    {
      assert NodeShaped(nodes, cur);
      assert PathOf(nodes, cur) + p == PathOf(nodes, nodes[cur].parent.value) + ([nodes[cur].mv.value] + p);
      p := [nodes[cur].mv.value] + p;
      cur := nodes[cur].parent.value;
    }
    assert NodeShaped(nodes, cur);
  }

  /** Reassemble a node's skeleton and replay it from the node's position. */
  method Revalidate(g: Rules, start: Position, ghost rank: Position -> nat, nodes: seq<PathNode>, depths: seq<nat>,
          i: nat, ghost marks: set<Mark>)
    returns (skeleton: Option<seq<ProofNode>>, defects: seq<V.TreeDefect>)
    requires g.Sane() && g.Injective() && g.Ranked(rank) && TrueTree(g, start, nodes, marks) && BoundsFit(nodes)
    requires i < |nodes| == |depths|
    requires forall x :: 0 <= x < |nodes| ==> depths[x] == Bound(nodes, x)
    ensures skeleton.Some? <==> nodes[i].outcome.Some?
    ensures defects == []
    ensures skeleton.Some? ==>
              && Linked(skeleton.value) && VS.LeavesAreZero(skeleton.value)
              && V.Clean(g, skeleton.value, 0, At(g, start, nodes, i), {})
              && skeleton.value[0].outcome == nodes[i].outcome && skeleton.value[0].depth == depths[i]
  {
    OkNodes(g, start, nodes, marks);
    ghost var src;
    hide Reads, Truthful, AllOk, NoDraws, BoundsFit, Bound, Linked, V.Clean, Copied, V.Report;
    skeleton, src := ReassembleSkeleton(nodes, depths, i);
    defects := [];
    if skeleton.Some? {
      ghost var k := Skel(skeleton.value, src);
      SkelIsProof(g, start, rank, nodes, marks, k, i);
      var path := PathMoves(nodes, i);
      var at := Replay(g, start, path);
      defects := VM.ValidateProofTree(g, Some(at), skeleton.value);
      V.ReportEmptyIffClean(g, skeleton.value, 0, at, [], {});
    }
  }

  lemma {:induction false} SkelIsProof(g: Rules, start: Position, rank: Position -> nat, nodes: seq<PathNode>,
          marks: set<Mark>, k: Skel, i: nat)
    requires g.Injective() && g.Ranked(rank) && TrueTree(g, start, nodes, marks) && AllOk(nodes) && BoundsFit(nodes)
    requires Skeleton(nodes, k) && |k.src| > 0 && k.src[0] == i < |nodes|
    ensures Linked(k.tree) && VS.LeavesAreZero(k.tree) && V.Clean(g, k.tree, 0, At(g, start, nodes, i), {})
    ensures k.tree[0].outcome == nodes[i].outcome && k.tree[0].depth == Bound(nodes, i)
  {
    assert Copied(nodes, k, 0);
    hide Reads, Truthful, AllOk, BoundsFit, Bound, V.Clean;
    assert Proof(g, start, nodes, marks, k);
    SkelClean(g, start, rank, nodes, marks, k, 0, {});
    SkelLeaves(g, start, nodes, marks, k);
  }

  /** The merged node of a shard's node keeps its outcome with a bound no larger. */
  ghost predicate Contributes(r: Merged, s: Shard, j: nat)
    requires Shaped(r.nodes) && Linked(s.nodes) && j < |s.nodes|
  {
    var i := Locate(r.nodes, ShardAt(s, j));
    i.Some? && i.value < |r.depths| && r.nodes[i.value].outcome == s.nodes[j].outcome
    && r.depths[i.value] <= s.nodes[j].depth
  }

  lemma {:induction false} ShardIn(g: Rules, start: Position, ss: seq<Shard>, r: Merged, k: nat, j: nat)
    requires AllGood(g, start, ss) && AllShaped(ss) && g.Sane() && TrueTree(g, start, r.nodes, AllMarks(ss))
    requires |r.depths| == |r.nodes| && forall i :: 0 <= i < |r.nodes| ==> r.depths[i] == Bound(r.nodes, i)
    requires k < |ss| && j < |ss[k].nodes|
    ensures Linked(ss[k].nodes) && Contributes(r, ss[k], j)
  {
    hide GoodShard, Reads, Truthful, Bound, AllMarks, ShardMarks, ShardShaped;
    ShardParts(ss[k]);
    ShardAmong(ss, k);
    NodeForced(g, start, ss[k], j);
    var i := NodeOfShard(r.nodes, AllMarks(ss), ss[k], j);
    BoundAtMost(g, start, r.nodes, AllMarks(ss), ss[k], j, i);
    LocatePath(r.nodes, i);
  }

  lemma {:induction false} GoodTruthful(g: Rules, start: Position, ss: seq<Shard>)
    requires AllGood(g, start, ss) && g.Sane()
    ensures AllShaped(ss) && Truthful(g, start, AllMarks(ss))
  {
    GoodShaped(g, start, ss);
    hide GoodShard, ShardShaped, Truthful, AllMarks;
    AllTruthful(g, start, ss, |ss|);
    assert ss[..|ss|] == ss;
  }

  /** Merging good shards never aborts.  Every proven node is true within its recomputed bound,
      that bound is at most the depth any shard stores, and the skeleton of any proven node
      (`probe`) passes the validator again at the node's position. */
  method MergeGood(g: Rules, start: Position, ghost rank: Position -> nat, ss: seq<Shard>, probe: nat)
    returns (r: Option<Merged>, skeleton: Option<seq<ProofNode>>, defects: seq<V.TreeDefect>)
    requires g.Sane() && g.Injective() && g.Ranked(rank) && AllGood(g, start, ss)
    ensures AllShaped(ss) && r.Some? && Finished(r.value, AllMarks(ss))
    ensures Shaped(r.value.nodes) && |r.value.depths| == |r.value.nodes|
    ensures forall i :: 0 <= i < |r.value.nodes| ==> ProvenTrue(g, start, r.value.nodes, r.value.depths, i)
    ensures forall k, j :: 0 <= k < |ss| && 0 <= j < |ss[k].nodes| ==>
              Linked(ss[k].nodes) && Contributes(r.value, ss[k], j)
    ensures probe < |r.value.nodes| ==>
              && defects == [] && (skeleton.Some? <==> r.value.nodes[probe].outcome.Some?)
              && (skeleton.Some? ==>
                    && Linked(skeleton.value) && V.Clean(g, skeleton.value, 0, At(g, start, r.value.nodes, probe), {})
                    && skeleton.value[0].outcome == r.value.nodes[probe].outcome
                    && skeleton.value[0].depth == r.value.depths[probe])
  {
    GoodMergeable(g, start, ss);
    hide GoodShard, ShardShaped, Mergeable, AllMarks, Reads, Truthful, Bound, Rows, BoundsFit, V.Clean, Linked, Shaped;
    r := MergeShards(ss);
    skeleton, defects := None, [];
    GoodTruthful(g, start, ss);
    var nodes := r.value.nodes;
    ghost var marks := AllMarks(ss);
    ReadsShaped(nodes, marks);
    assert TrueTree(g, start, nodes, marks);
    BoundsAreSmall(g, start, ss, nodes, marks);
    forall i | 0 <= i < |nodes|
      ensures ProvenTrue(g, start, nodes, r.value.depths, i)
    {
      if nodes[i].outcome.Some? {
        BoundSound(g, start, nodes, marks, i);
      }
    }
    forall k, j | 0 <= k < |ss| && 0 <= j < |ss[k].nodes|
      ensures Linked(ss[k].nodes) && Contributes(r.value, ss[k], j)
    {
      ShardIn(g, start, ss, r.value, k, j);
    }
    if probe < |nodes| {
      skeleton, defects := Revalidate(g, start, rank, nodes, r.value.depths, probe, marks);
    }
  }
}
