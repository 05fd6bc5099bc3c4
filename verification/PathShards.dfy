/** What a validated shard contributes: its marks are true and its depths bound the merge. */
module PathShards {
  import opened Game
  import opened Tree
  import opened RebuildResult
  import V = Validate
  import VS = ValidateSound
  import opened Paths
  import opened PathDepth
  import opened PathOrder
  import opened PathMerge
  import opened PathSame
  import opened PathTruth

  ghost function RootAt(g: Rules, start: Position, s: Shard): Position { Replay(g, start, s.path) }

  /** The path to the shard's root is legal play through open positions. */
  ghost predicate StemLegal(g: Rules, start: Position, path: Path)
  {
    forall k :: 0 <= k < |path| ==> StepLegal(g, start, path[..k], path[k])
  }

  /** A shard that was read from a dump, accepted by the validator, and whose interior
      positions are open. */
  ghost predicate GoodShard(g: Rules, start: Position, s: Shard)
  {
    && ShardShaped(s) && |s.nodes| <= U32_MAX && VS.LeavesAreZero(s.nodes)
    && V.Clean(g, s.nodes, 0, RootAt(g, start, s), {})
    && StemLegal(g, start, s.path)
    && forall j :: 0 <= j < |s.nodes| ==> InteriorOpen(g, start, s, j)
  }

  ghost predicate InteriorOpen(g: Rules, start: Position, s: Shard, j: nat)
    requires Linked(s.nodes) && j < |s.nodes|
  {
    s.nodes[j].depth > 0 ==> g.terminal(Replay(g, start, ShardAt(s, j))).None?
  }

  lemma {:induction false} GoodParts(g: Rules, start: Position, s: Shard)
    requires GoodShard(g, start, s)
    ensures ShardShaped(s) && Linked(s.nodes) && AllKids(s.nodes) && |s.nodes| <= U32_MAX && VS.LeavesAreZero(s.nodes)
    ensures V.Clean(g, s.nodes, 0, RootAt(g, start, s), {}) && StemLegal(g, start, s.path)
  {
  }

  // ----- a node of a good shard -----

  /** The replayed position of a node. */
  ghost function NodeAt(g: Rules, start: Position, s: Shard, j: nat): Position
    requires Linked(s.nodes) && j < |s.nodes|
  {
    Replay(g, start, ShardAt(s, j))
  }

  lemma {:induction false} NodeAtKid(g: Rules, start: Position, s: Shard, i: nat, c: nat)
    requires Linked(s.nodes) && IsKid(s.nodes, i, c)
    ensures i < c < |s.nodes| && NodeAt(g, start, s, c) == g.play(NodeAt(g, start, s, i), s.nodes[c].mv)
  {
    ShardKid(s, i, c);
    ReplaySnoc(g, start, ShardAt(s, i), s.nodes[c].mv);
  }

  /** Every node is clean at its replayed position. */
  lemma {:induction false} NodeClean(g: Rules, start: Position, s: Shard, j: nat) returns (onPath: set<nat>)
    requires GoodShard(g, start, s) && j < |s.nodes|
    ensures Linked(s.nodes) && V.Clean(g, s.nodes, j, NodeAt(g, start, s, j), onPath)
    decreases j
  {
    hide V.LocalOk, V.Shaped, V.Expected, Replay, InteriorOpen;
    GoodParts(g, start, s);
    if j == 0 {
      onPath := {};
      assert ShardAt(s, 0) == s.path;
    } else {
      assert NodeLinked(s.nodes, j) && IsKidOfParent(s.nodes, j);
      var above := s.nodes[j].parent.value;
      var hs := NodeClean(g, start, s, above);
      var kids := Children(s.nodes, above);
      var k :| 0 <= k < |kids| && kids[k] == j;
      assert |kids| > 0 && s.nodes[above].depth > 0;
      NodeAtKid(g, start, s, above, j);
      var q := g.play(NodeAt(g, start, s, above), s.nodes[j].mv);
      assert V.KidsClean(g, s.nodes, kids, above + 1, NodeAt(g, start, s, above), hs);
      onPath := hs + {g.hash(q)};
    }
  }

  lemma {:induction false} NodeAgrees(g: Rules, start: Position, s: Shard, j: nat)
    requires GoodShard(g, start, s) && j < |s.nodes|
    ensures Linked(s.nodes) && VS.InteriorAgrees(g, s.nodes, j, NodeAt(g, start, s, j))
    decreases |s.nodes| - j
  {
    hide V.Clean, Replay;
    assert InteriorOpen(g, start, s, j);
    GoodParts(g, start, s);
    if s.nodes[j].depth > 0 {
      var kids := Children(s.nodes, j);
      forall k | 0 <= k < |kids|
        ensures VS.InteriorAgrees(g, s.nodes, kids[k], g.play(NodeAt(g, start, s, j), s.nodes[kids[k]].mv))
      {
        assert IsKid(s.nodes, j, kids[k]);
        NodeAtKid(g, start, s, j, kids[k]);
        NodeAgrees(g, start, s, kids[k]);
      }
    }
  }

  /** Every node's claim is true within its stored depth. */
  lemma {:induction false} NodeForced(g: Rules, start: Position, s: Shard, j: nat)
    requires GoodShard(g, start, s) && j < |s.nodes| && g.Sane()
    ensures Linked(s.nodes) && DecidedNode(s.nodes[j])
            && Forced(g, NodeAt(g, start, s, j), s.nodes[j].outcome.value, s.nodes[j].depth)
  {
    var onPath := NodeClean(g, start, s, j);
    NodeAgrees(g, start, s, j);
    GoodParts(g, start, s);
    VS.LeavesAreZeroShaped(s.nodes, j);
    VS.ClaimsTrueIff(g, s.nodes, j, NodeAt(g, start, s, j), onPath);
    ForcedDecides(g, NodeAt(g, start, s, j), s.nodes[j].outcome.value, s.nodes[j].depth);
  }

  lemma {:induction false} ForcedDecides(g: Rules, p: Position, o: Outcome, n: nat)
    requires Forced(g, p, o, n)
    ensures o == Win || o == Loss
  {
    assert o != Draw;
  }

  /** The local rules at a node, in terms of its children. */
  lemma {:induction false} NodeRules(g: Rules, start: Position, s: Shard, j: nat)
    requires GoodShard(g, start, s) && j < |s.nodes|
    ensures Linked(s.nodes) && V.LocalOk(g, s.nodes, j, NodeAt(g, start, s, j))
    ensures s.nodes[j].depth == V.Expected(s.nodes, j) && (s.nodes[j].depth == 0 <==> Children(s.nodes, j) == [])
  {
    var onPath := NodeClean(g, start, s, j);
    GoodParts(g, start, s);
    VS.LeavesAreZeroShaped(s.nodes, j);
  }

  lemma {:induction false} LocalWin(g: Rules, nodes: seq<ProofNode>, j: nat, p: Position)
    requires Linked(nodes) && j < |nodes| && V.LocalOk(g, nodes, j, p) && nodes[j].depth > 0
             && nodes[j].outcome == Some(Win)
    ensures |Children(nodes, j)| == 1
    ensures var c := Children(nodes, j)[0];
            j < c < |nodes| && nodes[c].outcome == Some(Loss) && nodes[c].mv in g.legal(p)
  {
  }

  lemma {:induction false} LocalReply(g: Rules, nodes: seq<ProofNode>, j: nat, p: Position, m: Move) returns (k: nat)
    requires Linked(nodes) && j < |nodes| && V.LocalOk(g, nodes, j, p) && nodes[j].depth > 0
             && nodes[j].outcome == Some(Loss)
    requires m in g.legal(p)
    ensures k < |Children(nodes, j)|
    ensures var c := Children(nodes, j)[k]; j < c < |nodes| && nodes[c].outcome == Some(Win) && nodes[c].mv == m
  {
    var kids := Children(nodes, j);
    var x :| 0 <= x < |g.legal(p)| && g.legal(p)[x] == m;
    hide Children;
    assert V.Replied(nodes, kids, g.legal(p)[x]);
    var i: nat :| i < |kids| && nodes[kids[i]].mv == m;
    k := i;
  }

  /** The proving child of a Win node. */
  lemma {:induction false} WinKid(g: Rules, start: Position, s: Shard, j: nat)
    requires GoodShard(g, start, s) && Linked(s.nodes) && j < |s.nodes| && s.nodes[j].depth > 0
             && s.nodes[j].outcome == Some(Win)
    ensures |Children(s.nodes, j)| == 1
    ensures var c := Children(s.nodes, j)[0];
            j < c < |s.nodes| && s.nodes[c].outcome == Some(Loss) && s.nodes[c].mv in g.legal(NodeAt(g, start, s, j))
            && IsKid(s.nodes, j, c)
  {
    hide V.LocalOk;
    NodeRules(g, start, s, j);
    LocalWin(g, s.nodes, j, NodeAt(g, start, s, j));
  }

  /** The child that answers a legal reply of a Loss node. */
  lemma {:induction false} ReplyKid(g: Rules, start: Position, s: Shard, j: nat, m: Move) returns (k: nat)
    requires GoodShard(g, start, s) && Linked(s.nodes) && j < |s.nodes| && s.nodes[j].depth > 0
             && s.nodes[j].outcome == Some(Loss)
    requires m in g.legal(NodeAt(g, start, s, j))
    ensures k < |Children(s.nodes, j)|
    ensures var c := Children(s.nodes, j)[k];
            j < c < |s.nodes| && s.nodes[c].outcome == Some(Win) && s.nodes[c].mv == m && IsKid(s.nodes, j, c)
  {
    hide V.LocalOk;
    NodeRules(g, start, s, j);
    k := LocalReply(g, s.nodes, j, NodeAt(g, start, s, j), m);
  }

  lemma {:induction false} LeafEnds(g: Rules, start: Position, s: Shard, j: nat)
    requires GoodShard(g, start, s) && Linked(s.nodes) && j < |s.nodes|
    ensures s.nodes[j].depth == 0 ==> g.terminal(NodeAt(g, start, s, j)).Some?
  {
    NodeRules(g, start, s, j);
  }

  // ----- its marks are true -----

  lemma {:induction false} KidClaim(s: Shard, j: nat, k: nat)
    requires ShardShaped(s) && j < |s.nodes| && k < |Children(s.nodes, j)|
             && s.nodes[Children(s.nodes, j)[k]].outcome.Some?
    ensures var c := Children(s.nodes, j)[k];
            Claim(ShardAt(s, j) + [s.nodes[c].mv], s.nodes[c].outcome.value) in ShardMarks(s)
  {
    var c := Children(s.nodes, j)[k];
    assert IsKid(s.nodes, j, c);
    ShardKid(s, j, c);
    OwnInBody(s, c);
  }

  /** An open position's claim is backed by the shard's own children. */
  lemma {:induction false} OwnBacked(g: Rules, start: Position, s: Shard, j: nat)
    requires GoodShard(g, start, s) && ShardShaped(s) && j < |s.nodes| && DecidedNode(s.nodes[j])
             && s.nodes[j].depth > 0
    ensures ClaimBacked(g, start, ShardMarks(s), ShardAt(s, j), s.nodes[j].outcome.value)
  {
    hide GoodShard, ShardShaped, ShardMarks, ShardAt, Replay, Children;
    GoodParts(g, start, s);
    var p := ShardAt(s, j);
    var q := NodeAt(g, start, s, j);
    if s.nodes[j].outcome == Some(Win) {
      WinKid(g, start, s, j);
      KidClaim(s, j, 0);
      var m := s.nodes[Children(s.nodes, j)[0]].mv;
      assert m in g.legal(q) && Claim(p + [m], Loss) in ShardMarks(s);
    } else {
      forall m | m in g.legal(q)
        ensures Claim(p + [m], Win) in ShardMarks(s)
      {
        var k := ReplyKid(g, start, s, j, m);
        KidClaim(s, j, k);
      }
    }
  }

  lemma {:induction false} OwnTrue(g: Rules, start: Position, s: Shard, j: nat, m: Mark)
    requires GoodShard(g, start, s) && ShardShaped(s) && j < |s.nodes| && g.Sane() && m in OwnMarks(s, j)
    ensures MarkTrue(g, start, ShardMarks(s), m)
  {
    hide GoodShard, ShardShaped, ShardMarks, OwnMarks, ShardAt, Replay, ClaimBacked, StepLegal, Holds;
    GoodParts(g, start, s);
    LeafEnds(g, start, s, j);
    match m
    case Node(p) => OwnStep(g, start, s, j);
    case Tagged(p, t) =>
    case Claim(p, o) =>
      OwnClaim(s, j, m);
      NodeForced(g, start, s, j);
      ForcedHolds(g, NodeAt(g, start, s, j), o, s.nodes[j].depth);
      if s.nodes[j].depth > 0 {
        OwnBacked(g, start, s, j);
      }
    case End(p) => OwnEnd(s, j, m);
  }

  lemma {:induction false} ForcedHolds(g: Rules, p: Position, o: Outcome, n: nat)
    requires Forced(g, p, o, n)
    ensures Holds(g, p, o)
  {
  }

  lemma {:induction false} OwnEnd(s: Shard, j: nat, m: Mark)
    requires Linked(s.nodes) && j < |s.nodes| && m in OwnMarks(s, j) && m.End?
    ensures s.nodes[j].depth == 0
  {
  }

  lemma {:induction false} OwnStep(g: Rules, start: Position, s: Shard, j: nat)
    requires GoodShard(g, start, s) && j < |s.nodes| && Linked(s.nodes)
    ensures var p := ShardAt(s, j); p == [] || StepLegal(g, start, p[..|p| - 1], p[|p| - 1])
  {
    GoodParts(g, start, s);
    var p := ShardAt(s, j);
    if j == 0 {
      assert p == s.path;
      if p != [] {
        assert StepLegal(g, start, s.path[..|p| - 1], s.path[|p| - 1]);
      }
    } else {
      assert NodeLinked(s.nodes, j) && IsKidOfParent(s.nodes, j);
      var above := s.nodes[j].parent.value;
      ShardKid(s, above, j);
      NodeRules(g, start, s, above);
      assert InteriorOpen(g, start, s, above);
      var kids := Children(s.nodes, above);
      var k :| 0 <= k < |kids| && kids[k] == j;
      assert p[..|p| - 1] == ShardAt(s, above);
    }
  }

  lemma {:induction false} StemTrue(g: Rules, start: Position, path: Path, tag: Tag, n: nat, all: set<Mark>)
    requires StemLegal(g, start, path) && n <= |path|
    ensures forall m :: m in StemMarks(path, tag, n) ==> MarkTrue(g, start, all, m)
  {
    hide Replay;
    if n > 0 {
      StemTrue(g, start, path, tag, n - 1, all);
      assert path[..n][..n - 1] == path[..n - 1];
      assert StepLegal(g, start, path[..n - 1], path[n - 1]);
    }
  }

  /** Everything a good shard says is true. */
  lemma {:induction false} ShardTruthful(g: Rules, start: Position, s: Shard)
    requires GoodShard(g, start, s) && g.Sane()
    ensures ShardShaped(s) && Truthful(g, start, ShardMarks(s)) && ShardDecided(s)
  {
    GoodParts(g, start, s);
    StemTrue(g, start, s.path, s.tag, |s.path|, ShardMarks(s));
    hide GoodShard, StemMarks, OwnMarks, MarkTrue, DecidedNode;
    forall m | m in BodyMarks(s)
      ensures MarkTrue(g, start, ShardMarks(s), m)
    {
      var j: nat :| j < |s.nodes| && m in OwnMarks(s, j);
      OwnTrue(g, start, s, j, m);
    }
    forall j | 0 <= j < |s.nodes|
      ensures DecidedNode(s.nodes[j])
    {
      NodeForced(g, start, s, j);
    }
  }

  ghost predicate AllGood(g: Rules, start: Position, ss: seq<Shard>)
  {
    forall k :: 0 <= k < |ss| ==> GoodShard(g, start, ss[k])
  }

  lemma {:induction false} GoodShaped(g: Rules, start: Position, ss: seq<Shard>)
    requires AllGood(g, start, ss)
    ensures AllShaped(ss)
  {
    forall k | 0 <= k < |ss|
      ensures ShardShaped(ss[k])
    {
      GoodParts(g, start, ss[k]);
    }
  }

  lemma {:induction false} RootTrue(g: Rules, start: Position)
    ensures Truthful(g, start, {Node([])})
  {
  }

  /** The marks of good shards are true together. */
  lemma {:induction false} AllTruthful(g: Rules, start: Position, ss: seq<Shard>, n: nat)
    requires AllGood(g, start, ss) && AllShaped(ss) && g.Sane() && n <= |ss|
    ensures Truthful(g, start, AllMarks(ss[..n]))
  {
    hide GoodShard, ShardShaped, Truthful, ShardDecided, StemMarks, BodyMarks, AllMarks;
    if n == 0 {
      assert ss[..n] == [];
      NoShards();
      RootTrue(g, start);
    } else {
      AllTruthful(g, start, ss, n - 1);
      OneMore(ss, n - 1);
      ShardTruthful(g, start, ss[n - 1]);
      MarksSplit(ss[n - 1]);
      TruthfulUnion(g, start, AllMarks(ss[..n - 1]), ShardMarks(ss[n - 1]));
      assert AllMarks(ss[..n]) == AllMarks(ss[..n - 1]) + ShardMarks(ss[n - 1]);
    }
  }

  lemma {:induction false} GoodDecided(g: Rules, start: Position, ss: seq<Shard>)
    requires AllGood(g, start, ss) && g.Sane()
    ensures AllDecided(ss)
  {
    hide GoodShard, ShardDecided, Truthful;
    forall k | 0 <= k < |ss|
      ensures ShardDecided(ss[k])
    {
      ShardTruthful(g, start, ss[k]);
    }
  }

  /** Good shards always merge. */
  lemma {:induction false} GoodMergeable(g: Rules, start: Position, ss: seq<Shard>)
    requires AllGood(g, start, ss) && g.Sane()
    ensures AllShaped(ss) && Mergeable(ss)
  {
    hide GoodShard, ShardShaped, MarkTrue, ShardDecided, AllMarks, Truthful, Reads, AllOk;
    GoodShaped(g, start, ss);
    GoodDecided(g, start, ss);
    AllTruthful(g, start, ss, |ss|);
    assert ss[..|ss|] == ss;
    TruthfulConsistent(g, start, AllMarks(ss));
    forall nodes: seq<PathNode> | Reads(nodes, AllMarks(ss))
      ensures AllOk(nodes)
    {
      ReadsShaped(nodes, AllMarks(ss));
      TrueChecks(g, start, nodes, AllMarks(ss));
    }
  }

  lemma {:induction false} ReadsShaped(nodes: seq<PathNode>, marks: set<Mark>)
    requires Reads(nodes, marks)
    ensures Shaped(nodes)
  {
  }

  // ----- bounds against the shards -----

  /** The merged node of a shard's node. */
  lemma {:induction false} NodeOfShard(nodes: seq<PathNode>, marks: set<Mark>, s: Shard, j: nat) returns (i: nat)
    requires Reads(nodes, marks) && ShardShaped(s) && j < |s.nodes| && DecidedNode(s.nodes[j])
             && Facts(ShardMarks(s)) <= Facts(marks)
    ensures i < |nodes| && PathOf(nodes, i) == ShardAt(s, j) && nodes[i].outcome == s.nodes[j].outcome
  {
    OwnInBody(s, j);
    FactsKept(ShardMarks(s), marks, Claim(ShardAt(s, j), s.nodes[j].outcome.value));
    i := ReadAt(nodes, marks, Claim(ShardAt(s, j), s.nodes[j].outcome.value));
  }

  /** A proven node's bound is at most the depth any contributing shard stores for it. */
  lemma {:induction false} BoundAtMost(g: Rules, start: Position, nodes: seq<PathNode>, marks: set<Mark>, s: Shard,
          j: nat, i: nat)
    requires TrueTree(g, start, nodes, marks) && GoodShard(g, start, s) && g.Sane() && ShardShaped(s) && j < |s.nodes|
             && Facts(ShardMarks(s)) <= Facts(marks)
    requires i < |nodes| && PathOf(nodes, i) == ShardAt(s, j)
    ensures nodes[i].outcome == s.nodes[j].outcome && Bound(nodes, i) <= s.nodes[j].depth
    decreases |s.nodes| - j
  {
    hide GoodShard, Reads, Truthful, ShardMarks, Bound, Kids, Keys, Replay, ShardShaped, V.LocalOk, V.Expected;
    NodeForced(g, start, s, j);
    var x := NodeOfShard(nodes, marks, s, j);
    PathOnce(nodes, i, x);
    NodeRules(g, start, s, j);
    if s.nodes[j].depth == 0 {
      LeafEnds(g, start, s, j);
      Backed(g, start, nodes, marks, i);
      NoKids(nodes, i);
    } else if s.nodes[j].outcome == Some(Win) {
      WinWithin(g, start, nodes, marks, s, j, i);
    } else {
      LossWithin(g, start, nodes, marks, s, j, i);
    }
  }

  /** The stored depth of an expanded node exceeds a Win's only child and every child of a Loss. */
  lemma {:induction false} DepthAbove(g: Rules, start: Position, s: Shard, j: nat, k: nat)
    requires GoodShard(g, start, s) && Linked(s.nodes) && j < |s.nodes| && k < |Children(s.nodes, j)|
    ensures var c := Children(s.nodes, j)[k]; j < c < |s.nodes| && s.nodes[c].depth < s.nodes[j].depth
  {
    var onPath := NodeClean(g, start, s, j);
    GoodParts(g, start, s);
    VS.LeavesAreZeroShaped(s.nodes, j);
    NodeRules(g, start, s, j);
    VS.StepDepth(g, s.nodes, j, NodeAt(g, start, s, j), onPath);
  }

  lemma {:induction false} WinWithin(g: Rules, start: Position, nodes: seq<PathNode>, marks: set<Mark>, s: Shard,
          j: nat, i: nat)
    requires TrueTree(g, start, nodes, marks) && GoodShard(g, start, s) && g.Sane() && ShardShaped(s) && j < |s.nodes|
             && Facts(ShardMarks(s)) <= Facts(marks)
    requires i < |nodes| && PathOf(nodes, i) == ShardAt(s, j) && nodes[i].outcome == s.nodes[j].outcome == Some(Win)
             && s.nodes[j].depth > 0
    ensures Bound(nodes, i) <= s.nodes[j].depth
    decreases |s.nodes| - j, 0
  {
    hide GoodShard, Reads, Truthful, ShardMarks, Facts, Bound, Kids, Keys, Replay, ShardAt, Children, ShardShaped;
    GoodParts(g, start, s);
    WinKid(g, start, s, j);
    var c := Children(s.nodes, j)[0];
    KidClaim(s, j, 0);
    DepthAbove(g, start, s, j, 0);
    var m := s.nodes[c].mv;
    FactsKept(ShardMarks(s), marks, Claim(ShardAt(s, j) + [m], Loss));
    ClaimedChild(g, start, nodes, marks, i, m, Loss);
    ChildPath(nodes, i, m);
    ShardKid(s, j, c);
    BoundAtMost(g, start, nodes, marks, s, c, nodes[i].children[m]);
    WinAtMost(nodes, i, m);
  }

  lemma {:induction false} LossWithin(g: Rules, start: Position, nodes: seq<PathNode>, marks: set<Mark>, s: Shard,
          j: nat, i: nat)
    requires TrueTree(g, start, nodes, marks) && GoodShard(g, start, s) && g.Sane() && ShardShaped(s) && j < |s.nodes|
             && Facts(ShardMarks(s)) <= Facts(marks)
    requires i < |nodes| && PathOf(nodes, i) == ShardAt(s, j) && nodes[i].outcome == s.nodes[j].outcome == Some(Loss)
             && s.nodes[j].depth > 0
    ensures Bound(nodes, i) <= s.nodes[j].depth
    decreases |s.nodes| - j, 1
  {
    hide GoodShard, Reads, Truthful, ShardMarks, Facts, Bound, Kids, Keys, Replay, ShardAt, ShardShaped;
    forall k | 0 <= k < |Kids(nodes, i)|
      ensures Kids(nodes, i)[k] < |nodes| && Bound(nodes, Kids(nodes, i)[k]) <= s.nodes[j].depth - 1
    {
      KidLegal(g, start, nodes, marks, i, k);
      ReplyWithin(g, start, nodes, marks, s, j, Kids(nodes, i)[k], Keys(nodes[i].children)[k]);
    }
    LossAtMost(nodes, i, s.nodes[j].depth - 1);
  }

  lemma {:induction false} ReplyWithin(g: Rules, start: Position, nodes: seq<PathNode>, marks: set<Mark>, s: Shard,
          j: nat, c: nat, m: Move)
    requires TrueTree(g, start, nodes, marks) && GoodShard(g, start, s) && g.Sane() && ShardShaped(s) && j < |s.nodes|
             && Facts(ShardMarks(s)) <= Facts(marks)
    requires s.nodes[j].outcome == Some(Loss) && s.nodes[j].depth > 0 && m in g.legal(NodeAt(g, start, s, j))
    requires c < |nodes| && PathOf(nodes, c) == ShardAt(s, j) + [m]
    ensures Bound(nodes, c) < s.nodes[j].depth
    decreases |s.nodes| - j, 0
  {
    hide GoodShard, Reads, Truthful, ShardMarks, Facts, Bound, Kids, Keys, Replay, ShardAt, Children, ShardShaped;
    GoodParts(g, start, s);
    var k := ReplyKid(g, start, s, j, m);
    DepthAbove(g, start, s, j, k);
    var d := Children(s.nodes, j)[k];
    ShardKid(s, j, d);
    BoundAtMost(g, start, nodes, marks, s, d, c);
  }
}
