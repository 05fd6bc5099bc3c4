/** Loading one shard: every cross-check, and exactly what they leave open. */
module ShardLoad {
  import opened Game
  import opened Tree
  import opened RebuildResult
  import opened Paths
  import opened PathMerge
  import opened PathTruth
  import opened PathShards
  import opened FoldRun
  import V = Validate
  import VM = ValidateMachine
  import VS = ValidateSound
  import R = ProofRound

  /** A shard's metadata: the positions of parsed FENs, absent if they do not parse. */
  datatype ShardMeta = ShardMeta(tag: Tag, moves: seq<Move>, outcome: Outcome, validated: bool, sha: Option<nat>,
      at: Option<Position>)

  /** A tree parsed from a shard file. */
  datatype ParsedTree = ParsedTree(nodes: seq<ProofNode>, root: Option<Position>)

  datatype ShardFile = ShardFile(digest: nat, tree: Option<ParsedTree>)

  /** What the binary reader guarantees. */
  ghost predicate WellParsed(t: ParsedTree)
  {
    R.Regular(t.nodes) && |t.nodes| <= U32_MAX && forall j :: 0 <= j < |t.nodes| ==> t.nodes[j].mv < CODES
  }

  /** Legal moves have 16-bit codes. */
  ghost predicate ShortMoves(g: Rules)
  {
    forall p: Position, m: Move :: m in g.legal(p) ==> m < CODES
  }

  /** Both FENs name the replayed position, as far as the hash can tell. */
  predicate HashFidelity(g: Rules, at: Position, m: ShardMeta, t: ParsedTree)
  {
    m.at.Some? && t.root.Some? && g.hash(m.at.value) == g.hash(at) && g.hash(t.root.value) == g.hash(at)
  }

  /** Everything a shard must pass. */
  ghost predicate Loads(g: Rules, start: Position, m: ShardMeta, f: ShardFile)
    requires f.tree.Some? ==> WellParsed(f.tree.value)
  {
    && m.validated && (m.sha.Some? ==> m.sha.value == f.digest) && f.tree.Some?
    && var t := f.tree.value;
       && t.root.Some? && V.Clean(g, t.nodes, 0, t.root.value, {}) && t.nodes[0].outcome == Some(m.outcome)
       && PathLegal(g, start, m.moves) && HashFidelity(g, Replay(g, start, m.moves), m, t)
  }

  /** Load a shard: accepted exactly when every cross-check passes. */
  method LoadShard(g: Rules, start: Position, m: ShardMeta, f: ShardFile) returns (r: Option<Candidate>)
    requires g.Sane() && (f.tree.Some? ==> WellParsed(f.tree.value))
    ensures r.Some? <==> Loads(g, start, m, f)
    ensures r.Some? ==> r.value == Candidate(Shard(m.moves, f.tree.value.nodes, m.tag), f.digest)
  {
    hide R.Regular, V.Clean, PathLegal, V.Report;
    if !m.validated || (m.sha.Some? && m.sha.value != f.digest) || f.tree.None? {
      return None;
    }
    var t := f.tree.value;
    ParsedLinked(t);
    var defects := VM.ValidateProofTree(g, t.root, t.nodes);
    if t.root.Some? {
      V.ReportEmptyIffClean(g, t.nodes, 0, t.root.value, [], {});
    }
    if |defects| > 0 {
      return None;
    }
    if t.nodes[0].outcome != Some(m.outcome) {
      return None;
    }
    var at := ReplayPath(g, start, m.moves);
    if at.None? || !HashFidelity(g, at.value, m, t) {
      return None;
    }
    r := Some(Candidate(Shard(m.moves, t.nodes, m.tag), f.digest));
  }

  lemma {:induction false} ParsedLinked(t: ParsedTree)
    requires WellParsed(t)
    ensures Linked(t.nodes) && AllKids(t.nodes)
  {
  }

  /** No position on the way to the root, and no inner position of the tree, has ended. */
  ghost predicate OpenAlong(g: Rules, start: Position, s: Shard)
    requires Linked(s.nodes)
  {
    && (forall k :: 0 <= k < |s.path| ==> g.terminal(Replay(g, start, s.path[..k])).None?)
    && forall j :: 0 <= j < |s.nodes| ==> InteriorOpen(g, start, s, j)
  }

  lemma {:induction false} PathCodes(g: Rules, start: Position, moves: seq<Move>)
    requires ShortMoves(g) && PathLegal(g, start, moves)
    ensures forall k :: 0 <= k < |moves| ==> moves[k] < CODES
  {
  }

  /** The validator rejects an undecided root. */
  lemma {:induction false} CleanDecides(g: Rules, t: ParsedTree, p: Position)
    requires Linked(t.nodes) && V.Clean(g, t.nodes, 0, p, {})
    ensures t.nodes[0].outcome != Some(Draw)
  {
  }

  lemma {:induction false} StemOpens(g: Rules, start: Position, path: Path)
    requires PathLegal(g, start, path)
    ensures StemLegal(g, start, path) <==> forall k :: 0 <= k < |path| ==> g.terminal(Replay(g, start, path[..k])).None?
  {
    if StemLegal(g, start, path) {
      forall k | 0 <= k < |path|
        ensures g.terminal(Replay(g, start, path[..k])).None?
      {
        assert StepLegal(g, start, path[..k], path[k]);
      }
    }
  }

  lemma {:induction false} LoadsParts(g: Rules, start: Position, m: ShardMeta, f: ShardFile)
    requires g.Injective() && ShortMoves(g) && f.tree.Some? && WellParsed(f.tree.value) && Loads(g, start, m, f)
    ensures var t := f.tree.value;
            && Linked(t.nodes) && AllKids(t.nodes) && VS.LeavesAreZero(t.nodes) && |t.nodes| <= U32_MAX
            && V.Clean(g, t.nodes, 0, Replay(g, start, m.moves), {}) && PathLegal(g, start, m.moves)
            && (forall k :: 0 <= k < |m.moves| ==> m.moves[k] < CODES)
            && forall j :: 0 <= j < |t.nodes| ==> t.nodes[j].mv < CODES
  {
    var t := f.tree.value;
    ParsedLinked(t);
    PathCodes(g, start, m.moves);
    hide AllKids, VS.LeavesAreZero, PathLegal, Replay;
    assert g.hash(t.root.value) == g.hash(Replay(g, start, m.moves));
    CleanDecides(g, t, t.root.value);
    R.RegularLeaves(t.nodes);
    hide R.Regular, V.Clean;
  }

  /** The claims of a loaded shard are true if and only if the rules do not end an inner position of its
      tree otherwise. */
  lemma {:induction false} LoadedTrueIff(g: Rules, start: Position, m: ShardMeta, f: ShardFile)
    requires g.Sane() && g.Injective() && ShortMoves(g) && f.tree.Some? && WellParsed(f.tree.value)
    requires Loads(g, start, m, f)
    ensures Linked(f.tree.value.nodes)
    ensures var nodes, p := f.tree.value.nodes, Replay(g, start, m.moves);
            VS.ClaimsTrue(g, nodes, 0, p) <==> VS.InteriorAgrees(g, nodes, 0, p)
  {
    hide V.Clean, R.Regular, AllKids, VS.LeavesAreZero, PathLegal, Loads, WellParsed, Replay, V.Shaped,
      VS.ClaimsTrue, VS.InteriorAgrees;
    LoadsParts(g, start, m, f);
    VS.LeavesAreZeroShaped(f.tree.value.nodes, 0);
    VS.ClaimsTrueIff(g, f.tree.value.nodes, 0, Replay(g, start, m.moves), {});
  }

  /** A loaded shard with open positions is one the merge can rely on. */
  lemma {:induction false} LoadedGood(g: Rules, start: Position, m: ShardMeta, f: ShardFile)
    requires g.Injective() && ShortMoves(g) && f.tree.Some? && WellParsed(f.tree.value) && Loads(g, start, m, f)
    requires Linked(f.tree.value.nodes) && OpenAlong(g, start, Shard(m.moves, f.tree.value.nodes, m.tag))
    ensures GoodShard(g, start, Shard(m.moves, f.tree.value.nodes, m.tag))
  {
    hide V.Clean, R.Regular, AllKids, InteriorOpen, StemLegal, VS.LeavesAreZero, PathLegal, Loads, WellParsed, Linked,
      Replay;
    LoadsParts(g, start, m, f);
    StemOpens(g, start, m.moves);
  }

  /** A shard of one winning move at a position the rules call a draw. */
  function FalseWin(tag: Tag): (r: (ShardMeta, ShardFile))
  {
    (ShardMeta(tag, [], Win, true, Some(0), Some(0)), ShardFile(0, Some(ParsedTree(VS.WinInOne(), Some(0)))))
  }

  lemma {:induction false} WinInOneParsed(tag: Tag)
    ensures WellParsed(FalseWin(tag).1.tree.value)
  {
    VS.WinInOneShape();
    var nodes := VS.WinInOne();
    hide Children, Linked, V.Expected;
    assert IsKid(nodes, 0, 1);
    assert IsKidOfParent(nodes, 1);
    assert R.FlipsParent(nodes, 1);
  }

  /** A shard is loaded although its claim is false. */
  lemma {:induction false} LoadedButFalse(tag: Tag)
    ensures var g, s := VS.DrawnWithMoves(), FalseWin(tag);
            && g.Sane() && g.Injective() && ShortMoves(g) && WellParsed(s.1.tree.value) && Loads(g, 0, s.0, s.1)
            && s.1.tree.value.nodes[0].outcome == Some(Win) && !Holds(g, Replay(g, 0, s.0.moves), Win)
  {
    WinInOneParsed(tag);
    VS.AcceptedButFalse();
    hide V.Clean, WellParsed, Holds;
  }
}
