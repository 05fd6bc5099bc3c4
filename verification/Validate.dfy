/** The replay validator: an explicit Enter/Exit frame stack over one board that is played
    forward and taken back, refined down to a recursive report and then to a declarative
    proof predicate. */
module Validate {
  import opened Game
  import opened Lists
  import opened Tree

  datatype DefectKind =
    | NotDecisive | ChildNotLoss | ChildNotWin | WinNotSingle | LossIncomplete
    | IllegalChildMove | TerminalMismatch | DepthInconsistent | HashMismatch | CycleLeaf

  datatype TreeDefect = TreeDefect(path: seq<Move>, kind: DefectKind)

  // ----- the declarative side -----

  function DecisiveOf(nodes: seq<ProofNode>, id: nat): (d: bool)
    requires id < |nodes|
  {
    nodes[id].outcome.Some? && nodes[id].outcome.value != Draw
  }

  predicate Replied(nodes: seq<ProofNode>, kids: seq<nat>, m: Move)
    requires Within(kids, 0, |nodes|)
  {
    exists k :: 0 <= k < |kids| && nodes[kids[k]].mv == m
  }

  /** The rules one node of a proof must satisfy at its replayed position. */
  ghost predicate LocalOk(g: Rules, nodes: seq<ProofNode>, id: nat, p: Position)
    requires Linked(nodes) && id < |nodes|
  {
    var n := nodes[id];
    var kids := Children(nodes, id);
    && DecisiveOf(nodes, id)
    && (n.hash == 0 || n.hash == g.hash(p))
    && if n.depth == 0 then g.terminal(p) == n.outcome
       else
         && (n.outcome == Some(Win) ==> |kids| == 1)
         && (forall k :: 0 <= k < |kids| ==> nodes[kids[k]].outcome == Some(n.outcome.value.Flip()))
         && (forall k :: 0 <= k < |kids| ==> nodes[kids[k]].mv in g.legal(p))
         && (n.outcome == Some(Loss) ==> forall k :: 0 <= k < |g.legal(p)| ==> Replied(nodes, kids, g.legal(p)[k]))
  }

  /** The bottom-up depth of a node, from the arena's shape and outcomes alone. */
  function Expected(nodes: seq<ProofNode>, id: nat): U32
    requires Linked(nodes) && id < |nodes|
    decreases |nodes| - id
  {
    var kids := Children(nodes, id);
    if kids == [] then 0
    else ProvenDepth(nodes[id].outcome,
                     seq(|kids|, i requires 0 <= i < |kids| => Expected(nodes, kids[i])))
  }

  /** No depth-0 node below `id` hides children. */
  predicate Shaped(nodes: seq<ProofNode>, id: nat)
    requires Linked(nodes) && id < |nodes|
    decreases |nodes| - id
  {
    if nodes[id].depth == 0 then Children(nodes, id) == []
    else var kids := Children(nodes, id); forall k :: 0 <= k < |kids| ==> Shaped(nodes, kids[k])
  }

  /** `id` heads a proof of its outcome at `p`; `onPath` holds the hashes of the path so far. */
  ghost predicate Clean(g: Rules, nodes: seq<ProofNode>, id: nat, p: Position, onPath: set<nat>)
    requires Linked(nodes) && id < |nodes|
    decreases |nodes| - id, 0, 0
  {
    && LocalOk(g, nodes, id, p)
    && (nodes[id].depth > 0 ==> KidsClean(g, nodes, Children(nodes, id), id + 1, p, onPath))
    && (Shaped(nodes, id) ==> nodes[id].depth == Expected(nodes, id))
  }

  ghost predicate KidsClean(g: Rules, nodes: seq<ProofNode>, kids: seq<nat>, low: nat, p: Position, onPath: set<nat>)
    requires Linked(nodes) && Within(kids, low, |nodes|)
    decreases |nodes| - low, 1, 0
  {
    forall k :: 0 <= k < |kids| ==>
      var q := g.play(p, nodes[kids[k]].mv);
      g.hash(q) !in onPath && Clean(g, nodes, kids[k], q, onPath + {g.hash(q)})
  }

  // ----- the recursive report -----

  /** One entry per child among the first `n` whose outcome is not `want`. */
  function WrongOutcomes(nodes: seq<ProofNode>, kids: seq<nat>, n: nat, want: Outcome,
          d: TreeDefect): (r: seq<TreeDefect>)
    requires Within(kids, 0, |nodes|) && n <= |kids|
  {
    if n == 0 then []
    else WrongOutcomes(nodes, kids, n - 1, want, d) + if nodes[kids[n - 1]].outcome != Some(want) then [d] else []
  }

  /** One entry per child from `i` on whose move is illegal, last child first. */
  function IllegalMoves(nodes: seq<ProofNode>, kids: seq<nat>, i: nat, legal: seq<Move>,
          d: TreeDefect): (r: seq<TreeDefect>)
    requires Within(kids, 0, |nodes|) && i <= |kids|
    decreases |kids| - i
  {
    if i == |kids| then []
    else IllegalMoves(nodes, kids, i + 1, legal, d) + if nodes[kids[i]].mv in legal then [] else [d]
  }

  /** One entry per reply among the first `n` legal ones without a child. */
  function MissingReplies(nodes: seq<ProofNode>, kids: seq<nat>, legal: seq<Move>, n: nat,
          d: TreeDefect): (r: seq<TreeDefect>)
    requires Within(kids, 0, |nodes|) && n <= |legal|
  {
    if n == 0 then []
    else MissingReplies(nodes, kids, legal, n - 1, d) + if Replied(nodes, kids, legal[n - 1]) then [] else [d]
  }

  /** The children from `i` on that the replay descends into: those whose move it can play. */
  function Playable(nodes: seq<ProofNode>, kids: seq<nat>, i: nat, legal: seq<Move>): (r: seq<nat>)
    requires Within(kids, 0, |nodes|) && i <= |kids|
    ensures forall k :: 0 <= k < |r| ==> r[k] in kids && r[k] < |nodes| && nodes[r[k]].mv in legal
    decreases |kids| - i
  {
    if i == |kids| then []
    else (if nodes[kids[i]].mv in legal then [kids[i]] else []) + Playable(nodes, kids, i + 1, legal)
  }

  function Descend(g: Rules, nodes: seq<ProofNode>, id: nat, p: Position): (r: seq<nat>)
    requires Linked(nodes) && id < |nodes|
    ensures forall k :: 0 <= k < |r| ==>
              id < r[k] < |nodes| && nodes[r[k]].parent == Some(id) && nodes[r[k]].mv in g.legal(p)
    ensures Within(r, id + 1, |nodes|)
  {
    if DecisiveOf(nodes, id) && nodes[id].depth != 0 then Playable(nodes, Children(nodes, id), 0, g.legal(p)) else []
  }

  function InteriorDefects(g: Rules, nodes: seq<ProofNode>, kids: seq<nat>, o: Outcome, p: Position,
          path: seq<Move>): (r: seq<TreeDefect>)
    requires Within(kids, 0, |nodes|)
  {
    (if o == Win && |kids| != 1 then [TreeDefect(path, WinNotSingle)] else [])
    + WrongOutcomes(nodes, kids, |kids|, o.Flip(), TreeDefect(path, if o == Win then ChildNotLoss else ChildNotWin))
    + IllegalMoves(nodes, kids, 0, g.legal(p), TreeDefect(path, IllegalChildMove))
    + if o == Loss then MissingReplies(nodes, kids, g.legal(p), |g.legal(p)|, TreeDefect(path, LossIncomplete)) else []
  }

  function NodeDefects(g: Rules, nodes: seq<ProofNode>, id: nat, p: Position, path: seq<Move>): (r: seq<TreeDefect>)
    requires Linked(nodes) && id < |nodes|
  {
    if !DecisiveOf(nodes, id) then [TreeDefect(path, NotDecisive)]
    else
      var n := nodes[id];
      (if n.hash != 0 && n.hash != g.hash(p) then [TreeDefect(path, HashMismatch)] else [])
      + if n.depth == 0 then (if g.terminal(p) != n.outcome then [TreeDefect(path, TerminalMismatch)] else [])
        else InteriorDefects(g, nodes, Children(nodes, id), n.outcome.value, p, path)
  }

  lemma {:induction false} WrongOutcomesEmpty(nodes: seq<ProofNode>, kids: seq<nat>, n: nat, want: Outcome,
          d: TreeDefect)
    requires Within(kids, 0, |nodes|) && n <= |kids|
    ensures |WrongOutcomes(nodes, kids, n, want, d)| == 0 <==>
        forall k :: 0 <= k < n ==> nodes[kids[k]].outcome == Some(want)
  {
    if n > 0 {
      WrongOutcomesEmpty(nodes, kids, n - 1, want, d);
    }
  }

  lemma {:induction false} IllegalMovesEmpty(nodes: seq<ProofNode>, kids: seq<nat>, i: nat, legal: seq<Move>,
          d: TreeDefect)
    requires Within(kids, 0, |nodes|) && i <= |kids|
    ensures |IllegalMoves(nodes, kids, i, legal, d)| == 0 <==>
        forall k :: i <= k < |kids| ==> nodes[kids[k]].mv in legal
    decreases |kids| - i
  {
    if i < |kids| {
      IllegalMovesEmpty(nodes, kids, i + 1, legal, d);
    }
  }

  lemma {:induction false} MissingRepliesEmpty(nodes: seq<ProofNode>, kids: seq<nat>, legal: seq<Move>, n: nat,
          d: TreeDefect)
    requires Within(kids, 0, |nodes|) && n <= |legal|
    ensures |MissingReplies(nodes, kids, legal, n, d)| == 0 <==>
        forall k :: 0 <= k < n ==> Replied(nodes, kids, legal[k])
  {
    if n > 0 {
      MissingRepliesEmpty(nodes, kids, legal, n - 1, d);
    }
  }

  lemma {:induction false} NodeDefectsIffLocalOk(g: Rules, nodes: seq<ProofNode>, id: nat, p: Position, path: seq<Move>)
    requires Linked(nodes) && id < |nodes|
    ensures |NodeDefects(g, nodes, id, p, path)| == 0 <==> LocalOk(g, nodes, id, p)
  {
    if DecisiveOf(nodes, id) && nodes[id].depth != 0 {
      var kids := Children(nodes, id);
      var o := nodes[id].outcome.value;
      WrongOutcomesEmpty(nodes, kids, |kids|, o.Flip(),
          TreeDefect(path, if o == Win then ChildNotLoss else ChildNotWin));
      IllegalMovesEmpty(nodes, kids, 0, g.legal(p), TreeDefect(path, IllegalChildMove));
      MissingRepliesEmpty(nodes, kids, g.legal(p), |g.legal(p)|, TreeDefect(path, LossIncomplete));
    }
  }

  /** The subtree was replayed completely, so its depth can be checked. */
  ghost predicate Full(g: Rules, nodes: seq<ProofNode>, id: nat, p: Position, onPath: set<nat>)
    requires Linked(nodes) && id < |nodes|
    decreases |nodes| - id
  {
    && DecisiveOf(nodes, id)
    && if nodes[id].depth == 0 then Children(nodes, id) == []
       else
         var kids := Children(nodes, id);
         forall k :: 0 <= k < |kids| ==>
           var q := g.play(p, nodes[kids[k]].mv);
           nodes[kids[k]].mv in g.legal(p) && g.hash(q) !in onPath && Full(g, nodes, kids[k], q, onPath + {g.hash(q)})
  }

  /** Every defect below `id`, in the order the validator finds them.  A depth defect is
      recorded after the node's own move was taken off the path, so it carries the path of
      the parent. */
  ghost function Report(g: Rules, nodes: seq<ProofNode>, id: nat, p: Position, path: seq<Move>,
          onPath: set<nat>): seq<TreeDefect>
    requires Linked(nodes) && id < |nodes|
    decreases |nodes| - id, 1, 0
  {
    NodeDefects(g, nodes, id, p, path)
    + Flat(KidReports(g, nodes, Descend(g, nodes, id, p), id + 1, p, path, onPath), 0)
    + if Full(g, nodes, id, p, onPath) && nodes[id].depth != Expected(nodes, id)
      then [TreeDefect(if path == [] then path else path[..|path| - 1], DepthInconsistent)] else []
  }

  ghost function KidReports(g: Rules, nodes: seq<ProofNode>, ids: seq<nat>, low: nat, p: Position, path: seq<Move>,
          onPath: set<nat>): seq<seq<TreeDefect>>
    requires Linked(nodes) && Within(ids, low, |nodes|)
    decreases |nodes| - low, 3, 0
  {
    seq(|ids|, k requires 0 <= k < |ids| => KidReport(g, nodes, ids[k], p, path, onPath))
  }

  ghost function KidReport(g: Rules, nodes: seq<ProofNode>, id: nat, p: Position, path: seq<Move>,
          onPath: set<nat>): seq<TreeDefect>
    requires Linked(nodes) && id < |nodes|
    decreases |nodes| - id, 2, 0
  {
    var q := g.play(p, nodes[id].mv);
    var here := path + [nodes[id].mv];
    if g.hash(q) in onPath then [TreeDefect(here, CycleLeaf)]
    else Report(g, nodes, id, q, here, onPath + {g.hash(q)})
  }

  /** On a clean subtree "replayed completely" is the arena property `Shaped`. */
  lemma {:induction false} FullIffShaped(g: Rules, nodes: seq<ProofNode>, id: nat, p: Position, onPath: set<nat>)
    requires Linked(nodes) && id < |nodes|
    requires LocalOk(g, nodes, id, p)
    requires nodes[id].depth > 0 ==> KidsClean(g, nodes, Children(nodes, id), id + 1, p, onPath)
    ensures Full(g, nodes, id, p, onPath) <==> Shaped(nodes, id)
    decreases |nodes| - id
  {
    if nodes[id].depth > 0 {
      var kids := Children(nodes, id);
      forall k | 0 <= k < |kids|
        ensures var q := g.play(p, nodes[kids[k]].mv);
                Full(g, nodes, kids[k], q, onPath + {g.hash(q)}) <==> Shaped(nodes, kids[k])
      {
        var q := g.play(p, nodes[kids[k]].mv);
        FullIffShaped(g, nodes, kids[k], q, onPath + {g.hash(q)});
      }
    }
  }

  lemma {:induction false} PlayableAll(nodes: seq<ProofNode>, kids: seq<nat>, i: nat, legal: seq<Move>)
    requires Within(kids, 0, |nodes|) && i <= |kids|
    requires forall k :: i <= k < |kids| ==> nodes[kids[k]].mv in legal
    ensures Playable(nodes, kids, i, legal) == kids[i..]
    decreases |kids| - i
  {
    if i < |kids| {
      PlayableAll(nodes, kids, i + 1, legal);
    }
  }

  /** The report is empty exactly on proofs. */
  lemma {:induction false} ReportEmptyIffClean(g: Rules, nodes: seq<ProofNode>, id: nat, p: Position, path: seq<Move>,
          onPath: set<nat>)
    requires Linked(nodes) && id < |nodes|
    ensures |Report(g, nodes, id, p, path, onPath)| == 0 <==> Clean(g, nodes, id, p, onPath)
    decreases |nodes| - id, 1, 0
  {
    NodeDefectsIffLocalOk(g, nodes, id, p, path);
    if LocalOk(g, nodes, id, p) {
      var ids := Descend(g, nodes, id, p);
      var kids := Children(nodes, id);
      if nodes[id].depth > 0 {
        PlayableAll(nodes, kids, 0, g.legal(p));
        assert ids == kids;
        KidsEmptyIffClean(g, nodes, kids, id + 1, p, path, onPath);
      } else {
        assert ids == [];
      }
      if nodes[id].depth > 0 ==> KidsClean(g, nodes, kids, id + 1, p, onPath) {
        FullIffShaped(g, nodes, id, p, onPath);
      }
    }
  }

  lemma {:induction false} KidsEmptyIffClean(g: Rules, nodes: seq<ProofNode>, kids: seq<nat>, low: nat, p: Position,
          path: seq<Move>, onPath: set<nat>)
    requires Linked(nodes) && Within(kids, low, |nodes|)
    ensures |Flat(KidReports(g, nodes, kids, low, p, path, onPath), 0)| == 0 <==>
        KidsClean(g, nodes, kids, low, p, onPath)
    decreases |nodes| - low, 2, 0
  {
    var below := KidReports(g, nodes, kids, low, p, path, onPath);
    FlatEmpty(below, 0);
    forall k | 0 <= k < |kids|
      ensures |below[k]| == 0 <==>
              var q := g.play(p, nodes[kids[k]].mv);
              g.hash(q) !in onPath && Clean(g, nodes, kids[k], q, onPath + {g.hash(q)})
    {
      assert below[k] == KidReport(g, nodes, kids[k], p, path, onPath);
      KidEmptyIffClean(g, nodes, kids[k], p, path, onPath);
    }
  }

  lemma {:induction false} KidEmptyIffClean(g: Rules, nodes: seq<ProofNode>, c: nat, p: Position, path: seq<Move>,
          onPath: set<nat>)
    requires Linked(nodes) && c < |nodes|
    ensures |KidReport(g, nodes, c, p, path, onPath)| == 0 <==>
            var q := g.play(p, nodes[c].mv);
            g.hash(q) !in onPath && Clean(g, nodes, c, q, onPath + {g.hash(q)})
    decreases |nodes| - c, 1, 1
  {
    var q := g.play(p, nodes[c].mv);
    if g.hash(q) !in onPath {
      ReportEmptyIffClean(g, nodes, c, q, path + [nodes[c].mv], onPath + {g.hash(q)});
    }
  }
}
