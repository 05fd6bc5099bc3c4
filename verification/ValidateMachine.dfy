/** The validator's own machine: frames on an explicit stack, one board, one path, one set of
    path hashes.  `Visit` is what the frames of one subtree do together; the method refines
    it, and `Visit` refines the recursive report. */
module ValidateMachine {
  import opened Game
  import opened Lists
  import opened Tree
  import opened Validate

  datatype Frame =
    | Enter(id: nat, mv: Move)
    | Exit(id: nat, mv: Move, hash: Option<nat>, checkDepth: bool)

  datatype State = State(
    cur: Position,
    undo: seq<Position>,
    path: seq<Move>,
    hashes: set<nat>,
    expected: seq<U32>,
    complete: seq<bool>,
    defects: seq<TreeDefect>)

  ghost predicate Fits(nodes: seq<ProofNode>, s: State)
  {
    |s.expected| == |s.complete| == |nodes| && |s.undo| == |s.path|
  }

  function BufferAt(expected: seq<U32>, kids: seq<nat>): (r: seq<U32>)
    requires Within(kids, 0, |expected|)
  {
    seq(|kids|, i requires 0 <= i < |kids| => expected[kids[i]])
  }

  function AllComplete(complete: seq<bool>, kids: seq<nat>): bool
    requires Within(kids, 0, |complete|)
  {
    forall k :: 0 <= k < |kids| ==> complete[kids[k]]
  }

  function DepthFrom(nodes: seq<ProofNode>, id: nat, expected: seq<U32>): U32
    requires Linked(nodes) && id < |nodes| && |expected| == |nodes|
  {
    var kids := Children(nodes, id);
    if kids == [] then 0 else ProvenDepth(nodes[id].outcome, BufferAt(expected, kids))
  }

  datatype Verdict = Verdict(flaw: seq<TreeDefect>, expected: seq<U32>, complete: seq<bool>)

  /** The two buffers and the defect after a node's depth was judged; `path` no longer has
      the node's own move. */
  function Judge(nodes: seq<ProofNode>, id: nat, checkDepth: bool, path: seq<Move>, expected: seq<U32>,
          complete: seq<bool>): (v: Verdict)
    requires Linked(nodes) && id < |nodes| && |expected| == |complete| == |nodes|
    ensures |v.expected| == |v.complete| == |nodes|
  {
    var whole := AllComplete(complete, Children(nodes, id));
    if checkDepth then
      var d := DepthFrom(nodes, id, expected);
      Verdict(if whole && nodes[id].depth != d then [TreeDefect(path, DepthInconsistent)] else [],
              expected[id := d], complete[id := whole])
    else Verdict([], expected, complete[id := false])
  }

  /** Leaving a node: take the move back, drop its hash, then judge the depth. */
  ghost function Leave(nodes: seq<ProofNode>, f: Frame, s: State): (r: State)
    requires Linked(nodes) && Fits(nodes, s) && f.Exit? && f.id < |nodes|
    ensures Fits(nodes, r)
  {
    var s1 := if f.mv == NO_MOVE || s.path == [] then s
              else s.(cur := s.undo[|s.undo| - 1], undo := Front(s.undo), path := Front(s.path),
                      hashes := if f.hash.Some? then s.hashes - {f.hash.value} else s.hashes);
    var v := Judge(nodes, f.id, f.checkDepth, s1.path, s.expected, s.complete);
    s1.(expected := v.expected, complete := v.complete, defects := s.defects + v.flaw)
  }

  /** Everything one Enter frame leads to, up to and including its Exit. */
  ghost function Visit(g: Rules, nodes: seq<ProofNode>, id: nat, s: State): (r: State)
    requires Linked(nodes) && id < |nodes| && Fits(nodes, s)
    ensures Fits(nodes, r)
    decreases |nodes| - id, 1, 0
  {
    if nodes[id].parent.None? then
      var s1 := s.(defects := s.defects + NodeDefects(g, nodes, id, s.cur, s.path));
      Leave(nodes, Exit(id, NO_MOVE, None, DecisiveOf(nodes, id)),
            VisitAll(g, nodes, Descend(g, nodes, id, s.cur), 0, id + 1, s1))
    else
      var mv := nodes[id].mv;
      var q := g.play(s.cur, mv);
      var here := s.path + [mv];
      if g.hash(q) in s.hashes then s.(defects := s.defects + [TreeDefect(here, CycleLeaf)])
      else
        var s1 := s.(cur := q, undo := s.undo + [s.cur], path := here, hashes := s.hashes + {g.hash(q)},
                     defects := s.defects + NodeDefects(g, nodes, id, q, here));
        Leave(nodes, Exit(id, mv, Some(g.hash(q)), DecisiveOf(nodes, id)),
              VisitAll(g, nodes, Descend(g, nodes, id, q), 0, id + 1, s1))
  }

  ghost function VisitAll(g: Rules, nodes: seq<ProofNode>, ids: seq<nat>, i: nat, low: nat, s: State): (r: State)
    requires Linked(nodes) && Within(ids, low, |nodes|) && i <= |ids| && Fits(nodes, s)
    ensures Fits(nodes, r)
    decreases |nodes| - low, 2, |ids| - i
  {
    if i == |ids| then s
    else VisitAll(g, nodes, ids, i + 1, low, Visit(g, nodes, ids[i], s))
  }

  ghost predicate StackOk(g: Rules, nodes: seq<ProofNode>, stack: seq<Frame>)
    requires Linked(nodes)
  {
    forall k :: 0 <= k < |stack| ==> FrameOk(nodes, stack[k])
  }

  ghost predicate FrameOk(nodes: seq<ProofNode>, f: Frame)
    requires Linked(nodes)
  {
    f.id < |nodes|
    && (f.Enter? ==> if nodes[f.id].parent.None? then f.mv == NO_MOVE else f.mv == nodes[f.id].mv != NO_MOVE)
  }

  /** What the whole stack still does, top frame (the last) first. */
  ghost function RunStack(g: Rules, nodes: seq<ProofNode>, stack: seq<Frame>, s: State): (r: State)
    requires Linked(nodes) && StackOk(g, nodes, stack) && Fits(nodes, s)
    ensures Fits(nodes, r)
    decreases |stack|
  {
    if stack == [] then s
    else
      var top := stack[|stack| - 1];
      assert FrameOk(nodes, top);
      RunStack(g, nodes, Front(stack),
               if top.Enter? then Visit(g, nodes, top.id, s) else Leave(nodes, top, s))
  }

  /** Enter frames for the ids from `i` on, pushed so that id `i` is on top. */
  function Frames(nodes: seq<ProofNode>, ids: seq<nat>, i: nat): (r: seq<Frame>)
    requires Within(ids, 0, |nodes|) && i <= |ids|
    decreases |ids| - i
  {
    if i == |ids| then [] else Frames(nodes, ids, i + 1) + [Enter(ids[i], nodes[ids[i]].mv)]
  }

  lemma {:induction false} RunFrames(g: Rules, nodes: seq<ProofNode>, base: seq<Frame>, ids: seq<nat>, i: nat, low: nat,
          s: State)
    requires Linked(nodes) && Within(ids, low, |nodes|) && i <= |ids| && Fits(nodes, s)
    requires StackOk(g, nodes, base) && StackOk(g, nodes, base + Frames(nodes, ids, i))
    ensures RunStack(g, nodes, base + Frames(nodes, ids, i), s) ==
              RunStack(g, nodes, base, VisitAll(g, nodes, ids, i, low, s))
    decreases |ids| - i
  {
    if i == |ids| {
      assert base + Frames(nodes, ids, i) == base;
    } else {
      var stack := base + Frames(nodes, ids, i);
      assert Front(stack) == base + Frames(nodes, ids, i + 1);
      assert stack[|stack| - 1] == Enter(ids[i], nodes[ids[i]].mv);
      RunFrames(g, nodes, base, ids, i + 1, low, Visit(g, nodes, ids[i], s));
    }
  }

  // ----- termination: frames weigh as much as the steps they cause -----

  ghost function StackWeight(g: Rules, nodes: seq<ProofNode>, stack: seq<Frame>): nat
    requires Linked(nodes) && StackOk(g, nodes, stack)
  {
    if stack == [] then 0
    else
      var top := stack[|stack| - 1];
      assert FrameOk(nodes, top);
      StackWeight(g, nodes, Front(stack)) + if top.Enter? then Weight(nodes, top.id) else 1
  }

  lemma {:induction false} FramesWeight(g: Rules, nodes: seq<ProofNode>, base: seq<Frame>, ids: seq<nat>, i: nat,
          low: nat)
    requires Linked(nodes) && Within(ids, low, |nodes|) && i <= |ids|
    requires StackOk(g, nodes, base) && StackOk(g, nodes, base + Frames(nodes, ids, i))
    ensures StackWeight(g, nodes, base + Frames(nodes, ids, i)) ==
              StackWeight(g, nodes, base) + WeightAll(nodes, ids, i, low)
    decreases |ids| - i
  {
    if i == |ids| {
      assert base + Frames(nodes, ids, i) == base;
    } else {
      var stack := base + Frames(nodes, ids, i);
      assert Front(stack) == base + Frames(nodes, ids, i + 1);
      assert stack[|stack| - 1] == Enter(ids[i], nodes[ids[i]].mv);
      FramesWeight(g, nodes, base, ids, i + 1, low);
    }
  }

  /** Dropping the first entries of a list that is a subsequence of another never weighs more. */
  lemma {:induction false} PlayableWeight(g: Rules, nodes: seq<ProofNode>, kids: seq<nat>, i: nat, legal: seq<Move>,
          all: seq<nat>, j: nat, low: nat)
    requires Linked(nodes) && Within(kids, low, |nodes|) && i <= |kids|
    requires Within(all, low, |nodes|) && j <= |all| && Playable(nodes, kids, i, legal) == all[j..]
    ensures WeightAll(nodes, all, j, low) <= WeightAll(nodes, kids, i, low)
    decreases |kids| - i
  {
    if i < |kids| {
      var rest := Playable(nodes, kids, i + 1, legal);
      if nodes[kids[i]].mv in legal {
        assert Playable(nodes, kids, i, legal) == [kids[i]] + rest;
        assert j < |all| && all[j] == kids[i] && all[j + 1..] == rest;
        PlayableWeight(g, nodes, kids, i + 1, legal, all, j + 1, low);
      } else {
        assert Playable(nodes, kids, i, legal) == rest;
        PlayableWeight(g, nodes, kids, i + 1, legal, all, j, low);
      }
    } else {
      assert j == |all|;
    }
  }

  lemma {:induction false} DescendWeight(g: Rules, nodes: seq<ProofNode>, id: nat, p: Position)
    requires Linked(nodes) && id < |nodes|
    ensures WeightAll(nodes, Descend(g, nodes, id, p), 0, id + 1) + 2 <= Weight(nodes, id)
  {
    if DecisiveOf(nodes, id) && nodes[id].depth != 0 {
      var ids := Descend(g, nodes, id, p);
      assert ids[0..] == ids;
      PlayableWeight(g, nodes, Children(nodes, id), 0, g.legal(p), ids, 0, id + 1);
    }
  }

  // ----- Visit refines Report -----

  ghost predicate Fresh(nodes: seq<ProofNode>, id: nat, complete: seq<bool>)
    requires Linked(nodes) && |complete| == |nodes|
  {
    forall j :: 0 <= j < |nodes| && Under(nodes, j, id) ==> !complete[j]
  }

  ghost predicate Outside(nodes: seq<ProofNode>, j: nat, ids: seq<nat>, i: nat)
    requires Linked(nodes) && j < |nodes|
  {
    forall k :: i <= k < |ids| ==> !Under(nodes, j, ids[k])
  }

  /** From `i` on: children of one parent, each a fresh subtree with a playable move. */
  ghost predicate ReadyAll(nodes: seq<ProofNode>, ids: seq<nat>, i: nat, parent: nat, complete: seq<bool>)
    requires Linked(nodes) && |complete| == |nodes|
  {
    && Within(ids, parent + 1, |nodes|) && Distinct(ids)
    && (forall k :: 0 <= k < |ids| ==> nodes[ids[k]].parent == Some(parent))
    && forall k :: i <= k < |ids| ==> Fresh(nodes, ids[k], complete) && nodes[ids[k]].mv != NO_MOVE
  }

  /** Board, path and hashes are as they were. */
  ghost predicate Restored(s: State, r: State)
  {
    r.cur == s.cur && r.undo == s.undo && r.path == s.path && r.hashes == s.hashes
  }

  /** What the two arrays say about `id`, a child of the node replayed at `p`. */
  ghost predicate Judged(g: Rules, nodes: seq<ProofNode>, id: nat, p: Position, onPath: set<nat>, r: State)
    requires Linked(nodes) && id < |nodes| && Fits(nodes, r)
  {
    var q := g.play(p, nodes[id].mv);
    && (r.complete[id] <==> g.hash(q) !in onPath && Full(g, nodes, id, q, onPath + {g.hash(q)}))
    && (r.complete[id] ==> r.expected[id] == Expected(nodes, id))
  }

  ghost predicate Untouched(nodes: seq<ProofNode>, ids: seq<nat>, i: nat, s: State, r: State)
    requires Linked(nodes) && Fits(nodes, s) && Fits(nodes, r)
  {
    forall j :: 0 <= j < |nodes| && Outside(nodes, j, ids, i) ==>
      r.expected[j] == s.expected[j] && r.complete[j] == s.complete[j]
  }

  ghost function ReportAll(g: Rules, nodes: seq<ProofNode>, ids: seq<nat>, i: nat, low: nat, p: Position,
          path: seq<Move>, onPath: set<nat>): seq<TreeDefect>
    requires Linked(nodes) && Within(ids, low, |nodes|) && i <= |ids|
  {
    Flat(KidReports(g, nodes, ids, low, p, path, onPath), i)
  }

  /** What one subtree does to the machine's state. */
  ghost predicate VisitSpec(g: Rules, nodes: seq<ProofNode>, id: nat, s: State, r: State)
    requires Linked(nodes) && id < |nodes| && Fits(nodes, s) && Fits(nodes, r)
  {
    && Restored(s, r) && Untouched(nodes, [id], 0, s, r)
    && r.defects == s.defects + KidReport(g, nodes, id, s.cur, s.path, s.hashes)
    && Judged(g, nodes, id, s.cur, s.hashes, r)
  }

  ghost predicate VisitAllSpec(g: Rules, nodes: seq<ProofNode>, ids: seq<nat>, i: nat, low: nat, s: State, r: State)
    requires Linked(nodes) && Within(ids, low, |nodes|) && i <= |ids| && Fits(nodes, s) && Fits(nodes, r)
  {
    && Restored(s, r) && Untouched(nodes, ids, i, s, r)
    && r.defects == s.defects + ReportAll(g, nodes, ids, i, low, s.cur, s.path, s.hashes)
    && forall k :: i <= k < |ids| ==> Judged(g, nodes, ids[k], s.cur, s.hashes, r)
  }

  /** The machine's moves over one subtree are exactly undone, and it appends the report. */
  lemma {:induction false} VisitReports(g: Rules, nodes: seq<ProofNode>, id: nat, s: State)
    requires Linked(nodes) && 0 < id < |nodes| && Fits(nodes, s) && Fresh(nodes, id, s.complete)
    requires nodes[id].mv != NO_MOVE && g.Sane()
    ensures VisitSpec(g, nodes, id, s, Visit(g, nodes, id, s))
    decreases |nodes| - id, 1, 0
  {
    var q := g.play(s.cur, nodes[id].mv);
    assert NodeLinked(nodes, id);
    if g.hash(q) in s.hashes {
      assert Under(nodes, id, id);
    } else {
      var here := s.path + [nodes[id].mv];
      var s1 := s.(cur := q, undo := s.undo + [s.cur], path := here, hashes := s.hashes + {g.hash(q)},
                   defects := s.defects + NodeDefects(g, nodes, id, q, here));
      DescendReady(g, nodes, id, q, s.complete);
      VisitAllReports(g, nodes, Descend(g, nodes, id, q), 0, id, s1);
      VisitUnfold(g, nodes, id, q, s, s1);
      LeaveSpec(g, nodes, id, q, s, s1, VisitAll(g, nodes, Descend(g, nodes, id, q), 0, id + 1, s1));
    }
  }

  lemma {:induction false} LeaveSpec(g: Rules, nodes: seq<ProofNode>, id: nat, q: Position, s: State, s1: State,
          s2: State)
    requires Linked(nodes) && 0 < id < |nodes| && Fits(nodes, s) && Fits(nodes, s1) && Fits(nodes, s2)
    requires nodes[id].mv != NO_MOVE && Fresh(nodes, id, s.complete) && q == g.play(s.cur, nodes[id].mv)
             && g.hash(q) !in s.hashes
    requires s1 ==
               s.(cur := q, undo := s.undo + [s.cur], path := s.path + [nodes[id].mv], hashes := s.hashes + {g.hash(q)},
                      defects := s.defects + NodeDefects(g, nodes, id, q, s.path + [nodes[id].mv]))
    requires VisitAllSpec(g, nodes, Descend(g, nodes, id, q), 0, id + 1, s1, s2)
    ensures VisitSpec(g, nodes, id, s, Leave(nodes, Exit(id, nodes[id].mv, Some(g.hash(q)), DecisiveOf(nodes, id)), s2))
  {
    var here := s.path + [nodes[id].mv];
    LeaveReports(g, nodes, id, q, g.hash(q), s, s1, s2);
    ReportUnfold(g, nodes, id, q, here, s1.hashes);
    assert here[..|here| - 1] == s.path;
    var own := NodeDefects(g, nodes, id, q, here);
    var below := ReportAll(g, nodes, Descend(g, nodes, id, q), 0, id + 1, q, here, s1.hashes);
    var last := DepthDefect(g, nodes, id, q, s.path, s1.hashes);
    Assoc(s.defects, own, below);
    Assoc(s.defects, own + below, last);
  }

  lemma {:induction false} VisitUnfold(g: Rules, nodes: seq<ProofNode>, id: nat, q: Position, s: State, s1: State)
    requires Linked(nodes) && id < |nodes| && nodes[id].parent.Some? && Fits(nodes, s)
             && q == g.play(s.cur, nodes[id].mv) && g.hash(q) !in s.hashes
    requires s1 ==
               s.(cur := q, undo := s.undo + [s.cur], path := s.path + [nodes[id].mv], hashes := s.hashes + {g.hash(q)},
                      defects := s.defects + NodeDefects(g, nodes, id, q, s.path + [nodes[id].mv]))
    ensures Visit(g, nodes, id, s) == Leave(nodes, Exit(id, nodes[id].mv, Some(g.hash(q)), DecisiveOf(nodes, id)),
                                            VisitAll(g, nodes, Descend(g, nodes, id, q), 0, id + 1, s1))
  {
  }

  ghost function DepthDefect(g: Rules, nodes: seq<ProofNode>, id: nat, q: Position, path: seq<Move>,
          onPath: set<nat>): seq<TreeDefect>
    requires Linked(nodes) && id < |nodes|
  {
    if Full(g, nodes, id, q, onPath) && nodes[id].depth != Expected(nodes, id)
    then [TreeDefect(path, DepthInconsistent)]
    else []
  }

  lemma {:induction false} ReportUnfold(g: Rules, nodes: seq<ProofNode>, id: nat, q: Position, here: seq<Move>,
          onPath: set<nat>)
    requires Linked(nodes) && id < |nodes|
    ensures Report(g, nodes, id, q, here, onPath)
         == NodeDefects(g, nodes, id, q, here) + ReportAll(g, nodes, Descend(g, nodes, id, q), 0, id + 1, q, here,
             onPath)
            + DepthDefect(g, nodes, id, q, Front(here), onPath)
  {
  }

  lemma {:induction false} LeaveReports(g: Rules, nodes: seq<ProofNode>, id: nat, q: Position, h: nat, s: State,
          s1: State, s2: State)
    requires Linked(nodes) && 0 < id < |nodes| && Fits(nodes, s) && Fits(nodes, s1) && Fits(nodes, s2)
    requires nodes[id].mv != NO_MOVE && Fresh(nodes, id, s.complete) && h !in s.hashes
    requires s1.cur == q && s1.undo == s.undo + [s.cur] && s1.path == s.path + [nodes[id].mv]
             && s1.hashes == s.hashes + {h}
    requires s1.expected == s.expected && s1.complete == s.complete
    requires VisitAllSpec(g, nodes, Descend(g, nodes, id, q), 0, id + 1, s1, s2)
    ensures var r := Leave(nodes, Exit(id, nodes[id].mv, Some(h), DecisiveOf(nodes, id)), s2);
            && Restored(s, r) && Untouched(nodes, [id], 0, s, r)
            && r.defects == s2.defects + DepthDefect(g, nodes, id, q, s.path, s1.hashes)
            && (r.complete[id] <==> Full(g, nodes, id, q, s1.hashes))
            && (r.complete[id] ==> r.expected[id] == Expected(nodes, id))
  {
    LeaveFacts(g, nodes, id, q, s1, s2);
    LeaveUntouched(nodes, id, Descend(g, nodes, id, q), s1, s2);
    LeaveEffect(nodes, id, nodes[id].mv, h, DecisiveOf(nodes, id), s, q, s2, Full(g, nodes, id, q, s1.hashes),
        Expected(nodes, id));
  }

  /** `Leave` on its own: the board goes back, and the verdict on the node is written. */
  lemma {:induction false} LeaveEffect(nodes: seq<ProofNode>, id: nat, mv: Move, h: nat, decisive: bool, s: State,
          q: Position, s2: State, full: bool, depth: U32)
    requires Linked(nodes) && id < |nodes| && Fits(nodes, s) && Fits(nodes, s2) && mv != NO_MOVE && h !in s.hashes
    requires s2.cur == q && s2.undo == s.undo + [s.cur] && s2.path == s.path + [mv] && s2.hashes == s.hashes + {h}
    requires full ==> decisive
    requires decisive ==> (AllComplete(s2.complete, Children(nodes, id)) <==> full)
    requires full ==> DepthFrom(nodes, id, s2.expected) == depth
    requires forall j :: 0 <= j < |nodes| && !Under(nodes, j, id) ==>
               s2.expected[j] == s.expected[j] && s2.complete[j] == s.complete[j]
    ensures var r := Leave(nodes, Exit(id, mv, Some(h), decisive), s2);
            && Restored(s, r) && Untouched(nodes, [id], 0, s, r)
            && (r.complete[id] <==> full)
            && (full ==> r.expected[id] == depth)
            && r.defects ==
                 s2.defects + (if full && nodes[id].depth != depth then [TreeDefect(s.path, DepthInconsistent)] else [])
  {
    assert s2.hashes - {h} == s.hashes;
    assert Front(s2.path) == s.path && Front(s2.undo) == s.undo;
    var r := Leave(nodes, Exit(id, mv, Some(h), decisive), s2);
    forall j | 0 <= j < |nodes| && Outside(nodes, j, [id], 0)
      ensures r.expected[j] == s.expected[j] && r.complete[j] == s.complete[j]
    {
      assert !Under(nodes, j, [id][0]) && j != id;
    }
  }

  lemma {:induction false} LeaveUntouched(nodes: seq<ProofNode>, id: nat, ids: seq<nat>, s1: State, s2: State)
    requires Linked(nodes) && id < |nodes| && Fits(nodes, s1) && Fits(nodes, s2)
    requires Within(ids, id + 1, |nodes|) && forall k :: 0 <= k < |ids| ==> nodes[ids[k]].parent == Some(id)
    requires Untouched(nodes, ids, 0, s1, s2)
    ensures forall j :: 0 <= j < |nodes| && !Under(nodes, j, id) ==>
              s2.expected[j] == s1.expected[j] && s2.complete[j] == s1.complete[j]
  {
    forall j | 0 <= j < |nodes| && !Under(nodes, j, id)
      ensures s2.expected[j] == s1.expected[j] && s2.complete[j] == s1.complete[j]
    {
      forall k | 0 <= k < |ids|
        ensures !Under(nodes, j, ids[k])
      {
        if Under(nodes, j, ids[k]) {
          UnderParent(nodes, j, ids[k]);
        }
      }
      assert Outside(nodes, j, ids, 0);
    }
  }

  lemma {:induction false} DescendReady(g: Rules, nodes: seq<ProofNode>, id: nat, q: Position, complete: seq<bool>)
    requires Linked(nodes) && id < |nodes| && |complete| == |nodes| && Fresh(nodes, id, complete) && g.Sane()
    ensures ReadyAll(nodes, Descend(g, nodes, id, q), 0, id, complete)
  {
    var ids := Descend(g, nodes, id, q);
    forall k | 0 <= k < |ids|
      ensures Fresh(nodes, ids[k], complete) && nodes[ids[k]].mv != NO_MOVE
    {
      forall j | 0 <= j < |nodes| && Under(nodes, j, ids[k])
        ensures !complete[j]
      {
        UnderParent(nodes, j, ids[k]);
      }
    }
    if DecisiveOf(nodes, id) && nodes[id].depth != 0 {
      ChildrenDescending(nodes, id);
      PlayableDescending(nodes, Children(nodes, id), 0, g.legal(q));
    }
  }

  ghost predicate Below(ids: seq<nat>, high: nat)
  {
    forall k :: 0 <= k < |ids| ==> ids[k] < high
  }

  lemma {:induction false} DescendingCons(c: nat, rest: seq<nat>)
    requires Descending(rest) && Below(rest, c)
    ensures Descending([c] + rest) && Below([c] + rest, c + 1)
  {
  }

  lemma {:induction false} PlayableDescending(nodes: seq<ProofNode>, kids: seq<nat>, i: nat, legal: seq<Move>)
    requires Within(kids, 0, |nodes|) && i <= |kids| && Descending(kids)
    ensures var r := Playable(nodes, kids, i, legal);
            Descending(r) && (i < |kids| ==> Below(r, kids[i] + 1)) && (i == |kids| ==> r == [])
    decreases |kids| - i
  {
    if i < |kids| {
      PlayableDescending(nodes, kids, i + 1, legal);
      var rest := Playable(nodes, kids, i + 1, legal);
      assert Below(rest, kids[i]) by {
        if i + 1 < |kids| {
          assert kids[i + 1] < kids[i];
        }
      }
      if nodes[kids[i]].mv in legal {
        DescendingCons(kids[i], rest);
      }
    }
  }

  /** After the children are done, what `Leave` reads off the two arrays. */
  lemma {:induction false} LeaveFacts(g: Rules, nodes: seq<ProofNode>, id: nat, q: Position, s1: State, s2: State)
    requires Linked(nodes) && id < |nodes| && Fits(nodes, s1) && Fits(nodes, s2) && Fresh(nodes, id, s1.complete)
    requires s1.cur == q && VisitAllSpec(g, nodes, Descend(g, nodes, id, q), 0, id + 1, s1, s2)
    ensures DecisiveOf(nodes, id) ==>
        (AllComplete(s2.complete, Children(nodes, id)) <==> Full(g, nodes, id, q, s1.hashes))
    ensures Full(g, nodes, id, q, s1.hashes) ==> DepthFrom(nodes, id, s2.expected) == Expected(nodes, id)
  {
    var kids := Children(nodes, id);
    if DecisiveOf(nodes, id) {
      forall k | 0 <= k < |kids|
        ensures s2.complete[kids[k]] <==> ChildFull(g, nodes, id, k, q, s1.hashes)
        ensures s2.complete[kids[k]] ==> s2.expected[kids[k]] == Expected(nodes, kids[k])
      {
        ChildFacts(g, nodes, id, k, q, s1, s2);
      }
      FullUnfold(g, nodes, id, q, s1.hashes);
      if AllComplete(s2.complete, kids) {
        SameDepth(nodes, id, s2.expected);
      }
    }
  }

  ghost predicate ChildFull(g: Rules, nodes: seq<ProofNode>, id: nat, k: nat, q: Position, onPath: set<nat>)
    requires Linked(nodes) && id < |nodes| && k < |Children(nodes, id)|
  {
    var c := Children(nodes, id)[k];
    var q' := g.play(q, nodes[c].mv);
    nodes[id].depth != 0 && nodes[c].mv in g.legal(q) && g.hash(q') !in onPath
    && Full(g, nodes, c, q', onPath + {g.hash(q')})
  }

  lemma {:induction false} FullUnfold(g: Rules, nodes: seq<ProofNode>, id: nat, q: Position, onPath: set<nat>)
    requires Linked(nodes) && id < |nodes| && DecisiveOf(nodes, id)
    ensures Full(g, nodes, id, q, onPath) <==>
        forall k :: 0 <= k < |Children(nodes, id)| ==> ChildFull(g, nodes, id, k, q, onPath)
  {
    var kids := Children(nodes, id);
    if nodes[id].depth == 0 {
      assert kids != [] ==> !ChildFull(g, nodes, id, 0, q, onPath);
    } else {
      assert forall k :: 0 <= k < |kids| ==>
          (ChildFull(g, nodes, id, k, q, onPath) <==>
           var q' := g.play(q, nodes[kids[k]].mv);
           nodes[kids[k]].mv in g.legal(q) && g.hash(q') !in onPath
           && Full(g, nodes, kids[k], q', onPath + {g.hash(q')}));
    }
  }

  lemma {:induction false} SameDepth(nodes: seq<ProofNode>, id: nat, expected: seq<U32>)
    requires Linked(nodes) && id < |nodes| && |expected| == |nodes|
    requires var kids := Children(nodes, id);
             forall k :: 0 <= k < |kids| ==> expected[kids[k]] == Expected(nodes, kids[k])
    ensures DepthFrom(nodes, id, expected) == Expected(nodes, id)
  {
    var kids := Children(nodes, id);
    var b := seq(|kids|, i requires 0 <= i < |kids| => Expected(nodes, kids[i]));
    assert BufferAt(expected, kids) == b;
  }

  lemma {:induction false} PlayableHas(nodes: seq<ProofNode>, kids: seq<nat>, i: nat, legal: seq<Move>, k: nat)
    returns (j: nat)
    requires Within(kids, 0, |nodes|) && i <= k < |kids| && nodes[kids[k]].mv in legal
    ensures j < |Playable(nodes, kids, i, legal)| && Playable(nodes, kids, i, legal)[j] == kids[k]
    decreases |kids| - i
  {
    if i == k {
      j := 0;
    } else {
      j := PlayableHas(nodes, kids, i + 1, legal, k);
      var rest := Playable(nodes, kids, i + 1, legal);
      var here := if nodes[kids[i]].mv in legal then [kids[i]] else [];
      assert (here + rest)[|here| + j] == rest[j];
      j := |here| + j;
    }
  }

  lemma {:induction false} ChildFacts(g: Rules, nodes: seq<ProofNode>, id: nat, k: nat, q: Position, s1: State,
          s2: State)
    requires Linked(nodes) && id < |nodes| && Fits(nodes, s1) && Fits(nodes, s2) && Fresh(nodes, id, s1.complete)
    requires k < |Children(nodes, id)| && DecisiveOf(nodes, id)
    requires s1.cur == q && VisitAllSpec(g, nodes, Descend(g, nodes, id, q), 0, id + 1, s1, s2)
    ensures var c := Children(nodes, id)[k];
            && (s2.complete[c] <==> ChildFull(g, nodes, id, k, q, s1.hashes))
            && (s2.complete[c] ==> s2.expected[c] == Expected(nodes, c))
  {
    var ids := Descend(g, nodes, id, q);
    var kids := Children(nodes, id);
    var c := kids[k];
    assert NodeLinked(nodes, c) && c in kids;
    if nodes[id].depth != 0 && nodes[c].mv in g.legal(q) {
      var j := PlayableHas(nodes, kids, 0, g.legal(q), k);
      assert Judged(g, nodes, ids[j], q, s1.hashes, s2);
    } else {
      forall i | 0 <= i < |ids|
        ensures !Under(nodes, c, ids[i])
      {
        SiblingsDisjoint(nodes, c, c, ids[i]);
      }
      assert Outside(nodes, c, ids, 0);
      assert Under(nodes, id, id) && Under(nodes, c, id);
    }
  }

  lemma {:induction false} VisitAllReports(g: Rules, nodes: seq<ProofNode>, ids: seq<nat>, i: nat, parent: nat,
          s: State)
    requires Linked(nodes) && parent < |nodes| && Fits(nodes, s) && g.Sane() && i <= |ids|
    requires ReadyAll(nodes, ids, i, parent, s.complete)
    ensures VisitAllSpec(g, nodes, ids, i, parent + 1, s, VisitAll(g, nodes, ids, i, parent + 1, s))
    decreases |nodes| - (parent + 1), 2, |ids| - i
  {
    if i < |ids| {
      VisitReports(g, nodes, ids[i], s);
      var s1 := Visit(g, nodes, ids[i], s);
      RestReady(nodes, ids, i, parent, s, s1);
      VisitAllReports(g, nodes, ids, i + 1, parent, s1);
      RestSpec(g, nodes, ids, i, parent, s, s1, VisitAll(g, nodes, ids, i + 1, parent + 1, s1));
    }
  }

  lemma {:induction false} RestSpec(g: Rules, nodes: seq<ProofNode>, ids: seq<nat>, i: nat, parent: nat, s: State,
          s1: State, r: State)
    requires Linked(nodes) && parent < |nodes| && Fits(nodes, s) && Fits(nodes, s1) && Fits(nodes, r) && i < |ids|
    requires ReadyAll(nodes, ids, i, parent, s.complete)
    requires VisitSpec(g, nodes, ids[i], s, s1)
    requires VisitAllSpec(g, nodes, ids, i + 1, parent + 1, s1, r)
    ensures VisitAllSpec(g, nodes, ids, i, parent + 1, s, r)
  {
    RestUntouched(nodes, ids, i, parent, s, s1, r);
    Assoc(s.defects, KidReport(g, nodes, ids[i], s.cur, s.path, s.hashes),
          ReportAll(g, nodes, ids, i + 1, parent + 1, s.cur, s.path, s.hashes));
  }

  lemma {:induction false} RestReady(nodes: seq<ProofNode>, ids: seq<nat>, i: nat, parent: nat, s: State, s1: State)
    requires Linked(nodes) && Fits(nodes, s) && Fits(nodes, s1) && i < |ids|
    requires ReadyAll(nodes, ids, i, parent, s.complete) && Untouched(nodes, [ids[i]], 0, s, s1)
    ensures ReadyAll(nodes, ids, i + 1, parent, s1.complete)
  {
    forall k | i + 1 <= k < |ids|
      ensures Fresh(nodes, ids[k], s1.complete)
    {
      forall j | 0 <= j < |nodes| && Under(nodes, j, ids[k])
        ensures !s1.complete[j]
      {
        SiblingsDisjoint(nodes, j, ids[k], ids[i]);
        assert Outside(nodes, j, [ids[i]], 0);
      }
    }
  }

  lemma {:induction false} RestUntouched(nodes: seq<ProofNode>, ids: seq<nat>, i: nat, parent: nat, s: State, s1: State,
          r: State)
    requires Linked(nodes) && Fits(nodes, s) && Fits(nodes, s1) && Fits(nodes, r) && i < |ids|
    requires ReadyAll(nodes, ids, i, parent, s.complete)
    requires Untouched(nodes, [ids[i]], 0, s, s1) && Untouched(nodes, ids, i + 1, s1, r)
    ensures Untouched(nodes, ids, i, s, r)
    ensures r.expected[ids[i]] == s1.expected[ids[i]] && r.complete[ids[i]] == s1.complete[ids[i]]
  {
    forall j | 0 <= j < |nodes| && Outside(nodes, j, ids, i)
      ensures r.expected[j] == s.expected[j] && r.complete[j] == s.complete[j]
    {
      assert Outside(nodes, j, ids, i + 1);
      assert !Under(nodes, j, ids[i]);
      assert Outside(nodes, j, [ids[i]], 0);
    }
    forall k | i + 1 <= k < |ids|
      ensures !Under(nodes, ids[i], ids[k])
    {
      SiblingsDisjoint(nodes, ids[i], ids[i], ids[k]);
    }
    assert Outside(nodes, ids[i], ids, i + 1);
  }

  function Start(p: Position, nodes: seq<ProofNode>): State
  {
    State(p, [], [], {}, seq(|nodes|, _ => 0), seq(|nodes|, _ => false), [])
  }

  /** From a fresh start the machine reports exactly the recursive report and ends with the
      board back at the root. */
  lemma {:induction false} RootReports(g: Rules, nodes: seq<ProofNode>, p: Position, root: nat)
    requires Linked(nodes) && g.Sane() && root < |nodes| && nodes[root].parent.None?
    ensures var r := Visit(g, nodes, root, Start(p, nodes));
            r.defects == Report(g, nodes, root, p, [], {}) && Restored(Start(p, nodes), r)
  {
    hide Visit, VisitAll, Report, Leave, Descend, NodeDefects;
    var s := Start(p, nodes);
    var own := NodeDefects(g, nodes, root, p, []);
    var s1 := s.(defects := own);
    RootUnfold(g, nodes, root, s, s1);
    var ids := Descend(g, nodes, root, p);
    var s2 := VisitAll(g, nodes, ids, 0, root + 1, s1);
    assert Fresh(nodes, root, s1.complete) && VisitAllSpec(g, nodes, ids, 0, root + 1, s1, s2) by {
      NothingDone(nodes, root, s.complete);
      DescendReady(g, nodes, root, p, s.complete);
      VisitAllReports(g, nodes, ids, 0, root, s1);
    }
    RootLeave(g, nodes, p, root, s1, s2);
  }

  lemma {:induction false} RootUnfold(g: Rules, nodes: seq<ProofNode>, root: nat, s: State, s1: State)
    requires Linked(nodes) && root < |nodes| && nodes[root].parent.None? && Fits(nodes, s) && s.defects == []
    requires s1 == s.(defects := NodeDefects(g, nodes, root, s.cur, s.path))
    ensures Visit(g, nodes, root, s) == Leave(nodes, Exit(root, NO_MOVE, None, DecisiveOf(nodes, root)),
                                              VisitAll(g, nodes, Descend(g, nodes, root, s.cur), 0, root + 1, s1))
  {
    assert s.defects + NodeDefects(g, nodes, root, s.cur, s.path) == s1.defects;
  }

  lemma {:induction false} NothingDone(nodes: seq<ProofNode>, root: nat, complete: seq<bool>)
    requires Linked(nodes) && |complete| == |nodes| && forall j :: 0 <= j < |complete| ==> !complete[j]
    ensures Fresh(nodes, root, complete)
  {
  }

  lemma {:induction false} RootLeave(g: Rules, nodes: seq<ProofNode>, p: Position, root: nat, s1: State, s2: State)
    requires Linked(nodes) && Fits(nodes, s1) && Fits(nodes, s2) && Fresh(nodes, root, s1.complete) && root < |nodes|
    requires s1.cur == p && s1.path == [] && s1.hashes == {}
    requires VisitAllSpec(g, nodes, Descend(g, nodes, root, p), 0, root + 1, s1, s2)
    requires s1.defects == NodeDefects(g, nodes, root, p, [])
    ensures var r := Leave(nodes, Exit(root, NO_MOVE, None, DecisiveOf(nodes, root)), s2);
            r.defects == Report(g, nodes, root, p, [], {}) && Restored(s1, r)
  {
    LeaveFacts(g, nodes, root, p, s1, s2);
    ReportUnfold(g, nodes, root, p, [], {});
  }

  /** Exit frames on the stack that will take a move back. */
  function MovesOut(stack: seq<Frame>): nat
  {
    if stack == [] then 0
    else MovesOut(Front(stack)) + if stack[|stack| - 1].Exit? && stack[|stack| - 1].mv != NO_MOVE then 1 else 0
  }

  lemma {:induction false} MovesOutPush(stack: seq<Frame>, f: Frame)
    ensures MovesOut(stack + [f]) == MovesOut(stack) + if f.Exit? && f.mv != NO_MOVE then 1 else 0
  {
    assert Front(stack + [f]) == stack;
  }

  // ----- the frames and what is left to do -----

  lemma {:induction false} StackOkAppend(g: Rules, nodes: seq<ProofNode>, a: seq<Frame>, b: seq<Frame>)
    requires Linked(nodes) && StackOk(g, nodes, a) && StackOk(g, nodes, b)
    ensures StackOk(g, nodes, a + b)
  {
    forall k | 0 <= k < |a + b|
      ensures FrameOk(nodes, (a + b)[k])
    {
      if k < |a| {
        assert FrameOk(nodes, a[k]);
      } else {
        assert FrameOk(nodes, b[k - |a|]);
      }
    }
  }

  lemma {:induction false} FramesOk(g: Rules, nodes: seq<ProofNode>, base: seq<Frame>, ids: seq<nat>, i: nat)
    requires Linked(nodes) && Within(ids, 0, |nodes|) && i <= |ids|
    requires forall k :: 0 <= k < |ids| ==> nodes[ids[k]].mv != NO_MOVE && nodes[ids[k]].parent.Some?
    ensures StackOk(g, nodes, Frames(nodes, ids, i))
    ensures MovesOut(base + Frames(nodes, ids, i)) == MovesOut(base)
    decreases |ids| - i
  {
    if i < |ids| {
      FramesOk(g, nodes, base, ids, i + 1);
      var e := Enter(ids[i], nodes[ids[i]].mv);
      assert StackOk(g, nodes, [e]);
      StackOkAppend(g, nodes, Frames(nodes, ids, i + 1), [e]);
      assert Front(base + Frames(nodes, ids, i)) == base + Frames(nodes, ids, i + 1);
    } else {
      assert base + Frames(nodes, ids, i) == base;
    }
  }

  lemma {:induction false} RunExit(g: Rules, nodes: seq<ProofNode>, base: seq<Frame>, exit: Frame, s: State)
    requires Linked(nodes) && StackOk(g, nodes, base) && Fits(nodes, s)
    requires exit.Exit? && exit.id < |nodes| && StackOk(g, nodes, base + [exit])
    ensures RunStack(g, nodes, base + [exit], s) == RunStack(g, nodes, base, Leave(nodes, exit, s))
    ensures StackWeight(g, nodes, base + [exit]) == StackWeight(g, nodes, base) + 1
  {
    assert Front(base + [exit]) == base;
  }

  lemma {:induction false} RunEnter(g: Rules, nodes: seq<ProofNode>, stack: seq<Frame>, s: State)
    requires Linked(nodes) && StackOk(g, nodes, stack) && Fits(nodes, s) && |stack| == 1 && stack[0].Enter?
    ensures RunStack(g, nodes, stack, s) == (assert FrameOk(nodes, stack[0]); Visit(g, nodes, stack[0].id, s))
  {
    assert FrameOk(nodes, stack[0]);
    assert Front(stack) == [];
  }

  ghost function Entered(g: Rules, nodes: seq<ProofNode>, base: seq<Frame>, exit: Frame, q: Position): seq<Frame>
    requires Linked(nodes) && exit.id < |nodes|
  {
    base + [exit] + Frames(nodes, Descend(g, nodes, exit.id, q), 0)
  }

  lemma {:induction false} EnteredOk(g: Rules, nodes: seq<ProofNode>, base: seq<Frame>, exit: Frame, q: Position)
    requires Linked(nodes) && g.Sane() && StackOk(g, nodes, base) && exit.Exit? && exit.id < |nodes|
    ensures StackOk(g, nodes, base + [exit]) && StackOk(g, nodes, Entered(g, nodes, base, exit, q))
    ensures MovesOut(Entered(g, nodes, base, exit, q)) == MovesOut(base) + if exit.mv != NO_MOVE then 1 else 0
  {
    var ids := Descend(g, nodes, exit.id, q);
    var mid := base + [exit];
    assert StackOk(g, nodes, [exit]);
    StackOkAppend(g, nodes, base, [exit]);
    FramesOk(g, nodes, mid, ids, 0);
    StackOkAppend(g, nodes, mid, Frames(nodes, ids, 0));
    MovesOutPush(base, exit);
  }

  lemma {:induction false} EnteredWeight(g: Rules, nodes: seq<ProofNode>, base: seq<Frame>, exit: Frame, q: Position,
          s: State)
    requires Linked(nodes) && StackOk(g, nodes, base) && exit.Exit? && exit.id < |nodes| && Fits(nodes, s)
    requires StackOk(g, nodes, base + [exit]) && StackOk(g, nodes, Entered(g, nodes, base, exit, q))
    ensures StackWeight(g, nodes, Entered(g, nodes, base, exit, q))
            < StackWeight(g, nodes, base) + Weight(nodes, exit.id)
  {
    hide StackOk, StackWeight, Weight, WeightAll, RunStack, Fits, Descend, Frames;
    FramesWeight(g, nodes, base + [exit], Descend(g, nodes, exit.id, q), 0, exit.id + 1);
    RunExit(g, nodes, base, exit, s);
    DescendWeight(g, nodes, exit.id, q);
  }

  /** An Exit with Enter frames for the children above it does what the children and then the
      Exit do. */
  lemma {:induction false} EnteredRun(g: Rules, nodes: seq<ProofNode>, base: seq<Frame>, exit: Frame, q: Position,
          s1: State)
    requires Linked(nodes) && StackOk(g, nodes, base) && exit.Exit? && exit.id < |nodes| && Fits(nodes, s1)
    requires StackOk(g, nodes, base + [exit]) && StackOk(g, nodes, Entered(g, nodes, base, exit, q))
    ensures RunStack(g, nodes, Entered(g, nodes, base, exit, q), s1)
         == RunStack(g, nodes, base + [exit], VisitAll(g, nodes, Descend(g, nodes, exit.id, q), 0, exit.id + 1, s1))
  {
    hide RunStack, VisitAll, StackOk, Descend;
    RunFrames(g, nodes, base + [exit], Descend(g, nodes, exit.id, q), 0, exit.id + 1, s1);
  }

  /** Replacing the Enter frame on top by its Exit and the children's Enters is progress and
      changes nothing of what the stack will do. */
  lemma {:induction false} EnterReplaced(g: Rules, nodes: seq<ProofNode>, full: seq<Frame>, exit: Frame, q: Position,
          s: State, s1: State)
    requires Linked(nodes) && g.Sane() && full != [] && StackOk(g, nodes, full) && Fits(nodes, s) && Fits(nodes, s1)
    requires exit.Exit? && exit.id < |nodes| && full[|full| - 1] == Enter(exit.id, exit.mv)
    requires Visit(g, nodes, exit.id, s) ==
               Leave(nodes, exit, VisitAll(g, nodes, Descend(g, nodes, exit.id, q), 0, exit.id + 1, s1))
    ensures var stack := Entered(g, nodes, Front(full), exit, q);
            && StackOk(g, nodes, stack)
            && RunStack(g, nodes, stack, s1) == RunStack(g, nodes, full, s)
            && StackWeight(g, nodes, stack) < StackWeight(g, nodes, full)
            && MovesOut(stack) == MovesOut(full) + if exit.mv != NO_MOVE then 1 else 0
  {
    assert StackOk(g, nodes, Front(full));
    EnteredOk(g, nodes, Front(full), exit, q);
    EnteredWeight(g, nodes, Front(full), exit, q, s);
    EnteredRun(g, nodes, Front(full), exit, q, s1);
    RunExit(g, nodes, Front(full), exit, VisitAll(g, nodes, Descend(g, nodes, exit.id, q), 0, exit.id + 1, s1));
  }

  lemma {:induction false} ExitStep(g: Rules, nodes: seq<ProofNode>, full: seq<Frame>, s: State, left: State)
    requires Linked(nodes) && full != [] && StackOk(g, nodes, full) && Fits(nodes, s) && full[|full| - 1].Exit?
    requires full[|full| - 1].id < |nodes| && left == Leave(nodes, full[|full| - 1], s)
    ensures StackOk(g, nodes, Front(full))
    ensures RunStack(g, nodes, Front(full), left) == RunStack(g, nodes, full, s)
    ensures StackWeight(g, nodes, Front(full)) < StackWeight(g, nodes, full)
    ensures MovesOut(full) == MovesOut(Front(full)) + if full[|full| - 1].mv != NO_MOVE then 1 else 0
  {
  }

  lemma {:induction false} CycleStep(g: Rules, nodes: seq<ProofNode>, full: seq<Frame>, id: nat, s: State, r: State)
    requires Linked(nodes) && full != [] && StackOk(g, nodes, full) && Fits(nodes, s) && id < |nodes|
    requires full[|full| - 1] == Enter(id, nodes[id].mv) && nodes[id].parent.Some?
    requires g.hash(g.play(s.cur, nodes[id].mv)) in s.hashes
    requires r == s.(defects := s.defects + [TreeDefect(s.path + [nodes[id].mv], CycleLeaf)])
    ensures StackOk(g, nodes, Front(full))
    ensures RunStack(g, nodes, Front(full), r) == RunStack(g, nodes, full, s)
    ensures StackWeight(g, nodes, Front(full)) < StackWeight(g, nodes, full)
    ensures MovesOut(Front(full)) == MovesOut(full)
  {
  }

  /** `s0` is `s` after the move into `id` was played; the root takes no move. */
  ghost predicate SteppedInto(g: Rules, nodes: seq<ProofNode>, id: nat, exit: Frame, s: State, s0: State)
    requires id < |nodes|
  {
    if nodes[id].parent.None? then exit == Exit(id, NO_MOVE, None, DecisiveOf(nodes, id)) && s0 == s
    else
      var q := g.play(s.cur, nodes[id].mv);
      && g.hash(q) !in s.hashes
      && exit == Exit(id, nodes[id].mv, Some(g.hash(q)), DecisiveOf(nodes, id))
      && s0 == s.(cur := q, undo := s.undo + [s.cur], path := s.path + [nodes[id].mv], hashes := s.hashes + {g.hash(q)})
  }

  lemma {:induction false} EnterVisit(g: Rules, nodes: seq<ProofNode>, id: nat, exit: Frame, q: Position, s: State,
          s0: State, s1: State)
    requires Linked(nodes) && id < |nodes| && Fits(nodes, s) && Fits(nodes, s1)
    requires SteppedInto(g, nodes, id, exit, s, s0) && q == s0.cur
    requires s1 == s0.(defects := s0.defects + NodeDefects(g, nodes, id, q, s0.path))
    ensures Visit(g, nodes, id, s) == Leave(nodes, exit, VisitAll(g, nodes, Descend(g, nodes, id, q), 0, id + 1, s1))
  {
  }

  lemma {:induction false} OpenReady(g: Rules, nodes: seq<ProofNode>, full: seq<Frame>, exit: Frame, s: State,
          s0: State, s1: State)
    requires Linked(nodes) && g.Sane() && full != [] && StackOk(g, nodes, full) && Fits(nodes, s) && Fits(nodes, s1)
    requires exit.Exit? && exit.id < |nodes| && full[|full| - 1] == Enter(exit.id, exit.mv)
    requires SteppedInto(g, nodes, exit.id, exit, s, s0)
    requires s1 == s0.(defects := s0.defects + NodeDefects(g, nodes, exit.id, s0.cur, s0.path))
    ensures var stack := Entered(g, nodes, Front(full), exit, s0.cur);
            && StackOk(g, nodes, stack)
            && RunStack(g, nodes, stack, s1) == RunStack(g, nodes, full, s)
            && StackWeight(g, nodes, stack) < StackWeight(g, nodes, full)
            && MovesOut(stack) == MovesOut(full) + if exit.mv != NO_MOVE then 1 else 0
  {
    hide *;
    EnterVisit(g, nodes, exit.id, exit, s0.cur, s, s0, s1);
    EnterReplaced(g, nodes, full, exit, s0.cur, s, s1);
  }

  // ----- the machine itself -----

  method ListWrong(nodes: seq<ProofNode>, kids: seq<nat>, want: Outcome, d: TreeDefect)
    returns (defects: seq<TreeDefect>)
    requires Within(kids, 0, |nodes|)
    ensures defects == WrongOutcomes(nodes, kids, |kids|, want, d)
  {
    defects := [];
    for i := 0 to |kids|
      invariant defects == WrongOutcomes(nodes, kids, i, want, d)
    {
      if nodes[kids[i]].outcome != Some(want) {
        defects := defects + [d];
      }
    }
  }

  method ListMissing(nodes: seq<ProofNode>, kids: seq<nat>, legal: seq<Move>, d: TreeDefect)
    returns (defects: seq<TreeDefect>)
    requires Within(kids, 0, |nodes|)
    ensures defects == MissingReplies(nodes, kids, legal, |legal|, d)
  {
    defects := [];
    for i := 0 to |legal|
      invariant defects == MissingReplies(nodes, kids, legal, i, d)
    {
      if !Replied(nodes, kids, legal[i]) {
        defects := defects + [d];
      }
    }
  }

  ghost function PlayableFrames(nodes: seq<ProofNode>, kids: seq<nat>, i: nat, legal: seq<Move>): seq<Frame>
    requires Within(kids, 0, |nodes|) && i <= |kids|
    decreases |kids| - i
  {
    if i == |kids| then []
    else
      PlayableFrames(nodes, kids, i + 1, legal)
      + if nodes[kids[i]].mv in legal then [Enter(kids[i], nodes[kids[i]].mv)] else []
  }

  /** Push the playable children, last first, and list the others. */
  method PushPlayable(nodes: seq<ProofNode>, kids: seq<nat>, legal: seq<Move>, d: TreeDefect)
    returns (defects: seq<TreeDefect>, frames: seq<Frame>)
    requires Within(kids, 0, |nodes|)
    ensures defects == IllegalMoves(nodes, kids, 0, legal, d)
    ensures frames == PlayableFrames(nodes, kids, 0, legal)
  {
    defects, frames := [], [];
    for i := |kids| downto 0
      invariant frames == PlayableFrames(nodes, kids, i, legal)
      invariant defects == IllegalMoves(nodes, kids, i, legal, d)
    {
      if nodes[kids[i]].mv in legal {
        frames := frames + [Enter(kids[i], nodes[kids[i]].mv)];
      } else {
        defects := defects + [d];
      }
    }
  }

  lemma {:induction false} PlayableFramesAre(nodes: seq<ProofNode>, kids: seq<nat>, i: nat, legal: seq<Move>,
          all: seq<nat>, j: nat)
    requires Within(kids, 0, |nodes|) && i <= |kids|
    requires Within(all, 0, |nodes|) && j <= |all| && Playable(nodes, kids, i, legal) == all[j..]
    ensures PlayableFrames(nodes, kids, i, legal) == Frames(nodes, all, j)
    decreases |kids| - i
  {
    if i < |kids| {
      var rest := Playable(nodes, kids, i + 1, legal);
      if nodes[kids[i]].mv in legal {
        assert Playable(nodes, kids, i, legal) == [kids[i]] + rest;
        assert j < |all| && all[j] == kids[i] && all[j + 1..] == rest;
        PlayableFramesAre(nodes, kids, i + 1, legal, all, j + 1);
      } else {
        assert Playable(nodes, kids, i, legal) == rest;
        PlayableFramesAre(nodes, kids, i + 1, legal, all, j);
      }
    } else {
      assert j == |all|;
    }
  }

  /** Judge one entered node: its own defects, and the Enter frames of the children it can
      descend into. */
  method CheckNode(g: Rules, nodes: seq<ProofNode>, id: nat, p: Position, path: seq<Move>)
    returns (defects: seq<TreeDefect>, frames: seq<Frame>)
    requires Linked(nodes) && id < |nodes|
    ensures defects == NodeDefects(g, nodes, id, p, path)
    ensures frames == Frames(nodes, Descend(g, nodes, id, p), 0)
  {
    if !DecisiveOf(nodes, id) {
      return [TreeDefect(path, NotDecisive)], [];
    }
    var node := nodes[id];
    var outcome := node.outcome.value;
    defects, frames := [], [];
    if node.hash != 0 && node.hash != g.hash(p) {
      defects := [TreeDefect(path, HashMismatch)];
    }
    if node.depth == 0 {
      if g.terminal(p) != Some(outcome) {
        defects := defects + [TreeDefect(path, TerminalMismatch)];
      }
      return;
    }
    var legal := g.legal(p);
    var kids := ListChildren(nodes, id);
    var interior := if outcome == Win && |kids| != 1 then [TreeDefect(path, WinNotSingle)] else [];
    var wrong := ListWrong(nodes, kids, outcome.Flip(),
        TreeDefect(path, if outcome == Win then ChildNotLoss else ChildNotWin));
    var illegal: seq<TreeDefect>;
    illegal, frames := PushPlayable(nodes, kids, legal, TreeDefect(path, IllegalChildMove));
    var missing := [];
    if outcome == Loss {
      missing := ListMissing(nodes, kids, legal, TreeDefect(path, LossIncomplete));
    }
    defects := defects + (interior + wrong + illegal + missing);
    assert Descend(g, nodes, id, p)[0..] == Playable(nodes, kids, 0, legal);
    PlayableFramesAre(nodes, kids, 0, legal, Descend(g, nodes, id, p), 0);
  }

  /** The local variables of the validation loop. */
  class Replayer {
    const g: Rules
    const nodes: seq<ProofNode>
    const pos: Board
    var expected: seq<U32>
    var complete: seq<bool>
    var path: seq<Move>
    var pathHashes: set<nat>
    var stack: seq<Frame>
    var defects: seq<TreeDefect>

    constructor (g: Rules, nodes: seq<ProofNode>, root: Position)
      requires Linked(nodes) && g.Sane()
      ensures this.g == g && this.nodes == nodes && fresh(pos)
      ensures Valid() && stack == [Enter(0, NO_MOVE)] && Now() == Start(root, nodes)
    {
      this.g, this.nodes := g, nodes;
      pos := new Board(g, root);
      expected := seq(|nodes|, _ => 0);
      complete := seq(|nodes|, _ => false);
      path, pathHashes, stack, defects := [], {}, [Enter(0, NO_MOVE)], [];
      new;
      assert Front(stack) == [];
      assert NodeLinked(nodes, 0) && FrameOk(nodes, stack[0]);
    }

    ghost predicate Valid0()
      reads this, pos
    {
      && Linked(nodes) && g.Sane() && pos.g == g
      && |expected| == |complete| == |nodes|
      && |path| == |pos.undo|
    }

    ghost predicate Valid()
      reads this, pos
    {
      && Valid0()
      && StackOk(g, nodes, stack)
      && |path| == MovesOut(stack)
    }

    ghost function Now0(): (s: State)
      requires Valid0()
      reads this, pos
      ensures Fits(nodes, s)
    {
      State(pos.cur, pos.undo, path, pathHashes, expected, complete, defects)
    }

    ghost function Now(): (s: State)
      requires Valid()
      reads this, pos
      ensures Fits(nodes, s)
    {
      Now0()
    }

    /** What the machine will have reported when its stack is empty. */
    ghost function Final(): State
      requires Valid()
      reads this, pos
    {
      RunStack(g, nodes, stack, Now())
    }

    /** Play the move into a non-root node; false if that closes a cycle. */
    method StepInto(mv: Move) returns (entered: bool)
      requires Valid0() && mv != NO_MOVE
      modifies this`path, this`pathHashes, this`defects, pos
      ensures Valid0() && stack == old(stack)
      ensures var q := g.play(old(pos.cur), mv);
              var here := old(path) + [mv];
              entered == (g.hash(q) !in old(pathHashes)) &&
              if entered then
                && pos.cur == q && pos.undo == old(pos.undo) + [old(pos.cur)] && path == here
                && pathHashes == old(pathHashes) + {g.hash(q)} && defects == old(defects)
              else
                && pos.cur == old(pos.cur) && pos.undo == old(pos.undo) && path == old(path)
                && pathHashes == old(pathHashes) && defects == old(defects) + [TreeDefect(here, CycleLeaf)]
    {
      pos.DoMove(mv);
      path := path + [mv];
      var hash := g.hash(pos.cur);
      if hash in pathHashes {
        defects := defects + [TreeDefect(path, CycleLeaf)];
        pos.UndoMove();
        path := Front(path);
        entered := false;
      } else {
        pathHashes := pathHashes + {hash};
        entered := true;
      }
    }

    /** Check the node just stepped into and push its Exit and its children's Enters; `s` was
        the state when its Enter was on top of `full`. */
    method OpenNode(id: nat, exit: Frame, ghost full: seq<Frame>, ghost s: State)
      requires Valid0() && full != [] && StackOk(g, nodes, full) && Fits(nodes, s) && id < |nodes|
      requires exit.Exit? && exit.id == id && full[|full| - 1] == Enter(id, exit.mv) && stack == Front(full)
      requires |path| == MovesOut(full) + if exit.mv != NO_MOVE then 1 else 0
      requires SteppedInto(g, nodes, id, exit, s, Now0())
      modifies this`defects, this`stack
      ensures Valid() && Final() == RunStack(g, nodes, full, s)
      ensures StackWeight(g, nodes, stack) < StackWeight(g, nodes, full)
    {
      hide RunStack, StackWeight, StackOk, MovesOut, NodeDefects, Descend, SteppedInto, Frames;
      var own, frames := CheckNode(g, nodes, id, pos.cur, path);
      ghost var s0 := Now0();
      defects := defects + own;
      OpenReady(g, nodes, full, exit, s, s0, Now0());
      stack := stack + [exit] + frames;
    }

    method EnterNode(id: nat, mv: Move)
      requires Valid() && stack != [] && stack[|stack| - 1] == Enter(id, mv)
      modifies this, pos
      ensures Valid() && Final() == old(Final())
      ensures StackWeight(g, nodes, stack) < old(StackWeight(g, nodes, stack))
    {
      ghost var s := Now();
      ghost var full := stack;
      assert FrameOk(nodes, stack[|stack| - 1]);
      assert NodeLinked(nodes, id);
      stack := Front(stack);
      var hashOnPath: Option<nat> := None;
      if id != 0 {
        var entered := StepInto(mv);
        if !entered {
          CycleStep(g, nodes, full, id, s, Now0());
          return;
        }
        hashOnPath := Some(g.hash(pos.cur));
      }
      OpenNode(id, Exit(id, mv, hashOnPath, DecisiveOf(nodes, id)), full, s);
    }

    method ExitNode(id: nat, mv: Move, hash: Option<nat>, checkDepth: bool)
      requires Valid() && stack != [] && stack[|stack| - 1] == Exit(id, mv, hash, checkDepth)
      modifies this, pos
      ensures Valid() && Final() == old(Final())
      ensures StackWeight(g, nodes, stack) < old(StackWeight(g, nodes, stack))
    {
      ghost var s := Now();
      ghost var full := stack;
      assert FrameOk(nodes, full[|full| - 1]);
      hide RunStack, StackWeight, StackOk, MovesOut, Judge;
      stack := Front(stack);
      if mv != NO_MOVE {
        if hash.Some? {
          pathHashes := pathHashes - {hash.value};
        }
        path := Front(path);
        pos.UndoMove();
      }
      var v := Judge(nodes, id, checkDepth, path, expected, complete);
      expected, complete, defects := v.expected, v.complete, defects + v.flaw;
      ExitStep(g, nodes, full, s, Now0());
    }
  }

  /** Replay every path of the tree on one board and list what is wrong. */
  method ValidateProofTree(g: Rules, root: Option<Position>, nodes: seq<ProofNode>) returns (defects: seq<TreeDefect>)
    requires Linked(nodes) && g.Sane()
    ensures root.None? ==> defects == [TreeDefect([], NotDecisive)]
    ensures root.Some? ==> defects == Report(g, nodes, 0, root.value, [], {})
  {
    if root.None? {
      return [TreeDefect([], NotDecisive)];
    }
    var r := new Replayer(g, nodes, root.value);
    ghost var final := Visit(g, nodes, 0, Start(root.value, nodes));
    assert NodeLinked(nodes, 0);
    RunEnter(g, nodes, r.stack, r.Now());
    while r.stack != []
      invariant fresh(r) && fresh(r.pos)
      invariant r.Valid() && r.g == g && r.nodes == nodes && r.Final() == final
      decreases StackWeight(g, nodes, r.stack)
    {
      match r.stack[|r.stack| - 1] {
        case Enter(id, mv) => r.EnterNode(id, mv);
        case Exit(id, mv, hash, checkDepth) => r.ExitNode(id, mv, hash, checkDepth);
      }
    }
    RootReports(g, nodes, root.value, 0);
    defects := r.defects;
  }
}
