/** What the marks of validated shards say is true, so merging them never aborts, and every
    recomputed bound is sound, at most every shard's depth, and never grows. */
module PathTruth {
  import opened Game
  import opened Tree
  import opened Paths
  import opened PathDepth
  import opened PathOrder
  import opened PathMerge
  import opened PathSame

  // ----- truthful marks -----

  /** A proven open position lists what proves it. */
  ghost predicate ClaimBacked(g: Rules, start: Position, marks: set<Mark>, p: Path, o: Outcome)
  {
    var q := Replay(g, start, p);
    && (o == Win ==> exists m :: m in g.legal(q) && Claim(p + [m], Loss) in marks)
    && (o == Loss ==> forall m :: m in g.legal(q) ==> Claim(p + [m], Win) in marks)
  }

  ghost predicate StepLegal(g: Rules, start: Position, p: Path, m: Move)
  {
    var q := Replay(g, start, p);
    g.terminal(q).None? && m in g.legal(q)
  }

  ghost predicate MarkTrue(g: Rules, start: Position, marks: set<Mark>, m: Mark)
  {
    match m
    case Node(p) => p == [] || StepLegal(g, start, p[..|p| - 1], p[|p| - 1])
    case Tagged(p, t) => true
    case Claim(p, o) =>
      && o != Draw && Holds(g, Replay(g, start, p), o)
      && (g.terminal(Replay(g, start, p)).None? ==> ClaimBacked(g, start, marks, p, o))
    case End(p) => g.terminal(Replay(g, start, p)).Some?
  }

  ghost predicate Truthful(g: Rules, start: Position, marks: set<Mark>)
  {
    forall m :: m in marks ==> MarkTrue(g, start, marks, m)
  }

  lemma {:induction false} TruthfulUnion(g: Rules, start: Position, a: set<Mark>, b: set<Mark>)
    requires Truthful(g, start, a) && Truthful(g, start, b)
    ensures Truthful(g, start, a + b)
  {
    hide Replay, Holds;
    forall m | m in a + b
      ensures MarkTrue(g, start, a + b, m)
    {
      assert if m in a then MarkTrue(g, start, a, m) else MarkTrue(g, start, b, m);
    }
  }

  /** True claims cannot contradict each other. */
  lemma {:induction false} TruthfulConsistent(g: Rules, start: Position, marks: set<Mark>)
    requires Truthful(g, start, marks)
    ensures Consistent(marks) && forall p: Path :: Claim(p, Draw) !in marks
  {
    hide Replay, Holds;
    forall m | m in marks && m.Claim?
      ensures m.o != Draw
    {
      assert MarkTrue(g, start, marks, m);
    }
    forall p: Path, o: Outcome, o': Outcome | Claim(p, o) in marks && Claim(p, o') in marks
      ensures o == o'
    {
      assert MarkTrue(g, start, marks, Claim(p, o)) && MarkTrue(g, start, marks, Claim(p, o'));
      HoldsUnique(g, Replay(g, start, p), o, o');
    }
  }

  // ----- a tree of truthful marks -----

  ghost predicate TrueTree(g: Rules, start: Position, nodes: seq<PathNode>, marks: set<Mark>)
  {
    Shaped(nodes) && Reads(nodes, marks) && Truthful(g, start, marks)
  }

  ghost function At(g: Rules, start: Position, nodes: seq<PathNode>, i: nat): Position
    requires Shaped(nodes) && i < |nodes|
  {
    Replay(g, start, PathOf(nodes, i))
  }

  /** A node with a child is an open position and the child's move is legal there. */
  lemma {:induction false} ChildLegal(g: Rules, start: Position, nodes: seq<PathNode>, marks: set<Mark>, i: nat,
          m: Move)
    requires TrueTree(g, start, nodes, marks) && i < |nodes| && m in nodes[i].children
    ensures i < nodes[i].children[m] < |nodes|
    ensures g.terminal(At(g, start, nodes, i)).None? && m in g.legal(At(g, start, nodes, i))
    ensures At(g, start, nodes, nodes[i].children[m]) == g.play(At(g, start, nodes, i), m)
  {
    hide Replay;
    var p := PathOf(nodes, i);
    ChildPath(nodes, i, m);
    assert NodeReads(nodes, marks, nodes[i].children[m]);
    assert MarkTrue(g, start, marks, Node(p + [m]));
    assert (p + [m])[..|p|] == p;
    ReplaySnoc(g, start, p, m);
  }

  /** The child a claim names. */
  lemma {:induction false} ClaimedChild(g: Rules, start: Position, nodes: seq<PathNode>, marks: set<Mark>, i: nat,
          m: Move, o: Outcome)
    requires TrueTree(g, start, nodes, marks) && i < |nodes| && Claim(PathOf(nodes, i) + [m], o) in marks
    ensures m in nodes[i].children && i < nodes[i].children[m] < |nodes|
            && nodes[nodes[i].children[m]].outcome == Some(o)
  {
    var mark := Claim(PathOf(nodes, i) + [m], o);
    var c := ReadAt(nodes, marks, mark);
    LocateSnoc(nodes, i, m);
    ChildPath(nodes, i, m);
  }

  /** What a proven node's children are. */
  lemma {:induction false} Backed(g: Rules, start: Position, nodes: seq<PathNode>, marks: set<Mark>, i: nat)
    requires TrueTree(g, start, nodes, marks) && i < |nodes| && nodes[i].outcome.Some?
    ensures var o := nodes[i].outcome.value;
            && o != Draw && Holds(g, At(g, start, nodes, i), o)
            && (g.terminal(At(g, start, nodes, i)).None? ==> ClaimBacked(g, start, marks, PathOf(nodes, i), o))
            && (g.terminal(At(g, start, nodes, i)).Some? ==>
                 nodes[i].children == map[] && g.terminal(At(g, start, nodes, i)) == Some(o))
  {
    hide ClaimBacked, Replay;
    assert NodeReads(nodes, marks, i);
    var o := nodes[i].outcome.value;
    assert MarkTrue(g, start, marks, Claim(PathOf(nodes, i), o));
    if g.terminal(At(g, start, nodes, i)).Some? {
      forall m: Move
        ensures m !in nodes[i].children
      {
        if m in nodes[i].children {
          ChildLegal(g, start, nodes, marks, i, m);
        }
      }
      assert nodes[i].children == map[];
      TerminalHolds(g, At(g, start, nodes, i), o);
    }
  }

  lemma {:induction false} TerminalHolds(g: Rules, p: Position, o: Outcome)
    requires Holds(g, p, o) && g.terminal(p).Some?
    ensures g.terminal(p) == Some(o)
  {
    var n: nat :| Forced(g, p, o, n);
  }

  /** The k-th child's move is legal and leads to it. */
  lemma {:induction false} KidLegal(g: Rules, start: Position, nodes: seq<PathNode>, marks: set<Mark>, i: nat, k: nat)
    requires TrueTree(g, start, nodes, marks) && i < |nodes| && k < |Kids(nodes, i)|
    ensures k < |Keys(nodes[i].children)| && i < Kids(nodes, i)[k] < |nodes|
    ensures var m := Keys(nodes[i].children)[k];
            && PathOf(nodes, Kids(nodes, i)[k]) == PathOf(nodes, i) + [m]
            && g.terminal(At(g, start, nodes, i)).None? && m in g.legal(At(g, start, nodes, i))
            && At(g, start, nodes, Kids(nodes, i)[k]) == g.play(At(g, start, nodes, i), m)
  {
    hide Reads, Truthful, Replay;
    KidPath(nodes, i, k);
    ChildLegal(g, start, nodes, marks, i, Keys(nodes[i].children)[k]);
  }

  /** Where the child by a legal move stands in the list. */
  lemma {:induction false} KidByMove(nodes: seq<PathNode>, i: nat, m: Move) returns (k: nat)
    requires Shaped(nodes) && i < |nodes| && m in nodes[i].children
    ensures k < |Kids(nodes, i)| && Kids(nodes, i)[k] == nodes[i].children[m]
  {
    KeysAll(nodes, i);
    var a :| 0 <= a < |Keys(nodes[i].children)| && Keys(nodes[i].children)[a] == m;
    k := a;
  }

  /** Open positions with a proven outcome have a losing child, or only winning ones. */
  lemma {:induction false} TrueKids(g: Rules, start: Position, nodes: seq<PathNode>, marks: set<Mark>, i: nat)
    requires TrueTree(g, start, nodes, marks) && i < |nodes| && nodes[i].outcome.Some?
    requires g.terminal(At(g, start, nodes, i)).None?
    ensures nodes[i].outcome == Some(Win) ==> HasLossKid(nodes, i)
    ensures nodes[i].outcome == Some(Loss) ==> AllWinKids(nodes, i)
  {
    hide Reads, Truthful, Replay;
    Backed(g, start, nodes, marks, i);
    KidsWithin(nodes, i);
    var p := PathOf(nodes, i);
    if nodes[i].outcome == Some(Win) {
      var m :| m in g.legal(At(g, start, nodes, i)) && Claim(p + [m], Loss) in marks;
      ClaimedChild(g, start, nodes, marks, i, m, Loss);
      var k := KidByMove(nodes, i, m);
      assert nodes[Kids(nodes, i)[k]].outcome == Some(Loss);
    } else if nodes[i].outcome == Some(Loss) {
      forall k | 0 <= k < |Kids(nodes, i)|
        ensures nodes[Kids(nodes, i)[k]].outcome == Some(Win)
      {
        KidLegal(g, start, nodes, marks, i, k);
        ClaimedChild(g, start, nodes, marks, i, Keys(nodes[i].children)[k], Win);
      }
    }
  }

  /** Finalisation cannot fail on truthful marks. */
  lemma {:induction false} TrueChecks(g: Rules, start: Position, nodes: seq<PathNode>, marks: set<Mark>)
    requires TrueTree(g, start, nodes, marks)
    ensures AllOk(nodes)
  {
    forall i | 0 <= i < |nodes|
      ensures NodeOk(nodes, i)
    {
      TrueNode(g, start, nodes, marks, i);
    }
  }

  lemma {:induction false} TrueNode(g: Rules, start: Position, nodes: seq<PathNode>, marks: set<Mark>, i: nat)
    requires TrueTree(g, start, nodes, marks) && i < |nodes|
    ensures NodeOk(nodes, i)
  {
    assert NodeReads(nodes, marks, i);
    assert End(PathOf(nodes, i)) in marks ==> MarkTrue(g, start, marks, End(PathOf(nodes, i)));
    hide Reads, Truthful, Replay, HasLossKid, AllWinKids;
    if nodes[i].outcome.Some? {
      Backed(g, start, nodes, marks, i);
      if g.terminal(At(g, start, nodes, i)).None? {
        TrueKids(g, start, nodes, marks, i);
      }
    }
  }

  // ----- bounds are sound -----

  lemma {:induction false} LossBoundAt(nodes: seq<PathNode>, ids: seq<nat>, bs: seq<nat>, k: nat)
    requires k < |ids| == |bs| && (forall k :: 0 <= k < |ids| ==> ids[k] < |nodes|)
             && nodes[ids[k]].outcome == Some(Loss)
    ensures 0 < BoundFrom(nodes, Win, ids, bs) <= bs[k] + 1
    ensures exists j :: 0 <= j < |ids| && nodes[ids[j]].outcome == Some(Loss) && BoundFrom(nodes, Win, ids, bs) ==
              bs[j] + 1
  {
    var ls := LossBounds(nodes, ids, bs, |ids|);
    assert IsLossBound(nodes, ids, bs, k, bs[k]);
    assert bs[k] in ls;
    var x: nat :| x < |ls| && ls[x] == Least(ls);
    assert ls[x] in ls;
    var j: nat :| j < |ids| && IsLossBound(nodes, ids, bs, j, ls[x]);
    assert nodes[ids[j]].outcome == Some(Loss) && BoundFrom(nodes, Win, ids, bs) == bs[j] + 1;
  }

  /** Every proven node of the merged tree is true, within its bound. */
  lemma {:induction false} BoundSound(g: Rules, start: Position, nodes: seq<PathNode>, marks: set<Mark>, i: nat)
    requires TrueTree(g, start, nodes, marks) && i < |nodes| && nodes[i].outcome.Some? && g.Sane()
    ensures Forced(g, At(g, start, nodes, i), nodes[i].outcome.value, Bound(nodes, i))
    decreases |nodes| - i
  {
    hide Reads, Truthful, Replay, Kids, Keys, Least, Greatest, LossBounds;
    Backed(g, start, nodes, marks, i);
    var p := At(g, start, nodes, i);
    if g.terminal(p).None? {
      TrueKids(g, start, nodes, marks, i);
      KidsWithin(nodes, i);
      if nodes[i].outcome == Some(Win) {
        WinSound(g, start, nodes, marks, i);
      } else {
        var m := g.legal(p)[0];
        assert m in g.legal(p);
        ClaimedChild(g, start, nodes, marks, i, m, Win);
        forall m | m in g.legal(p)
          ensures Forced(g, g.play(p, m), Win, Bound(nodes, i) - 1)
        {
          ReplySound(g, start, nodes, marks, i, m);
        }
      }
    }
  }

  lemma {:induction false} WinSound(g: Rules, start: Position, nodes: seq<PathNode>, marks: set<Mark>, i: nat)
    requires TrueTree(g, start, nodes, marks) && i < |nodes| && nodes[i].outcome == Some(Win) && g.Sane()
    requires g.terminal(At(g, start, nodes, i)).None? && HasLossKid(nodes, i)
    ensures Forced(g, At(g, start, nodes, i), Win, Bound(nodes, i))
    decreases |nodes| - i, 0
  {
    hide Reads, Truthful, Replay, Kids, Keys, LossBounds;
    KidsWithin(nodes, i);
    var ids := Kids(nodes, i);
    var k :| 0 <= k < |ids| && nodes[ids[k]].outcome == Some(Loss);
    assert |ids| > 0;
    LossBoundAt(nodes, ids, KidBounds(nodes, i), k);
    var j :| 0 <= j < |ids| && nodes[ids[j]].outcome == Some(Loss) && BoundFrom(nodes, Win, ids,
        KidBounds(nodes, i)) == KidBounds(nodes, i)[j] + 1;
    KidLegal(g, start, nodes, marks, i, j);
    BoundSound(g, start, nodes, marks, ids[j]);
    var m := Keys(nodes[i].children)[j];
    assert m in g.legal(At(g, start, nodes, i))
           && Forced(g, g.play(At(g, start, nodes, i), m), Loss, Bound(nodes, i) - 1);
  }

  lemma {:induction false} KidBelow(nodes: seq<PathNode>, i: nat, k: nat)
    requires Shaped(nodes) && i < |nodes| && nodes[i].outcome == Some(Loss) && k < |Kids(nodes, i)|
    ensures i < Kids(nodes, i)[k] < |nodes| && Bound(nodes, Kids(nodes, i)[k]) < Bound(nodes, i)
  {
    KidsWithin(nodes, i);
    var bs := KidBounds(nodes, i);
    assert bs[k] <= Greatest(bs);
  }

  lemma {:induction false} ReplySound(g: Rules, start: Position, nodes: seq<PathNode>, marks: set<Mark>, i: nat,
          m: Move)
    requires TrueTree(g, start, nodes, marks) && i < |nodes| && nodes[i].outcome == Some(Loss) && g.Sane()
    requires g.terminal(At(g, start, nodes, i)).None? && m in g.legal(At(g, start, nodes, i))
    ensures Bound(nodes, i) > 0 && Forced(g, g.play(At(g, start, nodes, i), m), Win, Bound(nodes, i) - 1)
    decreases |nodes| - i, 0
  {
    hide Reads, Truthful, Replay, Kids, Keys, Bound;
    Backed(g, start, nodes, marks, i);
    ClaimedChild(g, start, nodes, marks, i, m, Win);
    ChildLegal(g, start, nodes, marks, i, m);
    var c := nodes[i].children[m];
    var k := KidByMove(nodes, i, m);
    KidBelow(nodes, i, k);
    BoundSound(g, start, nodes, marks, c);
    ForcedMonotone(g, At(g, start, nodes, c), Win, Bound(nodes, c), Bound(nodes, i) - 1);
  }

  // ----- bounds never grow -----

  /** A win's bound is at most one more than a losing child's. */
  lemma {:induction false} WinAtMost(nodes: seq<PathNode>, i: nat, m: Move)
    requires Shaped(nodes) && i < |nodes| && nodes[i].outcome == Some(Win) && m in nodes[i].children
    requires var c := nodes[i].children[m]; c < |nodes| && nodes[c].outcome == Some(Loss)
    ensures Bound(nodes, i) <= Bound(nodes, nodes[i].children[m]) + 1
  {
    var k := KidByMove(nodes, i, m);
    KidsWithin(nodes, i);
    assert nodes[i].children != map[];
    hide Kids, LossBounds, Least;
    LossBoundAt(nodes, Kids(nodes, i), KidBounds(nodes, i), k);
  }

  /** A loss's bound is at most one more than any number that bounds its children. */
  lemma {:induction false} LossAtMost(nodes: seq<PathNode>, i: nat, n: nat)
    requires Shaped(nodes) && i < |nodes| && nodes[i].outcome == Some(Loss)
    requires forall k :: 0 <= k < |Kids(nodes, i)| ==>
               Kids(nodes, i)[k] < |nodes| && Bound(nodes, Kids(nodes, i)[k]) <= n
    ensures Bound(nodes, i) <= n + 1
  {
    KidsWithin(nodes, i);
    var bs := KidBounds(nodes, i);
    if |bs| > 0 {
      assert Greatest(bs) <= n;
    }
  }

  /** The losing child a win's bound comes from. */
  lemma {:induction false} BestKid(nodes: seq<PathNode>, i: nat) returns (k: nat)
    requires Shaped(nodes) && i < |nodes| && nodes[i].outcome == Some(Win) && nodes[i].children != map[]
             && HasLossKid(nodes, i)
    ensures k < |Kids(nodes, i)| && i < Kids(nodes, i)[k] < |nodes| && nodes[Kids(nodes, i)[k]].outcome == Some(Loss)
    ensures Bound(nodes, i) == Bound(nodes, Kids(nodes, i)[k]) + 1
  {
    KidsWithin(nodes, i);
    var ids := Kids(nodes, i);
    var x :| 0 <= x < |ids| && nodes[ids[x]].outcome == Some(Loss);
    LossBoundAt(nodes, ids, KidBounds(nodes, i), x);
    var j :| 0 <= j < |ids| && nodes[ids[j]].outcome == Some(Loss) && BoundFrom(nodes, Win, ids,
        KidBounds(nodes, i)) == KidBounds(nodes, i)[j] + 1;
    k := j;
  }

  /** Further overlays can only tighten a proven node's bound. */
  lemma {:induction false} BoundShrinks(g: Rules, start: Position, a: seq<PathNode>, ma: set<Mark>, i: nat,
          b: seq<PathNode>, mb: set<Mark>, j: nat)
    requires TrueTree(g, start, a, ma) && TrueTree(g, start, b, mb) && Facts(ma) <= Facts(mb)
    requires i < |a| && j < |b| && PathOf(a, i) == PathOf(b, j) && a[i].outcome.Some?
    ensures a[i].outcome == b[j].outcome && Bound(b, j) <= Bound(a, i)
    decreases |a| - i
  {
    hide Reads, Truthful, Replay, Kids, Keys, Bound, HasLossKid, AllWinKids, Facts;
    OutcomeKept(a, ma, i, b, mb, j);
    Backed(g, start, a, ma, i);
    Backed(g, start, b, mb, j);
    if g.terminal(At(g, start, a, i)).Some? {
      NoKids(b, j);
    } else {
      TrueKids(g, start, a, ma, i);
      TrueKids(g, start, b, mb, j);
      if a[i].outcome == Some(Win) {
        WinShrinks(g, start, a, ma, i, b, mb, j);
      } else {
        LossShrinks(g, start, a, ma, i, b, mb, j);
      }
    }
  }

  lemma {:induction false} NoKids(nodes: seq<PathNode>, i: nat)
    requires Shaped(nodes) && i < |nodes| && nodes[i].children == map[]
    ensures Bound(nodes, i) == 0
  {
  }

  lemma {:induction false} OutcomeKept(a: seq<PathNode>, ma: set<Mark>, i: nat, b: seq<PathNode>, mb: set<Mark>, j: nat)
    requires Reads(a, ma) && Reads(b, mb) && Facts(ma) <= Facts(mb) && i < |a| && j < |b|
             && PathOf(a, i) == PathOf(b, j)
    ensures a[i].outcome.Some? ==> b[j].outcome == a[i].outcome
  {
    assert NodeReads(a, ma, i) && NodeReads(b, mb, j);
    if a[i].outcome.Some? {
      FactsKept(ma, mb, Claim(PathOf(a, i), a[i].outcome.value));
    }
  }

  lemma {:induction false} FactsKept(ma: set<Mark>, mb: set<Mark>, m: Mark)
    requires Facts(ma) <= Facts(mb) && m in ma && !m.End?
    ensures m in mb
  {
    assert m in Facts(ma);
  }

  lemma {:induction false} WinShrinks(g: Rules, start: Position, a: seq<PathNode>, ma: set<Mark>, i: nat,
          b: seq<PathNode>, mb: set<Mark>, j: nat)
    requires TrueTree(g, start, a, ma) && TrueTree(g, start, b, mb) && Facts(ma) <= Facts(mb)
    requires i < |a| && j < |b| && PathOf(a, i) == PathOf(b, j) && a[i].outcome == b[j].outcome == Some(Win)
             && HasLossKid(a, i)
    ensures Bound(b, j) <= Bound(a, i)
    decreases |a| - i, 0
  {
    hide Truthful, Replay, Keys, Bound, Facts;
    KidsWithin(a, i);
    var k := BestKid(a, i);
    var c := Kids(a, i)[k];
    KidPath(a, i, k);
    var m := Keys(a[i].children)[k];
    assert NodeReads(a, ma, c);
    hide Reads, NodeReads, Kids;
    FactsKept(ma, mb, Claim(PathOf(a, c), Loss));
    ClaimedChild(g, start, b, mb, j, m, Loss);
    ChildPath(b, j, m);
    BoundShrinks(g, start, a, ma, c, b, mb, b[j].children[m]);
    WinAtMost(b, j, m);
  }

  lemma {:induction false} LossShrinks(g: Rules, start: Position, a: seq<PathNode>, ma: set<Mark>, i: nat,
          b: seq<PathNode>, mb: set<Mark>, j: nat)
    requires TrueTree(g, start, a, ma) && TrueTree(g, start, b, mb) && Facts(ma) <= Facts(mb)
    requires i < |a| && j < |b| && PathOf(a, i) == PathOf(b, j) && a[i].outcome == b[j].outcome == Some(Loss)
    requires g.terminal(At(g, start, a, i)).None?
    ensures Bound(b, j) <= Bound(a, i)
    decreases |a| - i, 0
  {
    hide Reads, Truthful, Replay, Kids, Keys, Bound, Facts;
    if |Kids(b, j)| > 0 {
      forall k | 0 <= k < |Kids(b, j)|
        ensures Kids(b, j)[k] < |b| && Bound(b, Kids(b, j)[k]) < Bound(a, i)
      {
        KidLegal(g, start, b, mb, j, k);
        var m := Keys(b[j].children)[k];
        Backed(g, start, a, ma, i);
        ClaimedChild(g, start, a, ma, i, m, Win);
        ChildPath(a, i, m);
        var x := KidByMove(a, i, m);
        KidBelow(a, i, x);
        BoundShrinks(g, start, a, ma, a[i].children[m], b, mb, Kids(b, j)[k]);
      }
      assert Bound(b, Kids(b, j)[0]) < Bound(a, i);
      LossAtMost(b, j, Bound(a, i) - 1);
    } else {
      KidsWithin(b, j);
      NoKids(b, j);
    }
  }
}
