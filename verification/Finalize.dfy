/** Finalisation end to end: drain, choose twins, rebuild, recompute depths, validate, install,
    and rebuild the index. */
module Finalize {
  import opened Game
  import opened Tree
  import opened Worker
  import opened WorkerInvariant
  import opened WorkerTidy
  import opened WorkerMachine
  import opened Rebuild
  import opened RebuildFaithful
  import opened RebuildResult
  import opened RebuildMachine
  import Validate
  import ValidateMachine
  import ValidateSound

  /** The twin index of an arena. */
  ghost predicate IsCanon(nodes: seq<ProofNode>, canon: Canon)
    requires Linked(nodes)
  {
    TwinsOk(nodes, canon, |nodes|) && forall id :: 0 <= id < |nodes| ==> BestAt(nodes, canon, id)
  }

  lemma {:induction false} PrecedesNotBoth(nodes: seq<ProofNode>, a: nat, b: nat)
    requires Linked(nodes) && a < |nodes| && b < |nodes| && Precedes(nodes, a, b)
    ensures !Precedes(nodes, b, a)
  {
    hide Consistent, Children;
  }

  /** An arena has one twin index. */
  lemma {:induction false} CanonUnique(nodes: seq<ProofNode>, a: Canon, b: Canon)
    requires Linked(nodes) && IsCanon(nodes, a) && IsCanon(nodes, b)
    ensures a == b
  {
    hide Precedes;
    forall k | k in a || k in b
      ensures k in a && k in b && a[k] == b[k]
    {
      var id := if k in a then a[k] else b[k];
      assert TwinOk(nodes, k, id) && Expanded(nodes, id);
      assert BestAt(nodes, a, id) && BestAt(nodes, b, id);
      assert BestAt(nodes, a, b[k]) && BestAt(nodes, b, a[k]);
      if a[k] != b[k] {
        PrecedesNotBoth(nodes, a[k], b[k]);
      }
    }
  }

  lemma {:induction false} CanonReady(nodes: seq<ProofNode>, canon: Canon)
    requires Linked(nodes) && IsCanon(nodes, canon) && Tidy(nodes)
    ensures Ready(Raw(nodes, canon))
  {
  }

  // ----- the installed tree satisfies the worker's invariant again -----

  lemma {:induction false} KidPlace(t: Raw, b: Built, n: nat, ks: seq<nat>, c: nat) returns (j: nat)
    requires Formed(b) && n < |b.nodes| && KidsAre(t, b, n, ks) && IsKid(b.nodes, n, c)
    ensures j < |ks| == |Children(b.nodes, n)| && Stands(t, b, c, ks[j]) && Children(b.nodes, n)[|ks| - 1 - j] == c
  {
    var cs := Children(b.nodes, n);
    var i :| 0 <= i < |cs| && cs[i] == c;
    j := |ks| - 1 - i;
    assert Stands(t, b, cs[|ks| - 1 - j], ks[j]);
  }

  lemma {:induction false} NotCut(t: Raw, b: Built, n: nat, c: nat)
    requires Ready(t) && Faithful(t, b) && n < |b.nodes| && IsKid(b.nodes, n, c)
    ensures !b.cut[n] && b.src[n] < |t.nodes| && ExpandedLike(t, b, n)
  {
    if n > 0 {
      assert Done(t, b, n);
    }
  }

  lemma {:induction false} StandsAt(t: Raw, b: Built, n: nat, c: nat) returns (j: nat)
    requires Ready(t) && Faithful(t, b) && n < |b.nodes| && IsKid(b.nodes, n, c)
    ensures b.src[n] < |t.nodes|
    ensures var ks := RealKids(t.nodes, Children(t.nodes, b.src[n]), |Children(t.nodes, b.src[n])|);
            j < |ks| == |Children(b.nodes, n)| && Stands(t, b, c, ks[j]) && Children(b.nodes, n)[|ks| - 1 - j] == c
  {
    hide RealKids, Stands, KidsAre, Children;
    NotCut(t, b, n, c);
    var kids := Children(t.nodes, b.src[n]);
    j := KidPlace(t, b, n, RealKids(t.nodes, kids, |kids|), c);
  }

  lemma {:induction false} RebuiltTidy(t: Raw, b: Built)
    requires Ready(t) && Faithful(t, b) && Tidy(t.nodes)
    ensures forall i: nat, c: nat, d: nat :: SameMove(b.nodes, i, c, d) ==> c == d
  {
    forall i: nat, c: nat, d: nat | SameMove(b.nodes, i, c, d)
      ensures c == d
    {
      var j := StandsAt(t, b, i, c);
      var k := StandsAt(t, b, i, d);
      var s := b.src[i];
      var kids := Children(t.nodes, s);
      var ks := RealKids(t.nodes, kids, |kids|);
      RealKidHas(t.nodes, s, ks[j]);
      RealKidHas(t.nodes, s, ks[k]);
      assert SameMove(t.nodes, s, ks[j], ks[k]);
      ChildrenDescending(t.nodes, s);
      RealKidsDescend(t.nodes, kids, |kids|);
      assert j == k;
    }
  }

  lemma {:induction false} RebuiltMoves(t: Raw, b: Built, n: nat)
    requires Ready(t) && Faithful(t, b) && 0 < n < |b.nodes|
    ensures b.nodes[n].mv != NO_MOVE
  {
    var p, k := ParentExpanded(t, b, n);
    assert k in Children(t.nodes, b.src[p]);
  }

  lemma {:induction false} AttachedAll(nodes: seq<ProofNode>, i: nat)
    requires Linked(nodes) && AllKids(nodes) && i < |nodes|
    ensures Attached(nodes, i)
    decreases i
  {
    if i > 0 {
      assert IsKidOfParent(nodes, i);
      KidFacts(nodes, nodes[i].parent.value, i);
      AttachedAll(nodes, nodes[i].parent.value);
    }
  }

  /** The index rebuilt from the first `n` nodes of a tree. */
  ghost predicate EdgesUpTo(nodes: seq<ProofNode>, index: map<(nat, Move), nat>, n: nat)
    requires n <= |nodes|
  {
    && (forall i :: 0 < i < n ==> nodes[i].parent.Some? && (nodes[i].parent.value, nodes[i].mv) in index
                                  && index[(nodes[i].parent.value, nodes[i].mv)] == i)
    && (forall k :: k in index ==> 0 < index[k] < n && nodes[index[k]].parent == Some(k.0) && nodes[index[k]].mv == k.1)
  }

  lemma {:induction false} EdgesExact(nodes: seq<ProofNode>, index: map<(nat, Move), nat>)
    requires Linked(nodes) && AllKids(nodes) && EdgesUpTo(nodes, index, |nodes|)
    ensures Ranged(Arena(nodes, index)) && IndexExact(Arena(nodes, index))
  {
    var a := Arena(nodes, index);
    forall i: nat, c: nat
      ensures EdgeIndexed(a, i, c)
    {
      if IsKid(nodes, i, c) {
        KidFacts(nodes, i, c);
      }
    }
    forall k: (nat, Move)
      ensures KeyIsEdge(a, k)
    {
      if k in index {
        assert IsKidOfParent(nodes, index[k]);
        AttachedAll(nodes, k.0);
      }
    }
  }

  method RebuildIndex(nodes: seq<ProofNode>) returns (index: map<(nat, Move), nat>)
    requires Linked(nodes) && AllKids(nodes)
    requires forall i: nat, c: nat, d: nat :: SameMove(nodes, i, c, d) ==> c == d
    ensures EdgesUpTo(nodes, index, |nodes|)
  {
    index := map[];
    for i := 0 to |nodes|
      invariant EdgesUpTo(nodes, index, i)
    {
      assert NodeLinked(nodes, i);
      if nodes[i].parent.Some? {
        var key := (nodes[i].parent.value, nodes[i].mv);
        assert key !in index by {
          if key in index {
            assert IsKidOfParent(nodes, i) && IsKidOfParent(nodes, index[key]);
            assert SameMove(nodes, key.0, i, index[key]);
          }
        }
        index := index[key := i];
      }
    }
  }

  lemma {:induction false} RebuiltPolar(t: Raw, b: Built, i: nat)
    requires Ready(t) && Faithful(t, b) && forall i: nat :: Polar(t.nodes, i)
    ensures Polar(b.nodes, i)
  {
    if i < |b.nodes| {
      forall c: nat | RealKid(b.nodes, i, c)
        ensures b.nodes[i].outcome.Some? && b.nodes[i].outcome != Some(Draw)
                && b.nodes[c].outcome == Some(b.nodes[i].outcome.value.Flip())
      {
        KidFacts(b.nodes, i, c);
        Alternates(t, b, c);
      }
      if b.nodes[i].outcome == Some(Win) {
        WinIsSingle(t, b, i);
        var cs := Children(b.nodes, i);
        forall c: nat, d: nat | RealKid(b.nodes, i, c) && RealKid(b.nodes, i, d)
          ensures c == d
        {
          var x :| 0 <= x < |cs| && cs[x] == c;
          var y :| 0 <= y < |cs| && cs[y] == d;
          assert x == 0 && y == 0;
        }
      }
    }
  }

  /** Depths aside, the installed tree is the rebuilt one. */
  lemma {:induction false} FinishedKeeps(t: Raw)
    requires Ready(t) && t.nodes[0].outcome.Some? && Tidy(t.nodes) && forall i: nat :: Polar(t.nodes, i)
    ensures var f := Finished(t);
            && Linked(f) && AllKids(f) && Tidy(f)
            && forall i: nat :: Polar(f, i)
  {
    hide Polar, Rebuilt;
    RebuiltFaithful(t);
    FinishedLinks(t);
    var b := Rebuilt(t);
    var f := Finished(t);
    SameLinksKids(b.nodes, f);
    RebuiltTidy(t, b);
    forall i | 0 < i < |f|
      ensures f[i].mv != NO_MOVE && IsKidOfParent(f, i)
    {
      RebuiltMoves(t, b, i);
      assert IsKidOfParent(b.nodes, i);
    }
    forall i: nat, c: nat, d: nat | SameMove(f, i, c, d)
      ensures c == d
    {
      assert SameMove(b.nodes, i, c, d);
    }
    forall i: nat
      ensures Polar(f, i)
    {
      RebuiltPolar(t, b, i);
      PolarFrame(b.nodes, f, i);
    }
  }

  lemma {:induction false} PolarFrame(a: seq<ProofNode>, b: seq<ProofNode>, i: nat)
    requires Linked(a) && Linked(b) && |a| == |b| && Polar(a, i)
    requires forall j :: 0 <= j < |a| ==> a[j].outcome == b[j].outcome
    requires forall i: nat, c: nat :: IsKid(b, i, c) <==> IsKid(a, i, c)
    ensures Polar(b, i)
  {
    forall c: nat | RealKid(b, i, c)
      ensures RealKid(a, i, c)
    {
      KidFacts(b, i, c);
    }
  }

  // ----- the worker's own finalisation -----

  /** The process exits when the root was never realised. */
  datatype Finalized = RootUnrealised | Installed(defects: nat)

  /** A decisive node with a positive depth and no children. */
  predicate Unexpanded(n: ProofNode)
  {
    n.outcome.Some? && n.outcome != Some(Draw) && n.depth != 0 && n.firstChild.None?
  }

  /** `f` is the canonical tree of the raw arena `nodes`. */
  ghost predicate IsFinished(nodes: seq<ProofNode>, f: seq<ProofNode>)
  {
    && Linked(nodes) && Tidy(nodes) && (exists canon: Canon :: IsCanon(nodes, canon))
    && forall canon: Canon :: IsCanon(nodes, canon) ==> CanonTree(nodes, canon, f)
  }

  ghost predicate CanonTree(nodes: seq<ProofNode>, canon: Canon, f: seq<ProofNode>)
    requires Linked(nodes)
  {
    Ready(Raw(nodes, canon)) && f == Finished(Raw(nodes, canon))
  }

  lemma {:induction false} FinishedAny(nodes: seq<ProofNode>, canon: Canon)
    requires Linked(nodes) && Tidy(nodes) && IsCanon(nodes, canon)
    ensures Ready(Raw(nodes, canon)) && IsFinished(nodes, Finished(Raw(nodes, canon)))
  {
    CanonReady(nodes, canon);
    var f := Finished(Raw(nodes, canon));
    forall other: Canon | IsCanon(nodes, other)
      ensures CanonTree(nodes, other, f)
    {
      CanonUnique(nodes, canon, other);
    }
  }

  /** Replace the arena by its canonical tree: the invariant holds again, the exit for
      unexpanded nodes cannot be reached, and the defect count is the validator's. */
  method FinalizeTree(w: ProofTreeWorker, g: Rules, root: Position) returns (r: Finalized)
    requires w.Valid() && Tidy(w.nodes) && g.Sane()
    modifies w`nodes, w`index
    ensures w.Valid() && Tidy(w.nodes)
    ensures r.RootUnrealised? <==> old(w.nodes)[0].outcome.None?
    ensures r.RootUnrealised? ==> w.Now() == old(w.Now())
    ensures r.Installed? ==>
              && IsFinished(old(w.nodes), w.nodes) && AllKids(w.nodes)
              && ValidateSound.LeavesAreZero(w.nodes)
              && r.defects == |Validate.Report(g, w.nodes, 0, root, [], {})|
  {
    if w.nodes[0].outcome.None? {
      return RootUnrealised;
    }
    hide IsFinished, Polar, Attached, Validate.Report;
    var newTree, defects := CanonicalTree(w.nodes, g, root);
    var index := RebuildIndex(newTree);
    EdgesExact(newTree, index);
    w.nodes, w.index := newTree, index;
    r := Installed(defects);
  }

  /** Choose twins, rebuild, recompute depths, look for unexpanded nodes, validate. */
  method CanonicalTree(nodes: seq<ProofNode>, g: Rules, root: Position) returns (f: seq<ProofNode>, defects: nat)
    requires Linked(nodes) && nodes[0].outcome.Some? && Tidy(nodes) && g.Sane()
    requires forall i: nat :: Polar(nodes, i)
    ensures IsFinished(nodes, f) && Linked(f) && AllKids(f) && Tidy(f) && forall i: nat :: Polar(f, i)
    ensures ValidateSound.LeavesAreZero(f) && defects == |Validate.Report(g, f, 0, root, [], {})|
  {
    var canon := BuildExpandedIndex(nodes);
    var t := Raw(nodes, canon);
    FinishedAny(nodes, canon);
    hide IsFinished, Polar, Validate.Report, Tidy;
    var newTree := RebuildTree(t);
    f := RecomputeDepths(newTree);
    FinishedKeeps(t);
    FinishedDepths(t);
    var unexpanded := FindUnexpanded(f);
    if unexpanded.Some? {
      assert false; // the process would exit here
    }
    var report := ValidateMachine.ValidateProofTree(g, Some(root), f);
    defects := |report|;
  }

  method FindUnexpanded(nodes: seq<ProofNode>) returns (at: Option<nat>)
    requires Linked(nodes)
    ensures at.Some? <==> exists i :: 0 <= i < |nodes| && Unexpanded(nodes[i])
    ensures ValidateSound.LeavesAreZero(nodes) ==> at.None?
  {
    for i := 0 to |nodes|
      invariant forall j :: 0 <= j < i ==> !Unexpanded(nodes[j])
    {
      if Unexpanded(nodes[i]) {
        assert NodeLinked(nodes, i) && Children(nodes, i) == [];
        return Some(i);
      }
    }
    at := None;
  }

  /** The worker thread: the first `split` events arrive one by one, then the finalise query
      drains the rest.  `over` says after which events the memory estimate is over budget. */
  method RunWorker(es: seq<Event>, split: nat, over: nat -> bool, g: Rules, root: Position)
    returns (w: ProofTreeWorker, r: Finalized, ghost n: nat)
    requires split <= |es| && RealPaths(es) && g.Sane()
    ensures fresh(w) && w.Valid() && n <= |es|
    ensures (forall i :: 0 <= i < |es| ==> !over(i)) ==> n == |es|
    ensures r.RootUnrealised? <==> Run(es, n).nodes[0].outcome.None?
    ensures r.Installed? ==>
              && IsFinished(Run(es, n).nodes, w.nodes)
              && ValidateSound.LeavesAreZero(w.nodes)
              && r.defects == |Validate.Report(g, w.nodes, 0, root, [], {})|
  {
    w := new ProofTreeWorker();
    n := 0;
    for i := 0 to split
      invariant fresh(w) && w.Valid() && n <= i && w.Now() == Run(es, n)
      invariant !w.memoryLimited ==> n == i
      invariant w.memoryLimited ==> exists j :: 0 <= j < i && over(j)
    {
      n := Receive(w, es, i, n, over);
    }
    for i := split to |es|
      invariant fresh(w) && w.Valid() && n <= i && w.Now() == Run(es, n)
      invariant !w.memoryLimited ==> n == i
      invariant w.memoryLimited ==> exists j :: 0 <= j < i && over(j)
    {
      n := Receive(w, es, i, n, over);
    }
    RunTidy(es, n);
    r := FinalizeTree(w, g, root);
  }

  method Receive(w: ProofTreeWorker, es: seq<Event>, i: nat, ghost n: nat, over: nat -> bool) returns (ghost m: nat)
    requires w.Valid() && i < |es| && n <= i && w.Now() == Run(es, n) && (!w.memoryLimited ==> n == i)
    modifies w
    ensures w.Valid() && m <= i + 1 && w.Now() == Run(es, m)
    ensures w.memoryLimited == (old(w.memoryLimited) || over(i))
    ensures !old(w.memoryLimited) ==> m == i + 1
  {
    m := if w.memoryLimited then n else i + 1;
    w.ProcessEvent(es[i], over(i));
  }
}
