/** The finished tree: height, alternation, and the depths of the last pass. */
module RebuildResult {
  import opened Game
  import opened Lists
  import opened Tree
  import opened Rebuild
  import opened RebuildFaithful
  import Validate
  import ValidateSound
  import opened WorkerInvariant

  function StartTree(t: Raw): (b: Built)
    requires |t.nodes| > 0
  {
    var n := t.nodes[0];
    Built([ProofNode(None, None, None, NO_MOVE, n.hash, n.outcome, n.depth)], [0], [false])
  }

  lemma {:induction false} StartFormed(t: Raw)
    requires |t.nodes| > 0
    ensures Formed(StartTree(t)) && Children(StartTree(t).nodes, 0) == []
  {
    assert NodeLinked(StartTree(t).nodes, 0);
  }

  ghost function Rebuilt(t: Raw): (r: Built)
    requires Ready(t)
    ensures Formed(r)
  {
    StartFormed(t);
    Visit(t, 0, 0, NO_MOVE, [], StartTree(t))
  }

  /** Every node is on its parent's chain. */
  ghost predicate AllKids(nodes: seq<ProofNode>)
    requires Linked(nodes)
  {
    forall n :: 0 < n < |nodes| ==> IsKidOfParent(nodes, n)
  }

  ghost predicate IsKidOfParent(nodes: seq<ProofNode>, n: nat)
    requires Linked(nodes) && n < |nodes|
  {
    nodes[n].parent.Some? && IsKid(nodes, nodes[n].parent.value, n)
  }

  lemma {:induction false} AddNodeAllKids(nodes: seq<ProofNode>, p: nat, mv: Move, hash: nat, o: Option<Outcome>,
          d: U32)
    requires Linked(nodes) && p < |nodes| && AllKids(nodes)
    ensures AllKids(AddNode(nodes, p, mv, hash, o, d))
  {
    var r := AddNode(nodes, p, mv, hash, o, d);
    AddNodeKids(nodes, p, mv, hash, o, d);
    forall n | 0 < n < |r|
      ensures IsKidOfParent(r, n)
    {
      if n < |nodes| {
        assert IsKidOfParent(nodes, n);
      }
    }
  }

  lemma {:induction false} RootedAllKids(t: Raw, b: Built, e: nat)
    requires Ready(t) && Formed(b) && e < |t.nodes| && AllKids(b.nodes)
    ensures Formed(Rooted(t, b, e)) && AllKids(Rooted(t, b, e).nodes)
  {
    RootedFormed(t, b, e);
    var r := Rooted(t, b, e).nodes;
    SameLinksKids(b.nodes, r);
    forall n | 0 < n < |r|
      ensures IsKidOfParent(r, n)
    {
      assert IsKidOfParent(b.nodes, n);
    }
  }

  lemma {:induction false} VisitAllKids(t: Raw, raw: nat, p: nat, mv: Move, hs: seq<nat>, b: Built)
    requires Ready(t) && raw < |t.nodes| && OnPath(t, hs) && Formed(b) && p < |b.nodes| && AllKids(b.nodes)
    ensures AllKids(Visit(t, raw, p, mv, hs, b).nodes)
    decreases |Hashes(t.nodes)| - |hs|, if IsRootEdge(p, mv) then 3 else 1, 0
  {
    hide AllKids;
    if t.nodes[raw].outcome.Some? {
      EffFacts(t, raw);
      var e := Eff(t, raw);
      var n := t.nodes[e];
      if IsRootEdge(p, mv) {
        RootedFormed(t, b, e);
        RootedAllKids(t, b, e);
        ListAllKids(t, Children(t.nodes, e), 0, 0, hs, Rooted(t, b, e));
      } else {
        AddNodeAllKids(b.nodes, p, mv, n.hash, n.outcome, n.depth);
        if n.hash !in hs {
          PathGrows(t, hs, e);
          DistinctCount(hs + [n.hash], Hashes(t.nodes));
          ListAllKids(t, Children(t.nodes, e), 0, |b.nodes|, hs + [n.hash],
                      Grown(b, p, mv, n.hash, n.outcome, n.depth, e, false));
        }
      }
    }
  }

  lemma {:induction false} ListAllKids(t: Raw, kids: seq<nat>, i: nat, p: nat, hs: seq<nat>, b: Built)
    requires Ready(t) && Within(kids, 1, |t.nodes|) && i <= |kids| && OnPath(t, hs) && Formed(b) && p < |b.nodes|
    requires AllKids(b.nodes)
    ensures AllKids(VisitAll(t, kids, i, p, hs, b).nodes)
    decreases |Hashes(t.nodes)| - |hs|, 2, |kids| - i
  {
    hide AllKids;
    if i < |kids| {
      var mv := t.nodes[kids[i]].mv;
      VisitAllKids(t, kids[i], p, mv, hs, b);
      ListAllKids(t, kids, i + 1, p, hs, Visit(t, kids[i], p, mv, hs, b));
    }
  }

  /** The rebuilt arena copies its sources, node for node and child for child. */
  ghost predicate Faithful(t: Raw, b: Built)
    requires Ready(t)
  {
    && Formed(b) && AllKids(b.nodes) && b.nodes[0].mv == NO_MOVE
    && t.nodes[0].outcome.Some? && b.src[0] == Eff(t, 0) && !b.cut[0] && Copies(t, b, 0) && ExpandedLike(t, b, 0)
    && forall n :: 0 < n < |b.nodes| ==> Done(t, b, n)
  }

  lemma {:induction false} RebuiltFaithful(t: Raw)
    requires Ready(t) && t.nodes[0].outcome.Some?
    ensures Faithful(t, Rebuilt(t))
  {
    StartFormed(t);
    EffFacts(t, 0);
    var e := Eff(t, 0);
    var s := StartTree(t);
    RootedFormed(t, s, e);
    var b := Rooted(t, s, e);
    SameLinksKids(s.nodes, b.nodes);
    var kids := Children(t.nodes, e);
    assert KidsAre(t, b, 0, RealKids(t.nodes, kids, 0));
    VisitAllFaithful(t, kids, 0, 0, [], b);
    var r := VisitAll(t, kids, 0, 0, [], b);
    assert r == Rebuilt(t);
    assert AllKids(s.nodes);
    VisitAllKids(t, 0, 0, NO_MOVE, [], s);
    assert |b.nodes| == 1;
  }

  /** A cut node has no children, so the parent of a node was expanded. */
  lemma {:induction false} ParentExpanded(t: Raw, b: Built, n: nat) returns (p: nat, k: nat)
    requires Ready(t) && Faithful(t, b) && 0 < n < |b.nodes|
    ensures p < n && b.nodes[n].parent == Some(p) && !b.cut[p] && Copies(t, b, p) && ExpandedLike(t, b, p)
    ensures k in RealKids(t.nodes, Children(t.nodes, b.src[p]), |Children(t.nodes, b.src[p])|) && Stands(t, b, n, k)
  {
    assert IsKidOfParent(b.nodes, n);
    p := b.nodes[n].parent.value;
    KidFacts(b.nodes, p, n);
    WasExpanded(t, b, p, n);
    k := KidFor(t, b, p, n);
  }

  lemma {:induction false} WasExpanded(t: Raw, b: Built, p: nat, n: nat)
    requires Ready(t) && Faithful(t, b) && IsKid(b.nodes, p, n)
    ensures p < |b.nodes| && !b.cut[p] && Copies(t, b, p) && ExpandedLike(t, b, p)
  {
    KidFacts(b.nodes, p, n);
    if p > 0 {
      assert Done(t, b, p);
    }
  }

  lemma {:induction false} KidFor(t: Raw, b: Built, p: nat, n: nat) returns (k: nat)
    requires Ready(t) && Formed(b) && IsKid(b.nodes, p, n) && p < |b.nodes|
    requires b.src[p] < |t.nodes| && ExpandedLike(t, b, p)
    ensures k in RealKids(t.nodes, Children(t.nodes, b.src[p]), |Children(t.nodes, b.src[p])|) && Stands(t, b, n, k)
  {
    hide Stands, RealKids;
    var cs := Children(b.nodes, p);
    var kids := Children(t.nodes, b.src[p]);
    var ks := RealKids(t.nodes, kids, |kids|);
    assert KidsAre(t, b, p, ks);
    var i :| 0 <= i < |cs| && cs[i] == n;
    var j := |ks| - 1 - i;
    assert Stands(t, b, cs[|ks| - 1 - j], ks[j]);
    k := ks[j];
  }

  ghost predicate AllIn(hs: seq<nat>, all: set<nat>)
  {
    forall i :: 0 <= i < |hs| ==> hs[i] in all
  }

  lemma {:induction false} PathDistinct(t: Raw, b: Built, n: nat)
    requires Ready(t) && Faithful(t, b) && n < |b.nodes|
    ensures AllIn(PathHashes(b.nodes, n), Hashes(t.nodes))
    ensures !b.cut[n] ==> Distinct(PathHashes(b.nodes, n))
    ensures b.cut[n] ==>
              && n > 0 && b.nodes[n].parent.Some? && b.nodes[n].parent.value < n
              && Distinct(PathHashes(b.nodes, b.nodes[n].parent.value))
    decreases n
  {
    if n > 0 {
      var p, k := ParentExpanded(t, b, n);
      assert Done(t, b, n);
      PathDistinct(t, b, p);
    }
  }

  /** Cutting bounds the height by the number of hashes plus one. */
  lemma {:induction false} HeightBounded(t: Raw, b: Built, n: nat)
    requires Ready(t) && Faithful(t, b) && n < |b.nodes|
    ensures |PathHashes(b.nodes, n)| <= |Hashes(t.nodes)| + 1
  {
    PathDistinct(t, b, n);
    if b.cut[n] {
      var p := b.nodes[n].parent.value;
      PathDistinct(t, b, p);
      DistinctCount(PathHashes(b.nodes, p), Hashes(t.nodes));
    } else {
      DistinctCount(PathHashes(b.nodes, n), Hashes(t.nodes));
    }
  }

  lemma {:induction false} RealKidHas(nodes: seq<ProofNode>, i: nat, k: nat)
    requires Linked(nodes) && i < |nodes| && k in RealKids(nodes, Children(nodes, i), |Children(nodes, i)|)
    ensures RealKid(nodes, i, k)
  {
  }

  /** Win and Loss alternate along every edge of the rebuilt tree. */
  lemma {:induction false} Alternates(t: Raw, b: Built, n: nat)
    requires Ready(t) && Faithful(t, b) && 0 < n < |b.nodes|
    requires forall i: nat :: Polar(t.nodes, i)
    ensures b.nodes[n].parent.Some?
    ensures var p := b.nodes[n].parent.value;
            p < n && b.nodes[p].outcome.Some? && b.nodes[p].outcome != Some(Draw)
            && b.nodes[n].outcome == Some(b.nodes[p].outcome.value.Flip())
  {
    var p, k := ParentExpanded(t, b, n);
    RealKidHas(t.nodes, b.src[p], k);
    assert Polar(t.nodes, b.src[p]);
    EffFacts(t, k);
    assert Done(t, b, n);
  }

  lemma {:induction false} RealKidsDescend(nodes: seq<ProofNode>, kids: seq<nat>, n: nat)
    requires Within(kids, 0, |nodes|) && n <= |kids| && Descending(kids)
    ensures Descending(RealKids(nodes, kids, n))
    ensures forall k :: 0 <= k < |RealKids(nodes, kids, n)| ==> n > 0 && kids[n - 1] <= RealKids(nodes, kids, n)[k]
  {
    if n > 0 {
      RealKidsDescend(nodes, kids, n - 1);
      var before := RealKids(nodes, kids, n - 1);
      assert forall k :: 0 <= k < |before| ==> kids[n - 1] < before[k];
    }
  }

  lemma {:induction false} OneRealKid(nodes: seq<ProofNode>, i: nat)
    requires Linked(nodes) && i < |nodes| && Polar(nodes, i) && nodes[i].outcome == Some(Win)
    ensures |RealKids(nodes, Children(nodes, i), |Children(nodes, i)|)| <= 1
  {
    var kids := Children(nodes, i);
    var ks := RealKids(nodes, kids, |kids|);
    ChildrenDescending(nodes, i);
    RealKidsDescend(nodes, kids, |kids|);
    if |ks| > 1 {
      RealKidHas(nodes, i, ks[0]);
      RealKidHas(nodes, i, ks[1]);
      assert false;
    }
  }

  /** A Win node of the rebuilt tree has at most one child. */
  lemma {:induction false} WinIsSingle(t: Raw, b: Built, n: nat)
    requires Ready(t) && Faithful(t, b) && n < |b.nodes| && b.nodes[n].outcome == Some(Win)
    requires forall i: nat :: Polar(t.nodes, i)
    ensures |Children(b.nodes, n)| <= 1
  {
    hide Polar;
    if n > 0 {
      assert Done(t, b, n);
    }
    if !b.cut[n] {
      assert Polar(t.nodes, b.src[n]);
      OneRealKid(t.nodes, b.src[n]);
      assert ExpandedLike(t, b, n);
    }
  }

  // ----- the depth pass -----

  /** Every node with the depth its subtree implies. */
  function WithDepths(nodes: seq<ProofNode>): (r: seq<ProofNode>)
    requires Linked(nodes)
  {
    seq(|nodes|, i requires 0 <= i < |nodes| => nodes[i].(depth := Validate.Expected(nodes, i)))
  }

  /** The bottom-up depth ignores the stored depths. */
  lemma {:induction false} ExpectedFrame(a: seq<ProofNode>, b: seq<ProofNode>, i: nat)
    requires Linked(a) && Linked(b) && SameLinks(a, b) && i < |a|
    requires forall j :: 0 <= j < |a| ==> a[j].outcome == b[j].outcome
    ensures Validate.Expected(b, i) == Validate.Expected(a, i)
    decreases |a| - i
  {
    SameLinksKids(a, b);
    var kids := Children(a, i);
    forall k | 0 <= k < |kids|
      ensures Validate.Expected(b, kids[k]) == Validate.Expected(a, kids[k])
    {
      ExpectedFrame(a, b, kids[k]);
    }
    assert seq(|kids|, j requires 0 <= j < |kids| => Validate.Expected(b, kids[j]))
        == seq(|kids|, j requires 0 <= j < |kids| => Validate.Expected(a, kids[j]));
  }

  /** What finalisation installs. */
  ghost function Finished(t: Raw): seq<ProofNode>
    requires Ready(t)
  {
    WithDepths(Rebuilt(t).nodes)
  }

  lemma {:induction false} FinishedLinks(t: Raw)
    requires Ready(t)
    ensures SameLinks(Rebuilt(t).nodes, Finished(t)) && Linked(Finished(t))
    ensures forall i :: 0 <= i < |Finished(t)| ==> Finished(t)[i] == Rebuilt(t).nodes[i].(depth := Finished(t)[i].depth)
    ensures forall i :: 0 <= i < |Finished(t)| ==> Children(Finished(t), i) == Children(Rebuilt(t).nodes, i)
  {
    SameLinksKids(Rebuilt(t).nodes, Finished(t));
  }

  lemma {:induction false} ProvenPositive(o: Outcome, ds: seq<U32>)
    requires o != Draw && ds != []
    ensures ProvenDepth(Some(o), ds) > 0
  {
  }

  lemma {:induction false} ExpectedPositive(nodes: seq<ProofNode>, i: nat)
    requires Linked(nodes) && i < |nodes|
    requires Children(nodes, i) != [] ==> nodes[i].outcome.Some? && nodes[i].outcome != Some(Draw)
    ensures Validate.Expected(nodes, i) == 0 <==> Children(nodes, i) == []
  {
    var kids := Children(nodes, i);
    if kids != [] {
      ProvenPositive(nodes[i].outcome.value,
          seq(|kids|, j requires 0 <= j < |kids| => Validate.Expected(nodes, kids[j])));
    }
  }

  lemma {:induction false} ParentsDecide(t: Raw, b: Built, i: nat)
    requires Ready(t) && Faithful(t, b) && i < |b.nodes| && Children(b.nodes, i) != []
    requires forall i: nat :: Polar(t.nodes, i)
    ensures b.nodes[i].outcome.Some? && b.nodes[i].outcome != Some(Draw)
  {
    hide Polar;
    var c := Children(b.nodes, i)[0];
    assert IsKid(b.nodes, i, c);
    KidFacts(b.nodes, i, c);
    Alternates(t, b, c);
  }

  /** The installed tree stores exactly the bottom-up depths, and depth 0 exactly at its
      leaves: the validator cannot find a depth defect in it, and the "unexpanded internal
      node" exit after the depth pass cannot be taken. */
  lemma {:induction false} FinishedDepths(t: Raw)
    requires Ready(t) && t.nodes[0].outcome.Some? && forall i: nat :: Polar(t.nodes, i)
    ensures var f := Finished(t);
            && Linked(f) && ValidateSound.LeavesAreZero(f)
            && forall i :: 0 <= i < |f| ==> f[i].depth == Validate.Expected(f, i)
  {
    hide Polar, Faithful, Rebuilt;
    FinishedLinks(t);
    RebuiltFaithful(t);
    var b := Rebuilt(t);
    var f := Finished(t);
    forall i | 0 <= i < |f|
      ensures f[i].depth == Validate.Expected(f, i)
      ensures f[i].depth == 0 <==> Children(f, i) == []
    {
      ExpectedFrame(b.nodes, f, i);
      if Children(f, i) != [] {
        ParentsDecide(t, b, i);
      }
      ExpectedPositive(f, i);
    }
  }
}
