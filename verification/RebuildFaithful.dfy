/** What the rebuilt arena is: every new node copies its source, lists exactly the source's
    realised children, and is cut only where its hash repeats on its path. */
module RebuildFaithful {
  import opened Game
  import opened Lists
  import opened Tree
  import opened Rebuild

  /** The realised children among the first `n`. */
  function RealKids(nodes: seq<ProofNode>, kids: seq<nat>, n: nat): (r: seq<nat>)
    requires Within(kids, 0, |nodes|) && n <= |kids|
    ensures forall k :: 0 <= k < |r| ==> r[k] < |nodes| && nodes[r[k]].outcome.Some? && r[k] in kids
  {
    if n == 0 then []
    else RealKids(nodes, kids, n - 1) + if nodes[kids[n - 1]].outcome.Some? then [kids[n - 1]] else []
  }

  /** The hashes from below the root down to `i`. */
  ghost function PathHashes(nodes: seq<ProofNode>, i: nat): seq<nat>
    requires Linked(nodes) && i < |nodes|
    decreases i
  {
    assert NodeLinked(nodes, i);
    if i == 0 then [] else PathHashes(nodes, nodes[i].parent.value) + [nodes[i].hash]
  }

  /** New node `c` stands for the raw child `k`. */
  predicate Stands(t: Raw, b: Built, c: nat, k: nat)
  {
    && c < |b.nodes| && c < |b.src| && k < |t.nodes| && t.nodes[k].outcome.Some?
    && b.src[c] == Eff(t, k) && b.nodes[c].mv == t.nodes[k].mv
  }

  /** The children of `p` stand for `ks`, newest first. */
  ghost predicate KidsAre(t: Raw, b: Built, p: nat, ks: seq<nat>)
    requires Formed(b) && p < |b.nodes|
  {
    var cs := Children(b.nodes, p);
    |cs| == |ks| && forall j :: 0 <= j < |ks| ==> Stands(t, b, cs[|ks| - 1 - j], ks[j])
  }

  ghost predicate Copies(t: Raw, b: Built, n: nat)
    requires Formed(b) && n < |b.nodes|
  {
    && b.src[n] < |t.nodes| && t.nodes[b.src[n]].outcome.Some?
    && b.nodes[n].hash == t.nodes[b.src[n]].hash && b.nodes[n].outcome == t.nodes[b.src[n]].outcome
  }

  ghost predicate ExpandedLike(t: Raw, b: Built, n: nat)
    requires Ready(t) && Formed(b) && n < |b.nodes| && b.src[n] < |t.nodes|
  {
    var kids := Children(t.nodes, b.src[n]);
    KidsAre(t, b, n, RealKids(t.nodes, kids, |kids|))
  }

  /** What holds of every finished node below the root. */
  ghost predicate Done(t: Raw, b: Built, n: nat)
    requires Ready(t) && Formed(b)
  {
    && 0 < n < |b.nodes| && Copies(t, b, n)
    && NodeLinked(b.nodes, n)
    && var above := PathHashes(b.nodes, b.nodes[n].parent.value);
       if b.cut[n] then Children(b.nodes, n) == [] && b.nodes[n].hash in above
       else b.nodes[n].hash !in above && ExpandedLike(t, b, n)
  }

  // ----- what a walk below `p` leaves alone -----

  ghost predicate Keeps(b: Built, r: Built, p: nat)
  {
    && |b.nodes| <= |r.nodes| && |b.src| <= |r.src| && |b.cut| <= |r.cut| && p < |b.nodes|
    && (forall i :: 0 <= i < |b.src| ==> r.src[i] == b.src[i])
    && (forall i :: 0 <= i < |b.cut| ==> r.cut[i] == b.cut[i])
    && (forall i :: 0 <= i < |b.nodes| && i != p ==> r.nodes[i] == b.nodes[i])
    && r.nodes[p] == b.nodes[p].(firstChild := r.nodes[p].firstChild)
  }

  lemma {:induction false} KeepsChildren(b: Built, r: Built, p: nat, i: nat)
    requires Formed(b) && Formed(r) && Keeps(b, r, p) && i < |b.nodes| && i != p
    ensures Children(r.nodes, i) == Children(b.nodes, i)
  {
    assert NodeLinked(b.nodes, i);
    assert forall c :: c in Children(b.nodes, i) ==> c < |b.nodes|;
    ChainFrame(b.nodes, r.nodes, b.nodes[i].firstChild);
  }

  lemma {:induction false} KeepsPath(b: Built, r: Built, p: nat, i: nat)
    requires Formed(b) && Formed(r) && Keeps(b, r, p) && i < |b.nodes|
    ensures PathHashes(r.nodes, i) == PathHashes(b.nodes, i)
    decreases i
  {
    assert NodeLinked(b.nodes, i);
    assert r.nodes[i].parent == b.nodes[i].parent && r.nodes[i].hash == b.nodes[i].hash;
    if i > 0 {
      KeepsPath(b, r, p, b.nodes[i].parent.value);
    }
  }

  lemma {:induction false} KeepsDone(t: Raw, b: Built, r: Built, p: nat, n: nat)
    requires Ready(t) && Formed(b) && Formed(r) && Keeps(b, r, p) && n != p && Done(t, b, n)
    ensures Done(t, r, n)
  {
    assert NodeLinked(b.nodes, n) && NodeLinked(r.nodes, n);
    KeepsChildren(b, r, p, n);
    KeepsPath(b, r, p, b.nodes[n].parent.value);
    if !b.cut[n] {
      var kids := Children(t.nodes, b.src[n]);
      KeepsKids(t, b, r, p, n, RealKids(t.nodes, kids, |kids|));
    }
  }

  lemma {:induction false} KeepsKids(t: Raw, b: Built, r: Built, p: nat, n: nat, ks: seq<nat>)
    requires Formed(b) && Formed(r) && Keeps(b, r, p) && n < |b.nodes| && n != p && KidsAre(t, b, n, ks)
    ensures KidsAre(t, r, n, ks)
  {
    KeepsChildren(b, r, p, n);
    var cs := Children(b.nodes, n);
    forall j | 0 <= j < |ks|
      ensures Stands(t, r, cs[|ks| - 1 - j], ks[j])
    {
      assert Stands(t, b, cs[|ks| - 1 - j], ks[j]);
    }
  }

  ghost predicate NewDone(t: Raw, b: Built, r: Built)
    requires Ready(t) && Formed(r)
  {
    forall n :: |b.nodes| <= n < |r.nodes| ==> Done(t, r, n)
  }

  // ----- one child and all children -----

  ghost predicate VisitPost(t: Raw, raw: nat, p: nat, mv: Move, b: Built, r: Built)
    requires Ready(t) && raw < |t.nodes| && Formed(b) && Formed(r) && p < |b.nodes|
  {
    && Keeps(b, r, p) && NewDone(t, b, r)
    && if t.nodes[raw].outcome.None? then r == b
       else
         && Children(r.nodes, p) == [|b.nodes|] + Children(b.nodes, p)
         && |b.nodes| < |r.nodes| && r.src[|b.nodes|] == Eff(t, raw) && r.nodes[|b.nodes|].mv == mv
  }

  ghost predicate VisitAllPost(t: Raw, kids: seq<nat>, i: nat, p: nat, b: Built, r: Built)
    requires Ready(t) && Within(kids, 1, |t.nodes|) && i <= |kids| && Formed(b) && Formed(r) && p < |b.nodes|
  {
    && Keeps(b, r, p) && NewDone(t, b, r)
    && (KidsAre(t, b, p, RealKids(t.nodes, kids, i)) ==> KidsAre(t, r, p, RealKids(t.nodes, kids, |kids|)))
  }

  lemma {:induction false} GrownFacts(t: Raw, p: nat, mv: Move, e: nat, cut: bool, b: Built)
    requires Formed(b) && p < |b.nodes| && e < |t.nodes|
    ensures var n := t.nodes[e];
            var r := Grown(b, p, mv, n.hash, n.outcome, n.depth, e, cut);
            && Formed(r) && Keeps(b, r, p)
            && Children(r.nodes, |b.nodes|) == [] && Children(r.nodes, p) == [|b.nodes|] + Children(b.nodes, p)
            && PathHashes(r.nodes, |b.nodes|) == PathHashes(b.nodes, p) + [n.hash]
            && r.nodes[|b.nodes|].parent == Some(p) && PathHashes(r.nodes, p) == PathHashes(b.nodes, p)
  {
    var n := t.nodes[e];
    var r := Grown(b, p, mv, n.hash, n.outcome, n.depth, e, cut);
    AddNodeChildren(b.nodes, p, mv, n.hash, n.outcome, n.depth);
    KeepsPath(b, r, p, p);
  }

  /** Adding the next realised child. */
  lemma {:induction false} NextKid(t: Raw, kids: seq<nat>, i: nat, p: nat, b: Built, r: Built)
    requires Ready(t) && Within(kids, 1, |t.nodes|) && i < |kids| && Formed(b) && Formed(r) && p < |b.nodes|
    requires VisitPost(t, kids[i], p, t.nodes[kids[i]].mv, b, r)
    requires KidsAre(t, b, p, RealKids(t.nodes, kids, i))
    ensures KidsAre(t, r, p, RealKids(t.nodes, kids, i + 1))
  {
    if t.nodes[kids[i]].outcome.Some? {
      var before := RealKids(t.nodes, kids, i);
      var after := RealKids(t.nodes, kids, i + 1);
      var cs := Children(b.nodes, p);
      var ds := Children(r.nodes, p);
      assert after == before + [kids[i]] && ds == [|b.nodes|] + cs;
      forall j | 0 <= j < |after|
        ensures Stands(t, r, ds[|after| - 1 - j], after[j])
      {
        if j < |before| {
          assert ds[|after| - 1 - j] == cs[|before| - 1 - j];
          assert Stands(t, b, cs[|before| - 1 - j], before[j]);
          assert cs[|before| - 1 - j] in cs;
        }
      }
    }
  }

  lemma {:induction false} KeepsTrans(b: Built, c: Built, r: Built, p: nat)
    requires Keeps(b, c, p) && Keeps(c, r, p)
    ensures Keeps(b, r, p)
  {
  }

  lemma {:induction false} NewDoneTrans(t: Raw, b: Built, c: Built, r: Built, p: nat)
    requires Ready(t) && Formed(c) && Formed(r) && NewDone(t, b, c) && NewDone(t, c, r) && Keeps(c, r, p)
             && p < |b.nodes|
    ensures NewDone(t, b, r)
  {
    forall n | |b.nodes| <= n < |r.nodes|
      ensures Done(t, r, n)
    {
      if n < |c.nodes| {
        KeepsDone(t, c, r, p, n);
      }
    }
  }

  /** A new node whose children have all been walked is done. */
  lemma {:induction false} CloseNode(t: Raw, p: nat, mv: Move, e: nat, b: Built, b1: Built, r: Built)
    requires Ready(t) && Formed(b) && Formed(b1) && Formed(r) && p < |b.nodes| && e < |t.nodes|
             && t.nodes[e].outcome.Some?
    requires t.nodes[e].hash !in PathHashes(b.nodes, p)
    requires b1 == Grown(b, p, mv, t.nodes[e].hash, t.nodes[e].outcome, t.nodes[e].depth, e, false)
    requires VisitAllPost(t, Children(t.nodes, e), 0, |b.nodes|, b1, r)
    ensures Keeps(b, r, p) && NewDone(t, b, r)
    ensures Children(r.nodes, p) == [|b.nodes|] + Children(b.nodes, p)
    ensures |b.nodes| < |r.nodes| && r.src[|b.nodes|] == e && r.nodes[|b.nodes|].mv == mv
  {
    var id := |b.nodes|;
    GrownFacts(t, p, mv, e, false, b);
    KeepsChildren(b1, r, id, p);
    KeepsPath(b1, r, id, p);
    assert KidsAre(t, b1, id, RealKids(t.nodes, Children(t.nodes, e), 0));
    assert Done(t, r, id) by {
      assert NodeLinked(r.nodes, id);
      assert ExpandedLike(t, r, id);
    }
  }

  lemma {:induction false} VisitFaithful(t: Raw, raw: nat, p: nat, mv: Move, hs: seq<nat>, b: Built)
    requires Ready(t) && raw < |t.nodes| && OnPath(t, hs) && Formed(b) && p < |b.nodes|
    requires mv != NO_MOVE && PathHashes(b.nodes, p) == hs
    ensures VisitPost(t, raw, p, mv, b, Visit(t, raw, p, mv, hs, b))
    decreases |Hashes(t.nodes)| - |hs|, 1, 0
  {
    hide PathHashes, Hashes;
    if t.nodes[raw].outcome.Some? {
      EffFacts(t, raw);
      var e := Eff(t, raw);
      var n := t.nodes[e];
      var id := |b.nodes|;
      GrownFacts(t, p, mv, e, n.hash in hs, b);
      if n.hash in hs {
        CutDone(t, p, mv, e, b);
      } else {
        PathGrows(t, hs, e);
        DistinctCount(hs + [n.hash], Hashes(t.nodes));
        var b1 := Grown(b, p, mv, n.hash, n.outcome, n.depth, e, false);
        VisitAllFaithful(t, Children(t.nodes, e), 0, id, hs + [n.hash], b1);
        CloseNode(t, p, mv, e, b, b1, Visit(t, raw, p, mv, hs, b));
      }
    }
  }

  lemma {:induction false} CutDone(t: Raw, p: nat, mv: Move, e: nat, b: Built)
    requires Ready(t) && Formed(b) && p < |b.nodes| && e < |t.nodes| && t.nodes[e].outcome.Some?
    requires t.nodes[e].hash in PathHashes(b.nodes, p)
    ensures var n := t.nodes[e];
            var r := Grown(b, p, mv, n.hash, n.outcome, n.depth, e, true);
            Formed(r) && Done(t, r, |b.nodes|)
  {
    GrownFacts(t, p, mv, e, true, b);
    var r := Grown(b, p, mv, t.nodes[e].hash, t.nodes[e].outcome, t.nodes[e].depth, e, true);
    assert NodeLinked(r.nodes, |b.nodes|);
  }

  lemma {:induction false} VisitAllFaithful(t: Raw, kids: seq<nat>, i: nat, p: nat, hs: seq<nat>, b: Built)
    requires Ready(t) && Within(kids, 1, |t.nodes|) && i <= |kids| && OnPath(t, hs) && Formed(b) && p < |b.nodes|
    requires PathHashes(b.nodes, p) == hs
    ensures VisitAllPost(t, kids, i, p, b, VisitAll(t, kids, i, p, hs, b))
    decreases |Hashes(t.nodes)| - |hs|, 2, |kids| - i
  {
    if i < |kids| {
      var mv := t.nodes[kids[i]].mv;
      VisitFaithful(t, kids[i], p, mv, hs, b);
      var c := Visit(t, kids[i], p, mv, hs, b);
      KeepsPath(b, c, p, p);
      VisitAllFaithful(t, kids, i + 1, p, hs, c);
      var r := VisitAll(t, kids, i + 1, p, hs, c);
      KeepsTrans(b, c, r, p);
      NewDoneTrans(t, b, c, r, p);
      if KidsAre(t, b, p, RealKids(t.nodes, kids, i)) {
        NextKid(t, kids, i, p, b, c);
      }
    }
  }
}
