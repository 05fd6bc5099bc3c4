/** Finalising the merged tree: recomputed bounds, the consistency checks and row ids. */
module PathDepth {
  import opened Game
  import opened Paths

  function Least(ds: seq<nat>): (m: nat)
    requires ds != []
    ensures exists k :: 0 <= k < |ds| && ds[k] == m
    ensures forall k :: 0 <= k < |ds| ==> m <= ds[k]
  {
    if |ds| == 1 then ds[0]
    else
      var r := Least(ds[..|ds| - 1]);
      if ds[|ds| - 1] < r then ds[|ds| - 1] else r
  }

  function Greatest(ds: seq<nat>): (m: nat)
    requires ds != []
    ensures exists k :: 0 <= k < |ds| && ds[k] == m
    ensures forall k :: 0 <= k < |ds| ==> ds[k] <= m
  {
    if |ds| == 1 then ds[0]
    else
      var r := Greatest(ds[..|ds| - 1]);
      if r < ds[|ds| - 1] then ds[|ds| - 1] else r
  }

  // ----- bounds -----

  /** The bounds of the Loss children among the first `n`. */
  function LossBounds(nodes: seq<PathNode>, ids: seq<nat>, bs: seq<nat>, n: nat): (r: seq<nat>)
    requires n <= |ids| == |bs| && forall k :: 0 <= k < |ids| ==> ids[k] < |nodes|
    ensures forall x :: x in r <==> exists k :: 0 <= k < n && IsLossBound(nodes, ids, bs, k, x)
  {
    if n == 0 then []
    else
      var front := LossBounds(nodes, ids, bs, n - 1);
      assert forall x, k :: 0 <= k < n - 1 && IsLossBound(nodes, ids, bs, k, x) ==> x in front;
      if nodes[ids[n - 1]].outcome == Some(Loss) then
        assert IsLossBound(nodes, ids, bs, n - 1, bs[n - 1]);
        front + [bs[n - 1]]
      else front
  }

  predicate IsLossBound(nodes: seq<PathNode>, ids: seq<nat>, bs: seq<nat>, k: nat, x: nat)
    requires k < |ids| == |bs| && ids[k] < |nodes|
  {
    nodes[ids[k]].outcome == Some(Loss) && bs[k] == x
  }

  ghost function KidBounds(nodes: seq<PathNode>, i: nat): (bs: seq<nat>)
    requires Shaped(nodes) && i < |nodes|
    ensures |bs| == |Kids(nodes, i)|
    decreases |nodes| - i, 0
  {
    KidsWithin(nodes, i);
    var ids := Kids(nodes, i);
    seq(|ids|, k requires 0 <= k < |ids| => Bound(nodes, ids[k]))
  }

  /** The depth bound the merged structure proves. */
  ghost function Bound(nodes: seq<PathNode>, i: nat): nat
    requires Shaped(nodes) && i < |nodes|
    decreases |nodes| - i, 1
  {
    KidsWithin(nodes, i);
    if nodes[i].outcome.None? || nodes[i].children == map[] then 0
    else BoundFrom(nodes, nodes[i].outcome.value, Kids(nodes, i), KidBounds(nodes, i))
  }

  function BoundFrom(nodes: seq<PathNode>, o: Outcome, ids: seq<nat>, bs: seq<nat>): nat
    requires |ids| == |bs| > 0 && forall k :: 0 <= k < |ids| ==> ids[k] < |nodes|
  {
    if o == Win then
      var ls := LossBounds(nodes, ids, bs, |ids|);
      if ls == [] then 0 else Least(ls) + 1
    else Greatest(bs) + 1
  }

  ghost predicate HasLossKid(nodes: seq<PathNode>, i: nat)
    requires Shaped(nodes) && i < |nodes|
  {
    KidsWithin(nodes, i);
    exists k :: 0 <= k < |Kids(nodes, i)| && nodes[Kids(nodes, i)[k]].outcome == Some(Loss)
  }

  ghost predicate AllWinKids(nodes: seq<PathNode>, i: nat)
    requires Shaped(nodes) && i < |nodes|
  {
    KidsWithin(nodes, i);
    forall k :: 0 <= k < |Kids(nodes, i)| ==> nodes[Kids(nodes, i)[k]].outcome == Some(Win)
  }

  /** The checks of one node: a proven Win has a Loss child, a proven Loss only Win children,
      and every exact claim is what the structure proves. */
  ghost predicate NodeOk(nodes: seq<PathNode>, i: nat)
    requires Shaped(nodes) && i < |nodes|
  {
    && (nodes[i].outcome == Some(Win) && nodes[i].children != map[] ==> HasLossKid(nodes, i))
    && (nodes[i].outcome == Some(Loss) && nodes[i].children != map[] ==> AllWinKids(nodes, i))
    && forall k :: 0 <= k < |nodes[i].claims| ==> nodes[i].claims[k] == Bound(nodes, i)
  }

  ghost predicate NoDraws(nodes: seq<PathNode>)
  {
    forall i :: 0 <= i < |nodes| ==> nodes[i].outcome != Some(Draw)
  }

  ghost predicate Memo(nodes: seq<PathNode>, depth: seq<nat>, computed: seq<bool>)
    requires Shaped(nodes)
  {
    && |depth| == |computed| == |nodes|
    && forall k :: 0 <= k < |nodes| && computed[k] ==> depth[k] == Bound(nodes, k) && NodeOk(nodes, k)
  }

  ghost predicate StillComputed(a: seq<bool>, b: seq<bool>)
  {
    |a| == |b| && forall k :: 0 <= k < |a| && a[k] ==> b[k]
  }

  ghost predicate SomeBad(nodes: seq<PathNode>)
    requires Shaped(nodes)
  {
    exists k :: 0 <= k < |nodes| && !NodeOk(nodes, k)
  }

  /** The bound from the children's depths; nothing if a check fails. */
  method BoundFromKids(nodes: seq<PathNode>, o: Outcome, ids: seq<nat>, ds: seq<nat>) returns (r: Option<nat>)
    requires |ids| == |ds| > 0 && (o == Win || o == Loss) && (forall k :: 0 <= k < |ids| ==> ids[k] < |nodes|)
             && NoDraws(nodes)
    ensures r.Some? <==> if o == Win then exists k :: 0 <= k < |ids| && nodes[ids[k]].outcome == Some(Loss)
                         else forall k :: 0 <= k < |ids| ==> nodes[ids[k]].outcome == Some(Win)
    ensures r.Some? ==> r.value == BoundFrom(nodes, o, ids, ds)
  {
    hide Least, Greatest;
    var proven: seq<nat> := [];
    var losses: seq<nat> := [];
    for k := 0 to |ids|
      invariant losses == LossBounds(nodes, ids, ds, k)
      invariant o == Loss ==> proven == ds[..k] && forall x :: 0 <= x < k ==> nodes[ids[x]].outcome == Some(Win)
    {
      var below := nodes[ids[k]].outcome;
      if below == Some(Loss) {
        if o == Loss {
          return None;
        }
        proven, losses := proven + [ds[k]], losses + [ds[k]];
      } else if below == Some(Win) {
        proven := proven + [ds[k]];
      } else if o == Loss {
        return None;
      }
    }
    LossListed(nodes, ids, ds);
    if o == Win {
      if losses == [] {
        return None;
      }
      r := Some(Least(losses) + 1);
    } else {
      assert ds[..|ids|] == ds;
      r := Some(Greatest(proven) + 1);
    }
  }

  lemma {:induction false} LossListed(nodes: seq<PathNode>, ids: seq<nat>, ds: seq<nat>)
    requires |ids| == |ds| && forall k :: 0 <= k < |ids| ==> ids[k] < |nodes|
    ensures |LossBounds(nodes, ids, ds, |ids|)| > 0 <==>
        exists k :: 0 <= k < |ids| && nodes[ids[k]].outcome == Some(Loss)
  {
    var ls := LossBounds(nodes, ids, ds, |ids|);
    if k :| 0 <= k < |ids| && nodes[ids[k]].outcome == Some(Loss) {
      assert IsLossBound(nodes, ids, ds, k, ds[k]);
      assert ds[k] in ls;
    }
    if |ls| > 0 {
      assert ls[0] in ls;
      var k: nat :| k < |ids| && IsLossBound(nodes, ids, ds, k, ls[0]);
      assert nodes[ids[k]].outcome == Some(Loss);
    }
  }

  /** Compute the children first, then the node. */
  method ComputeDepth(nodes: seq<PathNode>, i: nat, depth: array<nat>, computed: array<bool>) returns (ok: bool)
    requires Shaped(nodes) && NoDraws(nodes) && i < |nodes| && Memo(nodes, depth[..], computed[..])
    modifies depth, computed
    ensures Memo(nodes, depth[..], computed[..]) && StillComputed(old(computed[..]), computed[..])
    ensures ok ==> computed[i]
    ensures !ok ==> SomeBad(nodes)
    decreases |nodes| - i, 1
  {
    hide NodeOk, BoundFrom;
    if computed[i] {
      return true;
    }
    var n := nodes[i];
    var bound := 0;
    if n.outcome.Some? {
      var fine := ComputeKids(nodes, i, depth, computed);
      if !fine {
        return false;
      }
      KidsWithin(nodes, i);
      var ids := Kids(nodes, i);
      if |ids| != 0 {
        var ds := seq(|ids|, k requires 0 <= k < |ids| reads depth => depth[ids[k]]);
        assert ds == KidBounds(nodes, i);
        var r := BoundFromKids(nodes, n.outcome.value, ids, ds);
        if r.None? {
          KidsBad(nodes, i);
          return false;
        }
        bound := r.value;
      }
      KidsFine(nodes, i);
    } else {
      KidsFine(nodes, i);
    }
    ok := Claimed(nodes, i, bound);
    if ok {
      depth[i], computed[i] := bound, true;
    }
  }

  method ComputeKids(nodes: seq<PathNode>, i: nat, depth: array<nat>, computed: array<bool>) returns (ok: bool)
    requires Shaped(nodes) && NoDraws(nodes) && i < |nodes| && Memo(nodes, depth[..], computed[..])
    modifies depth, computed
    ensures Memo(nodes, depth[..], computed[..]) && StillComputed(old(computed[..]), computed[..])
    ensures ok ==> forall k :: 0 <= k < |Kids(nodes, i)| ==> Kids(nodes, i)[k] < |nodes| && computed[Kids(nodes, i)[k]]
    ensures !ok ==> SomeBad(nodes)
    decreases |nodes| - i, 0
  {
    hide Memo, Kids, SomeBad;
    KidsWithin(nodes, i);
    var ids := Kids(nodes, i);
    ghost var before := computed[..];
    SameLength(nodes, depth[..], computed[..]);
    for k := 0 to |ids|
      invariant Memo(nodes, depth[..], computed[..]) && StillComputed(before, computed[..])
                && computed.Length == |nodes|
      invariant forall x :: 0 <= x < k ==> computed[ids[x]]
    {
      ghost var mid := computed[..];
      var fine := ComputeDepth(nodes, ids[k], depth, computed);
      assert forall x :: 0 <= x < k ==> mid[ids[x]];
      if !fine {
        return false;
      }
    }
    ok := true;
  }

  lemma {:induction false} SameLength(nodes: seq<PathNode>, depth: seq<nat>, computed: seq<bool>)
    requires Shaped(nodes) && Memo(nodes, depth, computed)
    ensures |computed| == |nodes|
  {
  }

  ghost predicate KidsOk(nodes: seq<PathNode>, i: nat)
    requires Shaped(nodes) && i < |nodes|
  {
    && (nodes[i].outcome == Some(Win) && nodes[i].children != map[] ==> HasLossKid(nodes, i))
    && (nodes[i].outcome == Some(Loss) && nodes[i].children != map[] ==> AllWinKids(nodes, i))
  }

  lemma {:induction false} KidsBad(nodes: seq<PathNode>, i: nat)
    requires Shaped(nodes) && i < |nodes| && !KidsOk(nodes, i)
    ensures SomeBad(nodes)
  {
    assert !NodeOk(nodes, i);
  }

  lemma {:induction false} KidsFine(nodes: seq<PathNode>, i: nat)
    requires Shaped(nodes) && i < |nodes|
    ensures nodes[i].outcome.None? ==> KidsOk(nodes, i)
    ensures nodes[i].children == map[] ==> KidsOk(nodes, i)
  {
  }

  method Claimed(nodes: seq<PathNode>, i: nat, bound: nat) returns (ok: bool)
    requires Shaped(nodes) && i < |nodes| && bound == Bound(nodes, i) && KidsOk(nodes, i)
    ensures ok <==> NodeOk(nodes, i)
    ensures !ok ==> SomeBad(nodes)
  {
    hide Bound;
    var claims := nodes[i].claims;
    for k := 0 to |claims|
      invariant forall x :: 0 <= x < k ==> claims[x] == bound
    {
      if claims[k] != bound {
        assert !NodeOk(nodes, i);
        return false;
      }
    }
    ok := true;
  }

  /** All bounds; refused exactly when some node fails its checks. */
  method FindBounds(nodes: seq<PathNode>) returns (ok: bool, depths: seq<nat>)
    requires Shaped(nodes) && NoDraws(nodes)
    ensures ok <==> forall i :: 0 <= i < |nodes| ==> NodeOk(nodes, i)
    ensures ok ==> |depths| == |nodes| && forall i :: 0 <= i < |nodes| ==> depths[i] == Bound(nodes, i)
  {
    hide NodeOk, Bound;
    var depth := new nat[|nodes|](i => 0);
    var computed := new bool[|nodes|](i => false);
    depths := [];
    for i := 0 to |nodes|
      invariant Memo(nodes, depth[..], computed[..])
      invariant forall k :: 0 <= k < i ==> computed[k]
    {
      ghost var before := computed[..];
      var fine := ComputeDepth(nodes, i, depth, computed);
      if !fine {
        return false, depths;
      }
      assert forall k :: 0 <= k < i ==> before[k];
    }
    ok, depths := true, depth[..];
  }
}
