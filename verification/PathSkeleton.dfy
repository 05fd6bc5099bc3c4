/** Reassembling the proof skeleton of a merged node: one cheapest losing reply under a Win,
    every reply under a Loss. */
module PathSkeleton {
  import opened Game
  import opened Tree
  import opened Paths
  import opened PathDepth
  import opened PathOrder
  import opened PathSame
  import opened PathTruth

  /** The first Loss child of least bound among the first `n`. */
  function Best(nodes: seq<PathNode>, ids: seq<nat>, bs: seq<nat>, n: nat): (k: Option<nat>)
    requires n <= |ids| == |bs| && forall k :: 0 <= k < |ids| ==> ids[k] < |nodes|
    ensures k.Some? ==> k.value < n && nodes[ids[k.value]].outcome == Some(Loss)
    ensures k.Some? ==> forall x :: 0 <= x < n && nodes[ids[x]].outcome == Some(Loss) ==> bs[k.value] <= bs[x]
    ensures k.None? ==> forall x :: 0 <= x < n ==> nodes[ids[x]].outcome != Some(Loss)
  {
    if n == 0 then None
    else
      var before := Best(nodes, ids, bs, n - 1);
      if nodes[ids[n - 1]].outcome == Some(Loss) && (before.None? || bs[n - 1] < bs[before.value]) then Some(n - 1)
      else before
  }

  /** The children the skeleton keeps. */
  ghost function Kept(nodes: seq<PathNode>, i: nat): (ids: seq<nat>)
    requires Shaped(nodes) && i < |nodes|
    ensures forall k :: 0 <= k < |ids| ==> i < ids[k] < |nodes|
  {
    KidsWithin(nodes, i);
    var ids := Kids(nodes, i);
    if nodes[i].outcome == Some(Win) then
      var k := Best(nodes, ids, KidBounds(nodes, i), |ids|);
      if k.Some? then [ids[k.value]] else []
    else ids
  }

  /** Bounds fit the 32 bits they are stored in. */
  ghost predicate BoundsFit(nodes: seq<PathNode>)
    requires Shaped(nodes)
  {
    forall i :: 0 <= i < |nodes| ==> Bound(nodes, i) <= U32_MAX
  }

  /** The skeleton under construction: `src[t]` is the merged node behind `t`. */
  datatype Skel = Skel(tree: seq<ProofNode>, src: seq<nat>)

  ghost predicate Copied(nodes: seq<PathNode>, k: Skel, t: nat)
    requires Shaped(nodes)
  {
    && t < |k.tree| == |k.src| && k.src[t] < |nodes| && nodes[k.src[t]].outcome.Some?
    && k.tree[t].outcome == nodes[k.src[t]].outcome && k.tree[t].hash == 0 && k.tree[t].depth == Bound(nodes, k.src[t])
    && (t > 0 ==> Some(k.tree[t].mv) == nodes[k.src[t]].mv)
  }

  /** `kids`, newest first, stand for `kept`. */
  ghost predicate StandFor(k: Skel, kids: seq<nat>, kept: seq<nat>)
  {
    |kids| == |kept| && forall x :: 0 <= x < |kids| ==> kids[x] < |k.src| && k.src[kids[x]] == kept[|kept| - 1 - x]
  }

  ghost predicate Opened(nodes: seq<PathNode>, k: Skel, t: nat)
    requires Shaped(nodes) && Linked(k.tree)
  {
    t < |k.tree| == |k.src| && k.src[t] < |nodes| && StandFor(k, Children(k.tree, t), Kept(nodes, k.src[t]))
  }

  ghost predicate AllCopied(nodes: seq<PathNode>, k: Skel)
    requires Shaped(nodes)
  {
    Linked(k.tree) && |k.tree| == |k.src| && forall t :: 0 <= t < |k.tree| ==> Copied(nodes, k, t)
  }

  ghost predicate Skeleton(nodes: seq<PathNode>, k: Skel)
    requires Shaped(nodes)
  {
    AllCopied(nodes, k) && forall t :: 0 <= t < |k.tree| ==> Opened(nodes, k, t)
  }

  datatype Entry = Entry(mid: nat, tid: nat)

  ghost predicate Waiting(nodes: seq<PathNode>, k: Skel, e: Entry)
    requires Shaped(nodes) && Linked(k.tree)
  {
    e.tid < |k.tree| == |k.src| && e.mid == k.src[e.tid] < |nodes| && Children(k.tree, e.tid) == []
  }

  ghost predicate InStack(stack: seq<Entry>, t: nat)
  {
    exists x :: 0 <= x < |stack| && stack[x].tid == t
  }

  /** Every node is finished or waits on the stack. */
  ghost predicate Progress(nodes: seq<PathNode>, k: Skel, stack: seq<Entry>)
    requires Shaped(nodes)
  {
    && AllCopied(nodes, k)
    && (forall x :: 0 <= x < |stack| ==> Waiting(nodes, k, stack[x]))
    && (forall x, y :: 0 <= x < y < |stack| ==> stack[x].tid < stack[y].tid)
    && forall t :: 0 <= t < |k.tree| ==> InStack(stack, t) || Opened(nodes, k, t)
  }

  ghost function Size(nodes: seq<PathNode>, i: nat): nat
    requires Shaped(nodes)
  {
    if i < |nodes| then |Pre(nodes, i)| else 0
  }

  ghost function StackSize(nodes: seq<PathNode>, stack: seq<Entry>): nat
    requires Shaped(nodes)
  {
    if stack == [] then 0 else StackSize(nodes, stack[..|stack| - 1]) + Size(nodes, stack[|stack| - 1].mid)
  }

  ghost function ListSize(nodes: seq<PathNode>, ids: seq<nat>, n: nat): nat
    requires Shaped(nodes) && n <= |ids|
  {
    if n == 0 then 0 else ListSize(nodes, ids, n - 1) + Size(nodes, ids[n - 1])
  }

  lemma {:induction false} ListIsPre(nodes: seq<PathNode>, ids: seq<nat>, low: nat, k: nat)
    requires Shaped(nodes) && InRange(ids, low, |nodes|) && k <= |ids|
    ensures ListSize(nodes, ids, k) + |PreAll(nodes, ids, k, low)| == |PreAll(nodes, ids, 0, low)|
  {
    if k > 0 {
      ListIsPre(nodes, ids, low, k - 1);
    }
  }

  lemma {:induction false} OneOfList(nodes: seq<PathNode>, ids: seq<nat>, n: nat, k: nat)
    requires Shaped(nodes) && k < n <= |ids|
    ensures Size(nodes, ids[k]) <= ListSize(nodes, ids, n)
    decreases n
  {
    if k < n - 1 {
      OneOfList(nodes, ids, n - 1, k);
    }
  }

  /** The kept children weigh less than their parent. */
  lemma {:induction false} KeptSmaller(nodes: seq<PathNode>, i: nat)
    requires Shaped(nodes) && i < |nodes|
    ensures ListSize(nodes, Kept(nodes, i), |Kept(nodes, i)|) < Size(nodes, i)
  {
    KidsWithin(nodes, i);
    var ids := Kids(nodes, i);
    PreHead(nodes, i);
    ListIsPre(nodes, ids, i + 1, |ids|);
    hide Kids, Pre;
    if nodes[i].outcome == Some(Win) {
      var k := Best(nodes, ids, KidBounds(nodes, i), |ids|);
      if k.Some? {
        OneOfList(nodes, ids, |ids|, k.value);
        assert ListSize(nodes, [ids[k.value]], 1) == ListSize(nodes, [ids[k.value]], 0) + Size(nodes, ids[k.value]);
      }
    }
  }

  // ----- one step -----

  /** Children of proven, finished nodes that are kept are proven. */
  lemma {:induction false} KeptProven(nodes: seq<PathNode>, i: nat)
    requires Shaped(nodes) && AllOk(nodes) && i < |nodes|
             && (nodes[i].outcome == Some(Win) || nodes[i].outcome == Some(Loss))
    ensures forall k :: 0 <= k < |Kept(nodes, i)| ==>
              nodes[Kept(nodes, i)[k]].outcome == Some(nodes[i].outcome.value.Flip())
  {
    KidsWithin(nodes, i);
    assert NodeOk(nodes, i);
    hide Kids, KidBounds;
  }

  ghost function Extended(nodes: seq<PathNode>, k: Skel, tid: nat, c: nat): (r: Skel)
    requires Shaped(nodes) && BoundsFit(nodes) && Linked(k.tree) && tid < |k.tree| && c < |nodes| && nodes[c].mv.Some?
    ensures Linked(r.tree)
  {
    Skel(AddNode(k.tree, tid, nodes[c].mv.value, 0, nodes[c].outcome, Bound(nodes, c)), k.src + [c])
  }

  /** Everything but the children of `p` is as before. */
  ghost predicate Grew(k: Skel, r: Skel, p: nat)
    requires Linked(k.tree) && Linked(r.tree)
  {
    && |k.tree| == |k.src| <= |r.tree| == |r.src|
    && (forall t :: 0 <= t < |k.tree| ==> r.src[t] == k.src[t])
    && forall t :: 0 <= t < |k.tree| && t != p ==> Children(r.tree, t) == Children(k.tree, t)
  }

  /** Appending the next kept child under the popped node. */
  lemma {:induction false} ExtendedFacts(nodes: seq<PathNode>, k: Skel, tid: nat, kept: seq<nat>, n: nat)
    requires Shaped(nodes) && BoundsFit(nodes) && AllCopied(nodes, k)
    requires tid < |k.tree| && n < |kept| && kept[n] < |nodes| && nodes[kept[n]].outcome.Some?
             && nodes[kept[n]].mv.Some?
    requires StandFor(k, Children(k.tree, tid), kept[..n])
    ensures var r := Extended(nodes, k, tid, kept[n]);
            && AllCopied(nodes, r) && |r.tree| == |k.tree| + 1 && Grew(k, r, tid)
            && StandFor(r, Children(r.tree, tid), kept[..n + 1]) && Waiting(nodes, r, Entry(kept[n], |k.tree|))
  {
    var c := kept[n];
    AddNodeChildren(k.tree, tid, nodes[c].mv.value, 0, nodes[c].outcome, Bound(nodes, c));
    var r := Extended(nodes, k, tid, c);
    hide Bound, Children, Linked;
    forall t | 0 <= t < |r.tree|
      ensures Copied(nodes, r, t)
    {
      if t < |k.tree| {
        assert Copied(nodes, k, t);
      }
    }
    var kids, more := Children(k.tree, tid), Children(r.tree, tid);
    assert more == [|k.tree|] + kids;
    forall x | 0 <= x < |more|
      ensures more[x] < |r.src| && r.src[more[x]] == kept[..n + 1][n - x]
    {
      if x > 0 {
        assert kids[x - 1] < |k.src| && k.src[kids[x - 1]] == kept[..n][n - 1 - (x - 1)];
      }
    }
  }

  /** The kept children of a node, by the stored depths. */
  method KeepChildren(nodes: seq<PathNode>, depths: seq<nat>, i: nat) returns (kept: seq<nat>)
    requires Shaped(nodes) && i < |nodes| && |depths| == |nodes|
             && forall i :: 0 <= i < |nodes| ==> depths[i] == Bound(nodes, i)
    ensures kept == Kept(nodes, i)
  {
    hide Bound, Kids;
    KidsWithin(nodes, i);
    var ids := Kids(nodes, i);
    if nodes[i].outcome == Some(Win) {
      var best: Option<nat> := None;
      for n := 0 to |ids|
        invariant best == Best(nodes, ids, KidBounds(nodes, i), n)
      {
        if nodes[ids[n]].outcome == Some(Loss) && (best.None? || depths[ids[n]] < depths[ids[best.value]]) {
          best := Some(n);
        }
      }
      kept := if best.Some? then [ids[best.value]] else [];
    } else {
      kept := ids;
    }
  }

  /** Append the kept children of the popped node and push them. */
  method AttachKept(nodes: seq<PathNode>, depths: seq<nat>, tree: seq<ProofNode>, top: Entry, kept: seq<nat>,
          ghost src: seq<nat>)
    returns (r: seq<ProofNode>, more: seq<Entry>, ghost s: seq<nat>)
    requires Shaped(nodes) && BoundsFit(nodes) && AllCopied(nodes, Skel(tree, src))
             && Waiting(nodes, Skel(tree, src), top)
    requires |depths| == |nodes| && forall i :: 0 <= i < |nodes| ==> depths[i] == Bound(nodes, i)
    requires forall k :: 0 <= k < |kept| ==> 0 < kept[k] < |nodes| && nodes[kept[k]].outcome.Some?
    ensures AllCopied(nodes, Skel(r, s)) && Grew(Skel(tree, src), Skel(r, s), top.tid)
    ensures StandFor(Skel(r, s), Children(r, top.tid), kept)
    ensures |more| == |kept| && |r| == |tree| + |kept|
    ensures forall x :: 0 <= x < |more| ==> more[x] == Entry(kept[x], |tree| + x) && Waiting(nodes, Skel(r, s), more[x])
  {
    hide Bound, Children, Linked, Copied;
    r, more, s := tree, [], src;
    for n := 0 to |kept|
      invariant AllCopied(nodes, Skel(r, s)) && Grew(Skel(tree, src), Skel(r, s), top.tid)
      invariant StandFor(Skel(r, s), Children(r, top.tid), kept[..n])
      invariant |more| == n && |r| == |tree| + n
      invariant forall x :: 0 <= x < |more| ==>
                  more[x] == Entry(kept[x], |tree| + x) && Waiting(nodes, Skel(r, s), more[x])
    {
      var c := kept[n];
      HasMove(nodes, c);
      ExtendedFacts(nodes, Skel(r, s), top.tid, kept, n);
      r := AddNode(r, top.tid, nodes[c].mv.value, 0, nodes[c].outcome, depths[c]);
      more := more + [Entry(c, |tree| + n)];
      s := s + [c];
    }
    assert kept[..|kept|] == kept;
  }

  lemma {:induction false} HasMove(nodes: seq<PathNode>, c: nat)
    requires Shaped(nodes) && 0 < c < |nodes|
    ensures nodes[c].mv.Some?
  {
    assert NodeShaped(nodes, c);
  }

  /** The step keeps the progress. */
  lemma {:induction false} ProgressStep(nodes: seq<PathNode>, k: Skel, stack: seq<Entry>, r: Skel, more: seq<Entry>)
    requires Shaped(nodes) && Progress(nodes, k, stack) && stack != []
    requires var top := stack[|stack| - 1];
             && AllCopied(nodes, r) && Grew(k, r, top.tid) && top.mid < |nodes|
             && StandFor(r, Children(r.tree, top.tid), Kept(nodes, top.mid)) && |r.tree| == |k.tree| + |more|
    requires forall x :: 0 <= x < |more| ==> more[x].tid == |k.tree| + x && Waiting(nodes, r, more[x])
    ensures Progress(nodes, r, stack[..|stack| - 1] + more)
  {
    hide Kept, Copied, Children, Linked;
    var rest := stack[..|stack| - 1];
    var top := stack[|stack| - 1];
    var grown := rest + more;
    assert Waiting(nodes, k, top);
    forall x | 0 <= x < |grown|
      ensures Waiting(nodes, r, grown[x])
    {
      if x < |rest| {
        assert Waiting(nodes, k, stack[x]) && stack[x].tid < top.tid;
      } else {
        assert grown[x] == more[x - |rest|];
      }
    }
    forall x, y | 0 <= x < y < |grown|
      ensures grown[x].tid < grown[y].tid
    {
      if x < |rest| {
        assert Waiting(nodes, k, stack[x]);
      }
      assert x >= |rest| ==> grown[x] == more[x - |rest|];
      assert y >= |rest| ==> grown[y] == more[y - |rest|];
    }
    forall t | 0 <= t < |r.tree|
      ensures InStack(grown, t) || Opened(nodes, r, t)
    {
      if t >= |k.tree| {
        assert grown[|rest| + (t - |k.tree|)].tid == t;
      } else if t != top.tid {
        if InStack(stack, t) {
          var x :| 0 <= x < |stack| && stack[x].tid == t;
          assert grown[x].tid == t;
        } else {
          assert Opened(nodes, k, t);
          OpenedKept(nodes, k, r, top.tid, t);
        }
      }
    }
  }

  lemma {:induction false} OpenedKept(nodes: seq<PathNode>, k: Skel, r: Skel, p: nat, t: nat)
    requires Shaped(nodes) && Linked(k.tree) && Linked(r.tree) && Grew(k, r, p) && t != p && Opened(nodes, k, t)
    ensures Opened(nodes, r, t)
  {
    hide Kept;
    var kids := Children(k.tree, t);
    assert forall x :: 0 <= x < |kids| ==> kids[x] < |k.src| && r.src[kids[x]] == k.src[kids[x]];
  }

  lemma {:induction false} StackSplitSize(nodes: seq<PathNode>, rest: seq<Entry>, more: seq<Entry>, kept: seq<nat>,
          n: nat)
    requires Shaped(nodes) && n <= |more| == |kept| && forall x :: 0 <= x < |more| ==> more[x].mid == kept[x]
    ensures StackSize(nodes, rest + more[..n]) == StackSize(nodes, rest) + ListSize(nodes, kept, n)
  {
    if n > 0 {
      StackSplitSize(nodes, rest, more, kept, n - 1);
      assert (rest + more[..n])[..|rest| + n - 1] == rest + more[..n - 1];
    } else {
      assert rest + more[..n] == rest;
    }
  }

  /** Rebuild the skeleton of a proven node as a proof tree; an open node is refused. */
  method ReassembleSkeleton(nodes: seq<PathNode>, depths: seq<nat>, rootId: nat)
    returns (tree: Option<seq<ProofNode>>, ghost src: seq<nat>)
    requires Shaped(nodes) && AllOk(nodes) && NoDraws(nodes) && BoundsFit(nodes) && rootId < |nodes|
    requires |depths| == |nodes| && forall i :: 0 <= i < |nodes| ==> depths[i] == Bound(nodes, i)
    ensures tree.Some? <==> nodes[rootId].outcome.Some?
    ensures tree.Some? ==> |src| > 0 && src[0] == rootId && Skeleton(nodes, Skel(tree.value, src))
  {
    src := [rootId];
    if nodes[rootId].outcome.None? {
      return None, src;
    }
    var r := [ProofNode(None, None, None, NO_MOVE, 0, nodes[rootId].outcome, depths[rootId])];
    var stack := [Entry(rootId, 0)];
    RootProgress(nodes, rootId, r[0]);
    hide Bound, Children, Linked, Copied, Progress, Kept, AllOk, Size, ListSize, AllCopied, BoundsFit, Waiting,
      StandFor;
    while stack != []
      invariant Progress(nodes, Skel(r, src), stack) && |src| > 0 && src[0] == rootId
      decreases StackSize(nodes, stack)
    {
      var top := stack[|stack| - 1];
      ghost var k := Skel(r, src);
      TopFacts(nodes, k, stack);
      var kept := KeepChildren(nodes, depths, top.mid);
      KeptProven(nodes, top.mid);
      var grown, more, s := AttachKept(nodes, depths, r, top, kept, src);
      ProgressStep(nodes, k, stack, Skel(grown, s), more);
      KeptSmaller(nodes, top.mid);
      StackSplitSize(nodes, stack[..|stack| - 1], more, kept, |more|);
      assert more[..|more|] == more;
      stack := stack[..|stack| - 1] + more;
      r, src := grown, s;
    }
    SkeletonDone(nodes, Skel(r, src));
    tree := Some(r);
  }

  lemma {:induction false} RootProgress(nodes: seq<PathNode>, rootId: nat, n: ProofNode)
    requires Shaped(nodes) && BoundsFit(nodes) && rootId < |nodes| && nodes[rootId].outcome.Some?
    requires n == ProofNode(None, None, None, NO_MOVE, 0, nodes[rootId].outcome, Bound(nodes, rootId))
    ensures Progress(nodes, Skel([n], [rootId]), [Entry(rootId, 0)])
  {
    assert NodeLinked([n], 0);
    assert InStack([Entry(rootId, 0)], 0) by {
      assert [Entry(rootId, 0)][0].tid == 0;
    }
  }

  lemma {:induction false} TopFacts(nodes: seq<PathNode>, k: Skel, stack: seq<Entry>)
    requires Shaped(nodes) && NoDraws(nodes) && Progress(nodes, k, stack) && stack != []
    ensures AllCopied(nodes, k) && Waiting(nodes, k, stack[|stack| - 1])
    ensures var i := stack[|stack| - 1].mid;
            i < |nodes| && (nodes[i].outcome == Some(Win) || nodes[i].outcome == Some(Loss))
  {
    var top := stack[|stack| - 1];
    assert Waiting(nodes, k, top) && Copied(nodes, k, top.tid);
    assert nodes[top.mid].outcome != Some(Draw);
    match nodes[top.mid].outcome.value {
      case Win =>
      case Loss =>
    }
  }

  lemma {:induction false} SkeletonDone(nodes: seq<PathNode>, k: Skel)
    requires Shaped(nodes) && Progress(nodes, k, [])
    ensures Skeleton(nodes, k)
  {
    forall t | 0 <= t < |k.tree|
      ensures Opened(nodes, k, t)
    {
      assert !InStack([], t);
    }
  }
}
