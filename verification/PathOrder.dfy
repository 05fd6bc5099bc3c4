/** Row ids: the preorder of the path tree is the lexicographic order of its paths. */
module PathOrder {
  import opened Game
  import opened Paths

  // ----- the order on paths -----

  /** A prefix comes before its extensions, otherwise the first differing move decides. */
  ghost predicate LexAt(p: Path, q: Path, k: nat)
  {
    k <= |p| && k < |q| && p[..k] == q[..k] && (k == |p| || p[k] < q[k])
  }

  ghost predicate LexLess(p: Path, q: Path)
  {
    exists k: nat :: LexAt(p, q, k)
  }

  lemma {:induction false} LexAsym(p: Path, q: Path)
    requires LexLess(p, q)
    ensures !LexLess(q, p) && p != q
  {
    var k: nat :| LexAt(p, q, k);
    forall j: nat
      ensures !LexAt(q, p, j)
    {
      if j < k {
        assert p[..k][j] == q[..k][j];
      } else if k < j <= |q| && j < |p| {
        assert q[..j][k] != p[..j][k];
      }
    }
  }

  lemma {:induction false} LexPrefix(p: Path, m: Move, q: Path)
    requires p + [m] <= q
    ensures LexLess(p, q)
  {
    assert q[..|p|] == (p + [m])[..|p|] == p;
    assert LexAt(p, q, |p|);
  }

  lemma {:induction false} LexSiblings(p: Path, a: Move, b: Move, q: Path, r: Path)
    requires a < b && p + [a] <= q && p + [b] <= r
    ensures LexLess(q, r)
  {
    assert q[..|p| + 1] == p + [a] && r[..|p| + 1] == p + [b];
    assert q[..|p|] == q[..|p| + 1][..|p|] == p && r[..|p|] == r[..|p| + 1][..|p|] == p;
    assert q[|p|] == q[..|p| + 1][|p|] && r[|p|] == r[..|p| + 1][|p|];
    assert LexAt(q, r, |p|);
  }

  // ----- preorder -----

  ghost predicate InRange(ids: seq<nat>, low: nat, n: nat)
  {
    forall k :: 0 <= k < |ids| ==> low <= ids[k] < n
  }

  ghost function Pre(nodes: seq<PathNode>, i: nat): (r: seq<nat>)
    requires Shaped(nodes) && i < |nodes|
    ensures |r| > 0 && forall k :: 0 <= k < |r| ==> r[k] < |nodes|
    decreases |nodes| - i, 1, 0
  {
    KidsWithin(nodes, i);
    [i] + PreAll(nodes, Kids(nodes, i), 0, i + 1)
  }

  ghost function PreAll(nodes: seq<PathNode>, ids: seq<nat>, k: nat, low: nat): (r: seq<nat>)
    requires Shaped(nodes) && InRange(ids, low, |nodes|) && k <= |ids|
    ensures forall k :: 0 <= k < |r| ==> r[k] < |nodes|
    decreases |nodes| - low, 2, |ids| - k
  {
    if k == |ids| then [] else Pre(nodes, ids[k]) + PreAll(nodes, ids, k + 1, low)
  }

  /** What a stack of nodes still has to list, top first. */
  ghost function StackPre(nodes: seq<PathNode>, stack: seq<nat>): (r: seq<nat>)
    requires Shaped(nodes) && InRange(stack, 0, |nodes|)
  {
    if stack == [] then [] else Pre(nodes, stack[|stack| - 1]) + StackPre(nodes, stack[..|stack| - 1])
  }

  /** Pushing the children from the last to the first. */
  method PushReversed(nodes: seq<PathNode>, i: nat, stack: seq<nat>) returns (r: seq<nat>)
    requires Shaped(nodes) && i < |nodes| && InRange(stack, 0, |nodes|)
    ensures InRange(r, 0, |nodes|) && InRange(Kids(nodes, i), i + 1, |nodes|)
    ensures StackPre(nodes, r) == PreAll(nodes, Kids(nodes, i), 0, i + 1) + StackPre(nodes, stack)
  {
    hide Kids, Pre, Shaped, PreAll, StackPre;
    KidsWithin(nodes, i);
    var ids := Kids(nodes, i);
    r := stack;
    assert PreAll(nodes, ids, |ids|, i + 1) == [] by { NothingLeft(nodes, ids, i + 1); }
    for k := |ids| downto 0
      invariant InRange(r, 0, |nodes|)
      invariant StackPre(nodes, r) == PreAll(nodes, ids, k, i + 1) + StackPre(nodes, stack)
    {
      PushOne(nodes, r, ids, k, i + 1);
      Regroup([], Pre(nodes, ids[k]), PreAll(nodes, ids, k + 1, i + 1), StackPre(nodes, stack));
      r := r + [ids[k]];
    }
  }

  lemma {:induction false} NothingLeft(nodes: seq<PathNode>, ids: seq<nat>, low: nat)
    requires Shaped(nodes) && InRange(ids, low, |nodes|)
    ensures PreAll(nodes, ids, |ids|, low) == []
  {
  }

  /** One node more on the stack is listed first. */
  lemma {:induction false} PushOne(nodes: seq<PathNode>, r: seq<nat>, ids: seq<nat>, k: nat, low: nat)
    requires Shaped(nodes) && InRange(r, 0, |nodes|) && InRange(ids, low, |nodes|) && k < |ids|
    ensures InRange(r + [ids[k]], 0, |nodes|)
    ensures StackPre(nodes, r + [ids[k]]) == Pre(nodes, ids[k]) + StackPre(nodes, r)
    ensures PreAll(nodes, ids, k, low) == Pre(nodes, ids[k]) + PreAll(nodes, ids, k + 1, low)
  {
    hide Pre, Shaped;
    assert (r + [ids[k]])[..|r|] == r;
  }

  lemma {:induction false} PreHead(nodes: seq<PathNode>, i: nat)
    requires Shaped(nodes) && i < |nodes|
    ensures InRange(Kids(nodes, i), i + 1, |nodes|) && Pre(nodes, i) == [i] + PreAll(nodes, Kids(nodes, i), 0, i + 1)
  {
    KidsWithin(nodes, i);
  }

  lemma {:induction false} Regroup(a: seq<nat>, b: seq<nat>, c: seq<nat>, d: seq<nat>)
    ensures a + ((b + c) + d) == (a + b) + (c + d)
  {
  }

  /** List the nodes with an explicit stack. */
  method LexicographicOrder(nodes: seq<PathNode>) returns (order: seq<nat>)
    requires Shaped(nodes)
    ensures order == Pre(nodes, 0)
  {
    hide Kids, Pre, PreAll;
    order := [];
    var stack := [0];
    assert StackPre(nodes, stack) == Pre(nodes, 0) + StackPre(nodes, []);
    while stack != []
      invariant InRange(stack, 0, |nodes|) && order + StackPre(nodes, stack) == Pre(nodes, 0)
      decreases |StackPre(nodes, stack)|
    {
      var i := stack[|stack| - 1];
      var rest := stack[..|stack| - 1];
      PreHead(nodes, i);
      ghost var below := PreAll(nodes, Kids(nodes, i), 0, i + 1);
      Regroup(order, [i], below, StackPre(nodes, rest));
      order := order + [i];
      stack := PushReversed(nodes, i, rest);
    }
  }

  // ----- it is the lexicographic order -----

  /** `j` lies below the path `p`. */
  ghost predicate Below(nodes: seq<PathNode>, p: Path, j: nat)
    requires Shaped(nodes)
  {
    j < |nodes| && p <= PathOf(nodes, j)
  }

  ghost predicate AllBelow(nodes: seq<PathNode>, p: Path, r: seq<nat>)
    requires Shaped(nodes)
  {
    forall k :: 0 <= k < |r| ==> Below(nodes, p, r[k])
  }

  ghost predicate Sorted(nodes: seq<PathNode>, r: seq<nat>)
    requires Shaped(nodes)
  {
    && (forall k :: 0 <= k < |r| ==> r[k] < |nodes|)
    && forall a, b :: 0 <= a < b < |r| ==> LexLess(PathOf(nodes, r[a]), PathOf(nodes, r[b]))
  }

  lemma {:induction false} PreSorted(nodes: seq<PathNode>, i: nat)
    requires Shaped(nodes) && i < |nodes|
    ensures AllBelow(nodes, PathOf(nodes, i), Pre(nodes, i)) && Sorted(nodes, Pre(nodes, i))
    decreases |nodes| - i, 1, 0
  {
    hide PathOf, LexLess, Keys, KeysBelow;
    KidsWithin(nodes, i);
    PreAllSorted(nodes, i, 0);
    var below := PreAll(nodes, Kids(nodes, i), 0, i + 1);
    forall b | 0 <= b < |below|
      ensures LexLess(PathOf(nodes, i), PathOf(nodes, below[b])) && Below(nodes, PathOf(nodes, i), below[b])
    {
      assert UnderKid(nodes, i, 0, below[b]);
      var k: nat :| 0 <= k && UnderKidAt(nodes, i, k, below[b]);
      LexPrefix(PathOf(nodes, i), Keys(nodes[i].children)[k], PathOf(nodes, below[b]));
    }
  }

  ghost predicate UnderKidAt(nodes: seq<PathNode>, i: nat, k: nat, j: nat)
    requires Shaped(nodes) && i < |nodes|
  {
    k < |Keys(nodes[i].children)| && Below(nodes, PathOf(nodes, i) + [Keys(nodes[i].children)[k]], j)
  }

  /** `j` lies below a child of `i` from the `k0`-th on. */
  ghost predicate UnderKid(nodes: seq<PathNode>, i: nat, k0: nat, j: nat)
    requires Shaped(nodes) && i < |nodes|
  {
    exists k: nat :: k0 <= k && UnderKidAt(nodes, i, k, j)
  }

  lemma {:induction false} KidPath(nodes: seq<PathNode>, i: nat, k: nat)
    requires Shaped(nodes) && i < |nodes| && k < |Kids(nodes, i)|
    ensures k < |Keys(nodes[i].children)| && i < Kids(nodes, i)[k] < |nodes|
    ensures PathOf(nodes, Kids(nodes, i)[k]) == PathOf(nodes, i) + [Keys(nodes[i].children)[k]]
  {
    ChildPath(nodes, i, Keys(nodes[i].children)[k]);
  }

  ghost predicate AllUnderKid(nodes: seq<PathNode>, i: nat, k: nat, r: seq<nat>)
    requires Shaped(nodes) && i < |nodes|
  {
    forall b :: 0 <= b < |r| ==> UnderKid(nodes, i, k, r[b])
  }

  lemma {:induction false} SortedConcat(nodes: seq<PathNode>, head: seq<nat>, tail: seq<nat>)
    requires Shaped(nodes) && Sorted(nodes, head) && Sorted(nodes, tail)
    requires forall a, b :: 0 <= a < |head| && 0 <= b < |tail| ==>
               LexLess(PathOf(nodes, head[a]), PathOf(nodes, tail[b]))
    ensures Sorted(nodes, head + tail)
  {
    hide PathOf, LexLess;
  }

  /** The subtree of one child comes before those of the later children. */
  lemma {:induction false} KidsInOrder(nodes: seq<PathNode>, i: nat, k: nat, x: nat, y: nat)
    requires Shaped(nodes) && i < |nodes| && UnderKidAt(nodes, i, k, x) && UnderKid(nodes, i, k + 1, y)
    ensures LexLess(PathOf(nodes, x), PathOf(nodes, y))
  {
    hide PathOf, LexLess;
    var keys := Keys(nodes[i].children);
    KeysAscend(nodes[i].children, CODES);
    var k': nat :| k + 1 <= k' && UnderKidAt(nodes, i, k', y);
    LexSiblings(PathOf(nodes, i), keys[k], keys[k'], PathOf(nodes, x), PathOf(nodes, y));
  }

  lemma {:induction false} PreAllSorted(nodes: seq<PathNode>, i: nat, k: nat)
    requires Shaped(nodes) && i < |nodes| && InRange(Kids(nodes, i), i + 1, |nodes|) && k <= |Kids(nodes, i)|
    ensures Sorted(nodes, PreAll(nodes, Kids(nodes, i), k, i + 1))
    ensures AllUnderKid(nodes, i, k, PreAll(nodes, Kids(nodes, i), k, i + 1))
    decreases |nodes| - i, 0, |Kids(nodes, i)| - k
  {
    var ids := Kids(nodes, i);
    if k < |ids| {
      KidPath(nodes, i, k);
      PreSorted(nodes, ids[k]);
      PreAllSorted(nodes, i, k + 1);
      hide Kids, Keys, PathOf, LexLess, Pre;
      var head, tail := Pre(nodes, ids[k]), PreAll(nodes, ids, k + 1, i + 1);
      forall a | 0 <= a < |head|
        ensures UnderKidAt(nodes, i, k, head[a])
      {
        assert Below(nodes, PathOf(nodes, ids[k]), head[a]);
      }
      forall b | 0 <= b < |head + tail|
        ensures UnderKid(nodes, i, k, (head + tail)[b])
      {
        if b < |head| {
          assert UnderKidAt(nodes, i, k, head[b]);
        } else {
          assert UnderKid(nodes, i, k + 1, tail[b - |head|]);
        }
      }
      forall a, b | 0 <= a < |head| && 0 <= b < |tail|
        ensures LexLess(PathOf(nodes, head[a]), PathOf(nodes, tail[b]))
      {
        KidsInOrder(nodes, i, k, head[a], tail[b]);
      }
      SortedConcat(nodes, head, tail);
    }
  }

  lemma {:induction false} PreKid(nodes: seq<PathNode>, i: nat, p: nat, m: Move)
    requires Shaped(nodes) && i < |nodes| && p in Pre(nodes, i) && p < |nodes| && m in nodes[p].children
    ensures nodes[p].children[m] in Pre(nodes, i)
    decreases |nodes| - i, 1, 0
  {
    KidsWithin(nodes, i);
    var ids := Kids(nodes, i);
    if p == i {
      KeysAll(nodes, i);
      var k :| 0 <= k < |ids| && Keys(nodes[i].children)[k] == m;
      PreAllHas(nodes, ids, 0, i + 1, k);
    } else {
      PreAllKid(nodes, ids, 0, i + 1, p, m);
    }
  }

  lemma {:induction false} PreAllKid(nodes: seq<PathNode>, ids: seq<nat>, k: nat, low: nat, p: nat, m: Move)
    requires Shaped(nodes) && InRange(ids, low, |nodes|) && k <= |ids|
    requires p in PreAll(nodes, ids, k, low) && p < |nodes| && m in nodes[p].children
    ensures nodes[p].children[m] in PreAll(nodes, ids, k, low)
    decreases |nodes| - low, 2, |ids| - k
  {
    if p in Pre(nodes, ids[k]) {
      PreKid(nodes, ids[k], p, m);
    } else {
      PreAllKid(nodes, ids, k + 1, low, p, m);
    }
  }

  lemma {:induction false} PreAllHas(nodes: seq<PathNode>, ids: seq<nat>, k: nat, low: nat, at: nat)
    requires Shaped(nodes) && InRange(ids, low, |nodes|) && k <= at < |ids|
    ensures ids[at] in PreAll(nodes, ids, k, low)
    decreases |ids| - k
  {
    if k < at {
      PreAllHas(nodes, ids, k + 1, low, at);
    } else {
      assert Pre(nodes, ids[k])[0] == ids[k];
    }
  }

  /** Every node is listed. */
  lemma {:induction false} PreHas(nodes: seq<PathNode>, j: nat)
    requires Shaped(nodes) && j < |nodes|
    ensures j in Pre(nodes, 0)
    decreases j
  {
    if j == 0 {
      assert Pre(nodes, 0)[0] == 0;
    } else {
      assert NodeShaped(nodes, j);
      PreHas(nodes, nodes[j].parent.value);
      PreKid(nodes, 0, nodes[j].parent.value, nodes[j].mv.value);
    }
  }

  // ----- row ids -----

  /** `order` lists the nodes by path, `rowOf` is its inverse. */
  ghost predicate Rows(nodes: seq<PathNode>, order: seq<nat>, rowOf: seq<nat>)
    requires Shaped(nodes)
  {
    && |order| == |rowOf| == |nodes| && Sorted(nodes, order)
    && (forall r :: 0 <= r < |order| ==> order[r] < |rowOf| && rowOf[order[r]] == r)
    && (forall i :: 0 <= i < |rowOf| ==> rowOf[i] < |order| && order[rowOf[i]] == i)
  }

  lemma {:induction false} OrderOnce(nodes: seq<PathNode>, order: seq<nat>, a: nat, b: nat)
    requires Shaped(nodes) && Sorted(nodes, order) && a < |order| && b < |order| && order[a] == order[b]
    ensures a == b
  {
    if a < b {
      LexAsym(PathOf(nodes, order[a]), PathOf(nodes, order[b]));
    } else if b < a {
      LexAsym(PathOf(nodes, order[b]), PathOf(nodes, order[a]));
    }
  }

  /** Distinct numbers below `n` that miss none are `n` many. */
  lemma {:induction false} CountDistinct(s: seq<nat>, n: nat)
    requires (forall k :: 0 <= k < |s| ==> s[k] < n) && (forall a, b :: 0 <= a < b < |s| ==> s[a] != s[b])
    requires forall j :: 0 <= j < n ==> j in s
    ensures |s| == n
  {
    if n > 0 {
      assert n - 1 in s;
      var k :| 0 <= k < |s| && s[k] == n - 1;
      var rest := s[..k] + s[k + 1..];
      forall j | 0 <= j < n - 1
        ensures j in rest
      {
        assert j in s;
        var a :| 0 <= a < |s| && s[a] == j;
        assert rest[if a < k then a else a - 1] == j;
      }
      CountDistinct(rest, n - 1);
    }
  }

  /** Row ids and their inverse. */
  method AssignRows(nodes: seq<PathNode>) returns (order: seq<nat>, rowOf: seq<nat>)
    requires Shaped(nodes)
    ensures order == Pre(nodes, 0) && Rows(nodes, order, rowOf)
  {
    order := LexicographicOrder(nodes);
    PreSorted(nodes, 0);
    OrderComplete(nodes, order);
    hide Sorted, Pre;
    var rows := new nat[|order|](i => 0);
    for r := 0 to |order|
      invariant forall a :: 0 <= a < r ==> rows[order[a]] == a
    {
      forall a | 0 <= a < r
        ensures order[a] != order[r]
      {
        if order[a] == order[r] {
          OrderOnce(nodes, order, a, r);
        }
      }
      rows[order[r]] := r;
    }
    rowOf := rows[..];
    forall i | 0 <= i < |rowOf|
      ensures rowOf[i] < |order| && order[rowOf[i]] == i
    {
      assert i in order;
      var a :| 0 <= a < |order| && order[a] == i;
      assert rows[order[a]] == a;
    }
  }

  lemma {:induction false} OrderComplete(nodes: seq<PathNode>, order: seq<nat>)
    requires Shaped(nodes) && Sorted(nodes, order) && order == Pre(nodes, 0)
    ensures |order| == |nodes| && forall j :: 0 <= j < |nodes| ==> j in order
    ensures forall k :: 0 <= k < |order| ==> order[k] < |nodes|
  {
    forall j | 0 <= j < |nodes|
      ensures j in order
    {
      PreHas(nodes, j);
    }
    forall a, b | 0 <= a < b < |order|
      ensures order[a] != order[b]
    {
      if order[a] == order[b] {
        OrderOnce(nodes, order, a, b);
      }
    }
    CountDistinct(order, |nodes|);
  }

  /** Row ids follow the paths, so parents come before their children. */
  lemma {:induction false} RowsFollowPaths(nodes: seq<PathNode>, order: seq<nat>, rowOf: seq<nat>, i: nat, j: nat)
    requires Shaped(nodes) && Rows(nodes, order, rowOf) && i < |nodes| && j < |nodes|
    ensures rowOf[i] < rowOf[j] <==> LexLess(PathOf(nodes, i), PathOf(nodes, j))
    ensures nodes[j].parent == Some(i) ==> rowOf[i] < rowOf[j]
  {
    var a, b := rowOf[i], rowOf[j];
    assert order[a] == i && order[b] == j;
    if nodes[j].parent == Some(i) {
      assert NodeShaped(nodes, j);
      LexPrefix(PathOf(nodes, i), nodes[j].mv.value, PathOf(nodes, j));
    }
    if b < a && LexLess(PathOf(nodes, i), PathOf(nodes, j)) {
      LexAsym(PathOf(nodes, i), PathOf(nodes, j));
    }
    if a == b && LexLess(PathOf(nodes, i), PathOf(nodes, j)) {
      LexAsym(PathOf(nodes, i), PathOf(nodes, j));
    }
  }
}
