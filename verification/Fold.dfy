/** The standing store: rows in id order, and the tree they stand for. */
module Fold {
  import opened Game
  import opened Lists
  import opened Paths
  import opened PathOrder
  import opened PathTruth

  datatype DepthStatus = Upper | Exact

  /** A row of the `nodes` table. */
  datatype Row = Row(id: int, parent: Option<int>, ply: int, mv: Option<Move>, code: Option<Move>,
      outcome: Option<Outcome>,
                     bound: Option<int>, status: Option<DepthStatus>, prov: set<Tag>)

  /** The id is a primary key and the table is read in its order. */
  ghost predicate ById(rows: seq<Row>)
  {
    forall a, b :: 0 <= a < b < |rows| ==> rows[a].id < rows[b].id
  }

  lemma {:induction false} SameRowId(rows: seq<Row>, a: nat, b: nat)
    requires ById(rows) && a < |rows| && b < |rows| && rows[a].id == rows[b].id
    ensures a == b
  {
  }

  predicate HasChildren(rows: seq<Row>, id: int) { exists k :: 0 <= k < |rows| && rows[k].parent == Some(id) }

  /** A proven row has a bound and a status, an open one has neither. */
  predicate DomainOk(r: Row)
  {
    && r.outcome != Some(Draw) && (r.bound.Some? <==> r.outcome.Some?) && (r.status.Some? <==> r.outcome.Some?)
    && (r.bound.Some? ==> r.bound.value >= 0)
  }

  /** The claim a row restores: a proven exact row with children claims its bound. */
  function ClaimsOf(rows: seq<Row>, r: Row): seq<nat>
  {
    if r.outcome.Some? && r.status == Some(Exact) && HasChildren(rows, r.id) && r.bound.Some? && r.bound.value >= 0
    then [r.bound.value] else []
  }

  /** Row `src[i]` stores node `i`. */
  ghost predicate Stored(rows: seq<Row>, nodes: seq<PathNode>, src: seq<nat>, i: nat)
    requires i < |nodes| == |src|
  {
    && src[i] < |rows|
    && var r, n := rows[src[i]], nodes[i];
       && r.ply == n.ply && r.mv == n.mv && r.code == n.mv && r.outcome == n.outcome && r.prov == n.prov && DomainOk(r)
       && (i == 0 ==> r.parent.None?)
       && (i > 0 ==>
             && n.parent.Some? && n.parent.value < i && src[n.parent.value] < |rows|
             && r.parent == Some(rows[src[n.parent.value]].id))
  }

  /** Some of the rows, as a tree. */
  ghost predicate Part(rows: seq<Row>, nodes: seq<PathNode>, src: seq<nat>)
  {
    && Shaped(nodes) && |src| == |nodes| && Distinct(src)
    && forall i :: 0 <= i < |nodes| ==> Stored(rows, nodes, src, i)
  }

  /** All rows, as a tree. */
  ghost predicate Whole(rows: seq<Row>, nodes: seq<PathNode>, src: seq<nat>)
  {
    Part(rows, nodes, src) && |src| == |rows|
  }

  lemma {:induction false} StoredAt(rows: seq<Row>, nodes: seq<PathNode>, src: seq<nat>, i: nat)
    requires Part(rows, nodes, src) && i < |nodes|
    ensures Stored(rows, nodes, src, i)
  {
  }

  /** Distinct numbers below `n`, `n` many, are all of them. */
  lemma {:induction false} Onto(s: seq<nat>, n: nat, k: nat)
    requires Distinct(s) && |s| == n && (forall i :: 0 <= i < n ==> s[i] < n) && k < n
    ensures k in s
  {
    if k !in s {
      var last := n - 1;
      var t := seq(n, i requires 0 <= i < n => if s[i] == last then k else s[i]);
      forall a, b | 0 <= a < b < n
        ensures t[a] != t[b]
      {
        assert s[a] in s && s[b] in s;
      }
      assert forall i :: 0 <= i < n ==> s[i] in s;
      TooMany(t, last);
      assert false;
    }
  }

  /** Distinct members of a list are no more than the list is long. */
  lemma {:induction false} SubLength(a: seq<nat>, b: seq<nat>)
    requires Distinct(a) && forall i :: 0 <= i < |a| ==> a[i] in b
    ensures |a| <= |b|
  {
    if a != [] {
      var front, last := a[..|a| - 1], a[|a| - 1];
      assert last in b;
      var k :| 0 <= k < |b| && b[k] == last;
      var rest := b[..k] + b[k + 1..];
      forall i | 0 <= i < |front|
        ensures front[i] in rest
      {
        assert a[i] in b;
        var x :| 0 <= x < |b| && b[x] == a[i];
        assert rest[if x < k then x else x - 1] == a[i];
      }
      SubLength(front, rest);
    }
  }

  lemma {:induction false} TooMany(t: seq<nat>, n: nat)
    requires Distinct(t) && forall i :: 0 <= i < |t| ==> t[i] < n
    ensures |t| <= n
  {
    var all: seq<nat> := seq(n, i => i);
    forall i | 0 <= i < |t|
      ensures t[i] in all
    {
      assert all[t[i]] == t[i];
    }
    SubLength(t, all);
  }

  lemma {:induction false} NodeOfRow(rows: seq<Row>, nodes: seq<PathNode>, src: seq<nat>, k: nat) returns (i: nat)
    requires Whole(rows, nodes, src) && k < |rows|
    ensures i < |nodes| && src[i] == k && Stored(rows, nodes, src, i)
  {
    forall i | 0 <= i < |src|
      ensures src[i] < |rows|
    {
      assert Stored(rows, nodes, src, i);
    }
    Onto(src, |rows|, k);
    var x :| 0 <= x < |src| && src[x] == k;
    i := x;
    assert Stored(rows, nodes, src, i);
  }

  /** A row has one path. */
  lemma {:induction false} SamePath(rows: seq<Row>, a: seq<PathNode>, sa: seq<nat>, i: nat, b: seq<PathNode>,
          sb: seq<nat>, j: nat)
    requires ById(rows) && Part(rows, a, sa) && Part(rows, b, sb) && i < |a| && j < |b| && sa[i] == sb[j]
    ensures PathOf(a, i) == PathOf(b, j) && (i == 0 <==> j == 0)
    ensures i > 0 ==> a[i].parent.Some? && b[j].parent.Some? && a[i].parent.value < i && b[j].parent.value < j
                      && sa[a[i].parent.value] == sb[b[j].parent.value] && a[i].mv == b[j].mv
    decreases i
  {
    assert Stored(rows, a, sa, i) && Stored(rows, b, sb, j);
    assert NodeShaped(a, i) && NodeShaped(b, j);
    if i > 0 {
      var p, q := a[i].parent.value, b[j].parent.value;
      SameRowId(rows, sa[p], sb[q]);
      SamePath(rows, a, sa, p, b, sb, q);
    }
  }

  /** Every stored move is legal where it is played. */
  ghost predicate WellPlayed(g: Rules, start: Position, nodes: seq<PathNode>)
    requires Shaped(nodes)
  {
    forall i, m :: 0 <= i < |nodes| && m in nodes[i].children ==> m in g.legal(At(g, start, nodes, i))
  }
}
