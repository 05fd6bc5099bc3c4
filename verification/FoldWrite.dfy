/** Writing the delta of a fold: existing rows keep their ids, new rows get the next ids in path
    order. */
module FoldWrite {
  import opened Game
  import opened Lists
  import opened Paths
  import opened PathOrder
  import opened Fold

  function StatusOf(n: PathNode): DepthStatus { if n.children == map[] || n.claims != [] then Exact else Upper }

  /** The row of a node. */
  function RowFor(n: PathNode, depth: nat, id: int, parent: Option<int>): Row
  {
    Row(id, parent, n.ply, n.mv, n.mv, n.outcome, if n.outcome.Some? then Some(depth) else None,
        if n.outcome.Some? then Some(StatusOf(n)) else None, n.prov)
  }

  /** Row `src[i]` is exactly what finalisation says of node `i`. */
  ghost predicate RowIs(rows: seq<Row>, nodes: seq<PathNode>, depths: seq<nat>, src: seq<nat>, i: nat)
    requires i < |nodes| == |depths| == |src|
  {
    && src[i] < |rows|
    && var up := nodes[i].parent;
       && (up.Some? ==> up.value < i && src[up.value] < |rows|)
       && rows[src[i]] ==
            RowFor(nodes[i], depths[i], rows[src[i]].id, if up.Some? then Some(rows[src[up.value]].id) else None)
  }

  /** The table is the finalised tree. */
  ghost predicate Committed(rows: seq<Row>, nodes: seq<PathNode>, depths: seq<nat>, src: seq<nat>)
  {
    && Shaped(nodes) && |depths| == |nodes| == |src| == |rows| && Distinct(src) && ById(rows)
    && forall i :: 0 <= i < |nodes| ==> RowIs(rows, nodes, depths, src, i)
  }

  /** Every parent's id lies below its children's. */
  ghost predicate ParentsFirst(rows: seq<Row>)
  {
    forall k :: 0 <= k < |rows| && rows[k].parent.Some? ==> rows[k].parent.value < rows[k].id
  }

  lemma {:induction false} CommittedWhole(rows: seq<Row>, nodes: seq<PathNode>, depths: seq<nat>, src: seq<nat>)
    requires Committed(rows, nodes, depths, src) && forall i :: 0 <= i < |nodes| ==> nodes[i].outcome != Some(Draw)
    ensures Whole(rows, nodes, src)
  {
    forall i | 0 <= i < |nodes|
      ensures Stored(rows, nodes, src, i)
    {
      assert RowIs(rows, nodes, depths, src, i) && NodeShaped(nodes, i);
    }
  }

  // ----- new ids -----

  /** The new nodes of a row order, in that order. */
  function NewOnes(order: seq<nat>, loaded: nat, n: nat): (r: seq<nat>)
    requires n <= |order|
    ensures forall i :: i in r ==> i >= loaded && i in order[..n]
  {
    if n == 0 then []
    else
      assert order[..n] == order[..n - 1] + [order[n - 1]];
      NewOnes(order, loaded, n - 1) + if order[n - 1] >= loaded then [order[n - 1]] else []
  }

  lemma {:induction false} NewAll(order: seq<nat>, loaded: nat, n: nat, i: nat)
    requires n <= |order| && i in order[..n] && i >= loaded
    ensures i in NewOnes(order, loaded, n)
  {
    assert order[..n] == order[..n - 1] + [order[n - 1]];
    if order[n - 1] != i {
      NewAll(order, loaded, n - 1, i);
    }
  }

  lemma {:induction false} NewSorted(nodes: seq<PathNode>, order: seq<nat>, loaded: nat, n: nat)
    requires Shaped(nodes) && Sorted(nodes, order) && n <= |order|
    ensures Sorted(nodes, NewOnes(order, loaded, n))
  {
    hide LexLess, PathOf;
    if n > 0 {
      NewSorted(nodes, order, loaded, n - 1);
      var before := NewOnes(order, loaded, n - 1);
      forall a | 0 <= a < |before| && order[n - 1] >= loaded
        ensures LexLess(PathOf(nodes, before[a]), PathOf(nodes, order[n - 1]))
      {
        assert before[a] in before;
        var x :| 0 <= x < n - 1 && order[..n - 1][x] == before[a];
        assert order[x] == before[a];
      }
    }
  }

  /** Distinct rows of the new nodes, and none missing. */
  ghost predicate NewRanks(added: seq<nat>, loaded: nat, total: nat)
  {
    && loaded <= total && |added| == total - loaded && Distinct(added)
    && (forall a :: 0 <= a < |added| ==> loaded <= added[a] < total)
    && forall i :: loaded <= i < total ==> i in added
  }

  lemma {:induction false} NewComplete(nodes: seq<PathNode>, order: seq<nat>, loaded: nat)
    requires Shaped(nodes) && Sorted(nodes, order) && |order| == |nodes| && loaded <= |nodes|
    requires forall j :: 0 <= j < |nodes| ==> j in order
    ensures NewRanks(NewOnes(order, loaded, |order|), loaded, |nodes|) && Sorted(nodes, NewOnes(order, loaded, |order|))
  {
    var r := NewOnes(order, loaded, |order|);
    NewSorted(nodes, order, loaded, |order|);
    assert order[..|order|] == order;
    forall a, b | 0 <= a < b < |r|
      ensures r[a] != r[b]
    {
      if r[a] == r[b] {
        OrderOnce(nodes, r, a, b);
      }
    }
    forall a | 0 <= a < |r|
      ensures loaded <= r[a] < |nodes|
    {
      assert r[a] in r;
    }
    forall i | loaded <= i < |nodes|
      ensures i in r
    {
      assert i in order;
      NewAll(order, loaded, |order|, i);
    }
    NewCount(r, loaded, |nodes|);
  }

  lemma {:induction false} NewCount(r: seq<nat>, loaded: nat, total: nat)
    requires Distinct(r) && loaded <= total && (forall a :: 0 <= a < |r| ==> loaded <= r[a] < total)
    requires forall i :: loaded <= i < total ==> i in r
    ensures |r| == total - loaded
  {
    var all: seq<nat> := seq(total - loaded, i requires 0 <= i => i + loaded);
    forall a | 0 <= a < |r|
      ensures r[a] in all
    {
      assert all[r[a] - loaded] == r[a];
    }
    SubLength(r, all);
    SubLength(all, r);
  }

  method MaxId(ids: seq<int>) returns (m: int)
    ensures |ids| == 0 ==> m == -1
    ensures |ids| > 0 ==> m in ids
    ensures forall i :: 0 <= i < |ids| ==> ids[i] <= m
  {
    if |ids| == 0 {
      return -1;
    }
    m := ids[0];
    for i := 1 to |ids|
      invariant m in ids && forall j :: 0 <= j < i ==> ids[j] <= m
    {
      if ids[i] > m {
        m := ids[i];
      }
    }
  }

  /** Loaded nodes keep their ids; new ones are numbered on in path order. */
  method AssignIds(nodes: seq<PathNode>, order: seq<nat>, loadedIds: seq<int>, maxId: int)
    returns (idOf: seq<int>, added: seq<nat>)
    requires Shaped(nodes) && Sorted(nodes, order) && |order| == |nodes|
             && (forall j :: 0 <= j < |nodes| ==> j in order)
    requires |loadedIds| <= |nodes|
    ensures |idOf| == |nodes| && idOf[..|loadedIds|] == loadedIds
    ensures NewRanks(added, |loadedIds|, |nodes|) && Sorted(nodes, added)
    ensures forall a :: 0 <= a < |added| ==> added[a] < |idOf| && idOf[added[a]] == maxId + 1 + a
  {
    var loaded := |loadedIds|;
    NewComplete(nodes, order, loaded);
    hide Sorted, Shaped, NewRanks, NewOnes;
    var ids := new int[|nodes|](i => 0);
    for i := 0 to loaded
      invariant ids[..i] == loadedIds[..i]
    {
      ids[i] := loadedIds[i];
    }
    var next := maxId + 1;
    added := [];
    NewNone(order, loaded);
    assert loadedIds[..loaded] == loadedIds;
    for n := 0 to |order|
      invariant added == NewOnes(order, loaded, n) && next == maxId + 1 + |added|
      invariant ids[..loaded] == loadedIds && NumberedAs(ids[..], added, maxId, loaded)
    {
      NewNext(order, loaded, n);
      if order[n] >= loaded {
        OrderAt(nodes, order, loaded, n);
        ghost var was := ids[..];
        ids[order[n]] := next;
        assert ids[..] == was[order[n] := next];
        NumberOne(was, added, maxId, loaded, order[n]);
        next := next + 1;
        added := added + [order[n]];
      }
    }
    idOf := ids[..];
  }

  /** The listed nodes carry the next numbers, in order. */
  ghost predicate NumberedAs(ids: seq<int>, added: seq<nat>, maxId: int, loaded: nat)
  {
    forall a :: 0 <= a < |added| ==> loaded <= added[a] < |ids| && ids[added[a]] == maxId + 1 + a
  }

  lemma {:induction false} NumberOne(ids: seq<int>, added: seq<nat>, maxId: int, loaded: nat, i: nat)
    requires NumberedAs(ids, added, maxId, loaded) && loaded <= i < |ids| && i !in added
    ensures NumberedAs(ids[i := maxId + 1 + |added|], added + [i], maxId, loaded)
    ensures ids[i := maxId + 1 + |added|][..loaded] == ids[..loaded]
  {
  }

  lemma {:induction false} NewNone(order: seq<nat>, loaded: nat)
    ensures NewOnes(order, loaded, 0) == []
  {
  }

  lemma {:induction false} NewNext(order: seq<nat>, loaded: nat, n: nat)
    requires n < |order|
    ensures NewOnes(order, loaded, n + 1) == NewOnes(order, loaded, n) + if order[n] >= loaded then [order[n]] else []
  {
  }

  /** The next new node has not been numbered. */
  lemma {:induction false} OrderAt(nodes: seq<PathNode>, order: seq<nat>, loaded: nat, n: nat)
    requires Shaped(nodes) && Sorted(nodes, order) && n < |order|
    ensures order[n] < |nodes| && order[n] !in NewOnes(order, loaded, n)
  {
    forall x | 0 <= x < n
      ensures order[x] != order[n]
    {
      if order[x] == order[n] {
        OrderOnce(nodes, order, x, n);
      }
    }
    assert order[n] !in order[..n];
  }

  // ----- the delta -----

  /** A stored row against the recomputed node: the outcome must agree and the bound must not
      have grown. */
  predicate Refused(r: Row, n: PathNode, depth: nat)
  {
    r.outcome != n.outcome || (n.outcome.Some? && (r.bound.None? || depth > r.bound.value))
  }

  function Refreshed(r: Row, n: PathNode, depth: nat): Row
  {
    RowFor(n, depth, r.id, r.parent).(ply := r.ply, mv := r.mv, code := r.code)
  }

  method FindById(rows: seq<Row>, id: int) returns (k: nat)
    requires ById(rows) && exists i :: 0 <= i < |rows| && rows[i].id == id
    ensures k < |rows| && rows[k].id == id
  {
    k := 0;
    while rows[k].id != id
      invariant k < |rows| && forall i :: 0 <= i < k ==> rows[i].id != id
      decreases |rows| - k
    {
      k := k + 1;
    }
  }

  /** The ids and rows a standing tree was loaded with. */
  ghost predicate LoadedRows(rows: seq<Row>, ids: seq<int>, stored: seq<Row>, src: seq<nat>)
  {
    && ById(rows) && |ids| == |stored| == |src| == |rows| && Distinct(src)
    && forall i :: 0 <= i < |src| ==> LoadedRowAt(rows, ids, stored, src, i)
  }

  ghost predicate LoadedRowAt(rows: seq<Row>, ids: seq<int>, stored: seq<Row>, src: seq<nat>, i: nat)
    requires i < |ids| == |stored| == |src|
  {
    src[i] < |rows| && stored[i] == rows[src[i]] && ids[i] == stored[i].id
  }

  /** The first `n` loaded rows are refreshed, the others as before. */
  ghost predicate RefreshedUpTo(rows: seq<Row>, was: seq<Row>, nodes: seq<PathNode>, depths: seq<nat>, src: seq<nat>,
          n: nat)
  {
    && |rows| == |was| == |src| <= |nodes| == |depths| && n <= |src|
    && forall i :: 0 <= i < |src| ==>
         src[i] < |was| && rows[src[i]] == if i < n then Refreshed(was[src[i]], nodes[i], depths[i]) else was[src[i]]
  }

  /** Compare every loaded row and update the ones that differ. */
  method UpdateRows(rows: seq<Row>, ids: seq<int>, stored: seq<Row>, nodes: seq<PathNode>, depths: seq<nat>,
          ghost src: seq<nat>)
    returns (r: Option<seq<Row>>, updated: nat)
    requires LoadedRows(rows, ids, stored, src) && |src| <= |nodes| == |depths|
    ensures r.None? <==> exists i :: 0 <= i < |src| && Refused(stored[i], nodes[i], depths[i])
    ensures r.Some? ==> RefreshedUpTo(r.value, rows, nodes, depths, src, |src|)
    ensures r.Some? && (forall i :: 0 <= i < |src| ==> Refreshed(stored[i], nodes[i], depths[i]) == stored[i]) ==>
              updated == 0
  {
    var out := rows;
    updated := 0;
    forall i | 0 <= i < |src|
      ensures src[i] < |rows|
    {
      assert LoadedRowAt(rows, ids, stored, src, i);
    }
    for i := 0 to |ids|
      invariant RefreshedUpTo(out, rows, nodes, depths, src, i) && ById(out)
      invariant forall j :: 0 <= j < i ==> !Refused(stored[j], nodes[j], depths[j])
      invariant (forall j :: 0 <= j < |src| ==> Refreshed(stored[j], nodes[j], depths[j]) == stored[j]) ==> updated == 0
    {
      assert LoadedRowAt(rows, ids, stored, src, i);
      if Refused(stored[i], nodes[i], depths[i]) {
        return None, updated;
      }
      var fresh_row := Refreshed(stored[i], nodes[i], depths[i]);
      if fresh_row != stored[i] {
        assert out[src[i]].id == ids[i];
        var k := FindById(out, ids[i]);
        SameRowId(out, k, src[i]);
        out := out[k := fresh_row];
        updated := updated + 1;
      }
    }
    r := Some(out);
  }

  method InsertRows(rows: seq<Row>, nodes: seq<PathNode>, depths: seq<nat>, idOf: seq<int>, added: seq<nat>)
    returns (r: seq<Row>)
    requires |nodes| == |depths| == |idOf| && forall a :: 0 <= a < |added| ==> added[a] < |nodes|
    requires forall i :: 0 <= i < |nodes| ==> nodes[i].parent.Some? ==> nodes[i].parent.value < |nodes|
    ensures |r| == |rows| + |added| && r[..|rows|] == rows
    ensures forall a :: 0 <= a < |added| ==> r[|rows| + a] == NewRow(nodes, depths, idOf, added[a])
  {
    r := rows;
    for a := 0 to |added|
      invariant |r| == |rows| + a && r[..|rows|] == rows
      invariant forall b :: 0 <= b < a ==> r[|rows| + b] == NewRow(nodes, depths, idOf, added[b])
    {
      r := r + [NewRow(nodes, depths, idOf, added[a])];
    }
  }

  function NewRow(nodes: seq<PathNode>, depths: seq<nat>, idOf: seq<int>, i: nat): Row
    requires i < |nodes| == |depths| == |idOf| && (nodes[i].parent.Some? ==> nodes[i].parent.value < |idOf|)
  {
    RowFor(nodes[i], depths[i], idOf[i], if nodes[i].parent.Some? then Some(idOf[nodes[i].parent.value]) else None)
  }

  // ----- the new table -----

  /** The loaded rows spell the loaded nodes' links. */
  ghost predicate LinkAt(rows: seq<Row>, nodes: seq<PathNode>, src: seq<nat>, i: nat)
    requires i < |src| <= |nodes|
  {
    && src[i] < |rows|
    && var r, n := rows[src[i]], nodes[i];
       && r.ply == n.ply && r.mv == n.mv && r.code == n.mv && (n.parent.Some? <==> i > 0)
       && (i > 0 ==>
            n.parent.value < i && src[n.parent.value] < |rows| && r.parent == Some(rows[src[n.parent.value]].id))
       && (i == 0 ==> r.parent.None?)
  }

  ghost predicate LinksMatch(rows: seq<Row>, nodes: seq<PathNode>, src: seq<nat>)
  {
    |src| <= |nodes| && forall i :: 0 <= i < |src| ==> LinkAt(rows, nodes, src, i)
  }

  /** A fold's delta: the table before and after, the finalised tree, and the numbering. */
  datatype Delta = Delta(was: seq<Row>, rows: seq<Row>, nodes: seq<PathNode>, depths: seq<nat>, src: seq<nat>,
                         idOf: seq<int>, maxId: int, added: seq<nat>)

  /** Everything the writer knows when the rows are in place. */
  ghost predicate InPlace(d: Delta)
  {
    && Shaped(d.nodes) && |d.src| == |d.was| <= |d.nodes| == |d.depths| == |d.idOf| && Distinct(d.src) && ById(d.was)
    && LinksMatch(d.was, d.nodes, d.src) && NewRanks(d.added, |d.src|, |d.nodes|) && Sorted(d.nodes, d.added)
    && |d.rows| == |d.nodes|
    && (forall i :: 0 <= i < |d.src| ==> IsOld(d, i))
    && (forall k :: 0 <= k < |d.was| ==> d.was[k].id <= d.maxId)
    && forall a :: 0 <= a < |d.added| ==> IsNew(d, a)
  }

  ghost predicate IsOld(d: Delta, i: nat)
    requires i < |d.src| <= |d.nodes| == |d.depths| == |d.idOf|
  {
    && d.src[i] < |d.was| && d.src[i] < |d.rows| && d.idOf[i] == d.was[d.src[i]].id
    && d.rows[d.src[i]] == Refreshed(d.was[d.src[i]], d.nodes[i], d.depths[i])
  }

  ghost predicate IsNew(d: Delta, a: nat)
  {
    && a < |d.added| && |d.was| + a < |d.rows| && |d.src| <= d.added[a] < |d.nodes| == |d.depths| == |d.idOf|
    && d.idOf[d.added[a]] == d.maxId + 1 + a
    && (d.nodes[d.added[a]].parent.Some? ==> d.nodes[d.added[a]].parent.value < |d.idOf|)
    && d.rows[|d.was| + a] == NewRow(d.nodes, d.depths, d.idOf, d.added[a])
  }

  lemma {:induction false} RankOf(d: Delta, i: nat) returns (a: nat)
    requires InPlace(d) && |d.src| <= i < |d.nodes|
    ensures a < |d.added| && d.added[a] == i && IsNew(d, a)
  {
    assert i in d.added;
    var x :| 0 <= x < |d.added| && d.added[x] == i;
    a := x;
    assert IsNew(d, a);
  }

  ghost predicate Numbered(d: Delta)
  {
    |d.src| <= |d.nodes| <= |d.idOf| && forall i :: |d.src| <= i < |d.nodes| ==> d.idOf[i] > d.maxId
  }

  lemma {:induction false} NewIds(d: Delta)
    requires InPlace(d)
    ensures Numbered(d)
  {
    forall i | |d.src| <= i < |d.nodes|
      ensures d.idOf[i] > d.maxId
    {
      var a := RankOf(d, i);
    }
  }

  /** Where the rows of all nodes are after the insertions. */
  ghost function Src2(d: Delta): (r: seq<nat>)
    requires Numbered(d)
    ensures |r| == |d.nodes|
  {
    seq(|d.nodes|, i requires 0 <= i < |d.nodes| =>
      if i < |d.src| then d.src[i] else |d.src| + (d.idOf[i] - d.maxId - 1))
  }

  lemma {:induction false} SrcOld(d: Delta, i: nat)
    requires Numbered(d) && i < |d.src|
    ensures Src2(d)[i] == d.src[i]
  {
  }

  lemma {:induction false} SrcPrefix(d: Delta)
    requires Numbered(d)
    ensures Src2(d)[..|d.src|] == d.src
  {
  }

  /** A new node's row is the one inserted for its rank. */
  lemma {:induction false} SrcNew(d: Delta, i: nat) returns (a: nat)
    requires InPlace(d) && Numbered(d) && |d.src| <= i < |d.nodes|
    ensures a < |d.added| && d.added[a] == i && IsNew(d, a) && Src2(d)[i] == |d.was| + a
  {
    a := RankOf(d, i);
  }

  /** The row of any node carries the node's id. */
  lemma {:induction false} IdAtPlace(d: Delta, i: nat)
    requires InPlace(d) && Numbered(d) && i < |d.nodes|
    ensures Src2(d)[i] < |d.rows| && d.rows[Src2(d)[i]].id == d.idOf[i]
  {
    hide LinksMatch, Shaped, Sorted, Src2, NewRanks;
    if i < |d.src| {
      SrcOld(d, i);
      assert IsOld(d, i);
    } else {
      var a := SrcNew(d, i);
    }
  }

  lemma {:induction false} OldRow(d: Delta, i: nat)
    requires InPlace(d) && Numbered(d) && i < |d.src|
    ensures RowIs(d.rows, d.nodes, d.depths, Src2(d), i)
  {
    assert LinkAt(d.was, d.nodes, d.src, i) && NodeShaped(d.nodes, i) && IsOld(d, i);
    hide LinksMatch, Shaped, Sorted, NodeShaped, Src2, NewRanks;
    SrcOld(d, i);
    if i > 0 {
      SrcOld(d, d.nodes[i].parent.value);
      assert IsOld(d, d.nodes[i].parent.value);
    }
  }

  /** A row made for node `i` is right if its parent's row carries the parent's id. */
  lemma {:induction false} RowMade(rows: seq<Row>, nodes: seq<PathNode>, depths: seq<nat>, idOf: seq<int>,
          src: seq<nat>,
          i: nat)
    requires i < |nodes| == |depths| == |idOf| == |src| && src[i] < |rows| && NodeShaped(nodes, i)
    requires rows[src[i]] == NewRow(nodes, depths, idOf, i)
    requires nodes[i].parent.Some? ==>
               && src[nodes[i].parent.value] < |rows|
               && rows[src[nodes[i].parent.value]].id == idOf[nodes[i].parent.value]
    ensures RowIs(rows, nodes, depths, src, i)
  {
  }

  lemma {:induction false} NewRowIs(d: Delta, i: nat)
    requires InPlace(d) && Numbered(d) && |d.src| <= i < |d.nodes|
    ensures RowIs(d.rows, d.nodes, d.depths, Src2(d), i)
  {
    assert NodeShaped(d.nodes, i) && |d.depths| == |d.nodes| == |d.idOf|;
    hide InPlace, Src2, Numbered, NodeShaped, NewRow, RowIs;
    var a := SrcNew(d, i);
    if d.nodes[i].parent.Some? {
      assert d.nodes[i].parent.value < i by { NodeAbove(d.nodes, i); }
      IdAtPlace(d, d.nodes[i].parent.value);
    }
    RowMade(d.rows, d.nodes, d.depths, d.idOf, Src2(d), i);
  }

  lemma {:induction false} NodeAbove(nodes: seq<PathNode>, i: nat)
    requires i < |nodes| && NodeShaped(nodes, i) && nodes[i].parent.Some?
    ensures nodes[i].parent.value < i
  {
  }

  /** Two nodes have two rows. */
  lemma {:induction false} PlacesDiffer(d: Delta, i: nat, j: nat)
    requires InPlace(d) && Numbered(d) && i < j < |d.nodes|
    ensures Src2(d)[i] != Src2(d)[j]
  {
    assert Distinct(d.src) && |d.src| == |d.was|;
    assert i < |d.src| ==> IsOld(d, i);
    hide InPlace, Src2, Numbered, IsNew;
    if i < |d.src| {
      SrcOld(d, i);
      if j < |d.src| {
        SrcOld(d, j);
      } else {
        var b := SrcNew(d, j);
      }
    } else {
      var a := SrcNew(d, i);
      var b := SrcNew(d, j);
    }
  }

  lemma {:induction false} PlacesOnce(d: Delta)
    requires InPlace(d) && Numbered(d)
    ensures Distinct(Src2(d))
  {
    hide InPlace, Src2, Numbered;
    forall i, j | 0 <= i < j < |Src2(d)|
      ensures Src2(d)[i] != Src2(d)[j]
    {
      PlacesDiffer(d, i, j);
    }
  }

  lemma {:induction false} OldAt(d: Delta, k: nat) returns (x: nat)
    requires InPlace(d) && k < |d.was|
    ensures x < |d.src| && d.src[x] == k && IsOld(d, x)
  {
    forall i | 0 <= i < |d.src|
      ensures d.src[i] < |d.was|
    {
      assert IsOld(d, i);
    }
    Onto(d.src, |d.was|, k);
    var y :| 0 <= y < |d.src| && d.src[y] == k;
    x := y;
    assert IsOld(d, x);
  }

  /** A row may change what it says, never which node it is. */
  predicate SameLink(a: Row, b: Row)
  {
    b.id == a.id && b.parent == a.parent && b.ply == a.ply && b.mv == a.mv && b.code == a.code
  }

  lemma {:induction false} RowsById(d: Delta)
    requires InPlace(d)
    ensures ById(d.rows) && forall k :: 0 <= k < |d.was| ==> SameLink(d.was[k], d.rows[k])
  {
    forall k | 0 <= k < |d.was|
      ensures SameLink(d.was[k], d.rows[k])
    {
      var x := OldAt(d, k);
    }
    forall k | |d.was| <= k < |d.rows|
      ensures d.rows[k].id == d.maxId + 1 + (k - |d.was|)
    {
      assert IsNew(d, k - |d.was|);
    }
  }

  /** The written table is the finalised tree. */
  lemma {:induction false} InPlaceCommitted(d: Delta)
    requires InPlace(d)
    ensures Numbered(d) && Committed(d.rows, d.nodes, d.depths, Src2(d))
    ensures forall k :: 0 <= k < |d.was| ==> SameLink(d.was[k], d.rows[k])
  {
    NewIds(d);
    PlacesOnce(d);
    RowsById(d);
    hide Src2, NewRanks, LinksMatch, RowIs;
    forall i | 0 <= i < |d.nodes|
      ensures RowIs(d.rows, d.nodes, d.depths, Src2(d), i)
    {
      if i < |d.src| {
        OldRow(d, i);
      } else {
        NewRowIs(d, i);
      }
    }
  }

  /** A new node's parent is numbered before it. */
  lemma {:induction false} ParentBefore(d: Delta, i: nat)
    requires InPlace(d) && |d.src| <= i < |d.nodes| && i > 0
    ensures d.nodes[i].parent.Some? && d.nodes[i].parent.value < i && d.idOf[d.nodes[i].parent.value] < d.idOf[i]
  {
    assert NodeShaped(d.nodes, i);
    var p := d.nodes[i].parent.value;
    NewIds(d);
    if p >= |d.src| {
      var a := RankOf(d, p);
      var b := RankOf(d, i);
      LexPrefix(PathOf(d.nodes, p), d.nodes[i].mv.value, PathOf(d.nodes, i));
      LexAsym(PathOf(d.nodes, p), PathOf(d.nodes, i));
      EarlierRank(d.nodes, d.added, b, a);
    } else {
      assert IsOld(d, p);
    }
  }

  lemma {:induction false} EarlierRank(nodes: seq<PathNode>, added: seq<nat>, b: nat, a: nat)
    requires Shaped(nodes) && Sorted(nodes, added) && a < |added| && b < |added|
    ensures b < a ==>
              added[b] < |nodes| && added[a] < |nodes| && LexLess(PathOf(nodes, added[b]), PathOf(nodes, added[a]))
  {
  }

  lemma {:induction false} InPlaceParents(d: Delta)
    requires InPlace(d) && ParentsFirst(d.was)
    ensures ParentsFirst(d.rows)
  {
    forall k | 0 <= k < |d.rows| && d.rows[k].parent.Some?
      ensures d.rows[k].parent.value < d.rows[k].id
    {
      if k < |d.was| {
        var x := OldAt(d, k);
      } else {
        var a := k - |d.was|;
        assert IsNew(d, a) && NodeShaped(d.nodes, d.added[a]);
        ParentBefore(d, d.added[a]);
      }
    }
  }

  /** Write the delta: refused exactly when a stored row disagrees with the recomputed node;
      otherwise the table is the finalised tree, no row changed its id, and new rows follow. */
  method WriteFoldDelta(rows: seq<Row>, ids: seq<int>, stored: seq<Row>, nodes: seq<PathNode>, depths: seq<nat>,
          order: seq<nat>, ghost src: seq<nat>)
    returns (r: Option<seq<Row>>, updated: nat, inserted: nat, ghost src2: seq<nat>)
    requires LoadedRows(rows, ids, stored, src) && LinksMatch(rows, nodes, src) && Shaped(nodes) && |depths| == |nodes|
    requires Sorted(nodes, order) && |order| == |nodes| && forall j :: 0 <= j < |nodes| ==> j in order
    ensures r.None? <==> exists i :: 0 <= i < |src| && Refused(stored[i], nodes[i], depths[i])
    ensures r.Some? ==> Committed(r.value, nodes, depths, src2) && src2[..|src|] == src
    ensures r.Some? ==> |r.value| == |rows| + inserted == |nodes| && forall k :: 0 <= k < |rows| ==>
              SameLink(rows[k], r.value[k])
    ensures r.Some? ==> forall i :: 0 <= i < |src| ==>
              src[i] < |rows| && r.value[src[i]] == Refreshed(stored[i], nodes[i], depths[i])
    ensures r.Some? && ParentsFirst(rows) ==> ParentsFirst(r.value)
    ensures r.Some? && (forall i :: 0 <= i < |src| ==> Refreshed(stored[i], nodes[i], depths[i]) == stored[i]) ==>
              updated == 0
  {
    hide Shaped, Sorted, LinkAt, Refused, Refreshed, Committed, ParentsFirst, NewRanks, Src2, InPlace, Numbered;
    inserted, src2 := 0, [];
    var maxId := MaxId(ids);
    var idOf, added := AssignIds(nodes, order, ids, maxId);
    var refreshed;
    refreshed, updated := UpdateRows(rows, ids, stored, nodes, depths, src);
    if refreshed.None? {
      return None, updated, inserted, src2;
    }
    ParentsWithin(nodes);
    RanksWithin(added, |ids|, |nodes|);
    var all := InsertRows(refreshed.value, nodes, depths, idOf, added);
    inserted := |added|;
    ghost var d := Delta(rows, all, nodes, depths, src, idOf, maxId, added);
    PutInPlace(d, ids, stored, refreshed.value);
    InPlaceCommitted(d);
    RefreshedRows(d, ids, stored);
    if ParentsFirst(rows) {
      InPlaceParents(d);
    }
    SrcPrefix(d);
    src2 := Src2(d);
    r := Some(all);
  }

  lemma {:induction false} ParentsWithin(nodes: seq<PathNode>)
    requires Shaped(nodes)
    ensures forall i :: 0 <= i < |nodes| ==> nodes[i].parent.Some? ==> nodes[i].parent.value < |nodes|
  {
    forall i | 0 <= i < |nodes| && nodes[i].parent.Some?
      ensures nodes[i].parent.value < |nodes|
    {
      assert NodeShaped(nodes, i);
    }
  }

  lemma {:induction false} RanksWithin(added: seq<nat>, loaded: nat, total: nat)
    requires NewRanks(added, loaded, total)
    ensures |added| == total - loaded && forall a :: 0 <= a < |added| ==> loaded <= added[a] < total
  {
  }

  lemma {:induction false} RefreshedRows(d: Delta, ids: seq<int>, stored: seq<Row>)
    requires InPlace(d) && LoadedRows(d.was, ids, stored, d.src)
    ensures |d.rows| == |d.nodes|
    ensures forall i :: 0 <= i < |d.src| ==>
              d.src[i] < |d.was| && d.rows[d.src[i]] == Refreshed(stored[i], d.nodes[i], d.depths[i])
  {
    hide Refreshed;
    forall i | 0 <= i < |d.src|
      ensures d.src[i] < |d.was| && d.rows[d.src[i]] == Refreshed(stored[i], d.nodes[i], d.depths[i])
    {
      assert IsOld(d, i) && LoadedRowAt(d.was, ids, stored, d.src, i);
    }
  }

  lemma {:induction false} PutInPlace(d: Delta, ids: seq<int>, stored: seq<Row>, refreshed: seq<Row>)
    requires LoadedRows(d.was, ids, stored, d.src) && LinksMatch(d.was, d.nodes, d.src) && Shaped(d.nodes)
    requires |d.depths| == |d.nodes| == |d.idOf| && NewRanks(d.added, |d.src|, |d.nodes|) && Sorted(d.nodes, d.added)
    requires d.idOf[..|ids|] == ids && RefreshedUpTo(refreshed, d.was, d.nodes, d.depths, d.src, |d.src|)
    requires forall i :: 0 <= i < |ids| ==> ids[i] <= d.maxId
    requires forall a :: 0 <= a < |d.added| ==> d.added[a] < |d.idOf| && d.idOf[d.added[a]] == d.maxId + 1 + a
    requires |d.rows| == |refreshed| + |d.added| && d.rows[..|refreshed|] == refreshed
    requires forall i :: 0 <= i < |d.nodes| ==> d.nodes[i].parent.Some? ==> d.nodes[i].parent.value < |d.nodes|
    requires forall a :: 0 <= a < |d.added| ==>
               d.added[a] < |d.nodes| && d.rows[|refreshed| + a] == NewRow(d.nodes, d.depths, d.idOf, d.added[a])
    ensures InPlace(d)
  {
    RanksWithin(d.added, |d.src|, |d.nodes|);
    hide Sorted, Shaped, NewRanks, LinksMatch, Refreshed, NewRow;
    forall i | 0 <= i < |d.src|
      ensures IsOld(d, i) && d.idOf[i] <= d.maxId
    {
      assert LoadedRowAt(d.was, ids, stored, d.src, i);
      assert d.idOf[..|ids|][i] == d.idOf[i] && d.rows[..|refreshed|][d.src[i]] == d.rows[d.src[i]];
    }
    forall k | 0 <= k < |d.was|
      ensures d.was[k].id <= d.maxId
    {
      Onto(d.src, |d.was|, k);
      var x :| 0 <= x < |d.src| && d.src[x] == k;
      assert IsOld(d, x);
    }
    forall a | 0 <= a < |d.added|
      ensures IsNew(d, a)
    {
    }
  }
}
