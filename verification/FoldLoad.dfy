/** Loading the standing tree: a depth-first walk over the rows that replays every stored move. */
module FoldLoad {
  import opened Game
  import opened Lists
  import opened Paths
  import opened PathTruth
  import opened Fold

  /** The rows below `id` among the first `n`. */
  function ChildRows(rows: seq<Row>, id: int, n: nat): (ks: seq<nat>)
    requires n <= |rows|
    ensures forall k: nat :: k in ks <==> k < n && rows[k].parent == Some(id)
  {
    if n == 0 then [] else ChildRows(rows, id, n - 1) + if rows[n - 1].parent == Some(id) then [n - 1] else []
  }

  lemma {:induction false} ChildRowsOnce(rows: seq<Row>, id: int, n: nat)
    requires n <= |rows|
    ensures Distinct(ChildRows(rows, id, n))
  {
    if n > 0 {
      ChildRowsOnce(rows, id, n - 1);
      var before := ChildRows(rows, id, n - 1);
      assert forall k :: 0 <= k < |before| ==> before[k] in before;
    }
  }

  /** A tree that all rows stand for, legally. */
  ghost predicate Wanted(g: Rules, start: Position, rows: seq<Row>, nodes: seq<PathNode>, src: seq<nat>)
  {
    Whole(rows, nodes, src) && WellPlayed(g, start, nodes)
  }

  datatype Want = Want(nodes: seq<PathNode>, src: seq<nat>)

  /** Below node `p` the rows of all children have been walked. */
  ghost predicate ClosedAt(rows: seq<Row>, src: seq<nat>, i: nat)
  {
    i < |src| && src[i] < |rows| && forall k :: 0 <= k < |rows| && rows[k].parent == Some(rows[src[i]].id) ==> k in src
  }

  /** What a walk adds: nodes from `from` on, all below it, each closed. */
  ghost predicate Added(rows: seq<Row>, nodes: seq<PathNode>, src: seq<nat>, from: nat)
    requires |nodes| == |src|
  {
    && from < |nodes|
    && (forall x :: from < x < |nodes| ==> nodes[x].parent.Some? && nodes[x].parent.value >= from)
    && forall x :: from <= x < |nodes| ==> ClosedAt(rows, src, x)
  }

  /** Older nodes stay, up to new children of `p`. */
  ghost predicate Extends(a: seq<PathNode>, sa: seq<nat>, b: seq<PathNode>, sb: seq<nat>, p: nat)
  {
    && |a| <= |b| && |sa| <= |sb| && sb[..|sa|] == sa
    && (forall i :: 0 <= i < |a| ==> b[i] == a[i].(children := b[i].children))
    && forall i :: 0 <= i < |a| && i != p ==> b[i] == a[i]
  }

  lemma {:induction false} ExtendsTrans(a: seq<PathNode>, sa: seq<nat>, b: seq<PathNode>, sb: seq<nat>,
          c: seq<PathNode>, sc: seq<nat>, p: nat, q: nat)
    requires Extends(a, sa, b, sb, p) && Extends(b, sb, c, sc, q) && |a| == |sa| && |b| == |sb| && q >= |a|
    ensures Extends(a, sa, c, sc, p)
  {
    assert sc[..|sa|] == sc[..|sb|][..|sa|];
  }

  lemma {:induction false} ExtendsSame(a: seq<PathNode>, sa: seq<nat>, b: seq<PathNode>, sb: seq<nat>, c: seq<PathNode>,
          sc: seq<nat>, p: nat)
    requires Extends(a, sa, b, sb, p) && Extends(b, sb, c, sc, p) && |a| == |sa| && |b| == |sb|
    ensures Extends(a, sa, c, sc, p)
  {
    assert sc[..|sa|] == sc[..|sb|][..|sa|];
  }

  lemma {:induction false} SrcSmall(rows: seq<Row>, nodes: seq<PathNode>, src: seq<nat>)
    requires Part(rows, nodes, src)
    ensures |src| <= |rows|
  {
    forall i | 0 <= i < |src|
      ensures src[i] < |rows|
    {
      assert Stored(rows, nodes, src, i);
    }
    TooMany(src, |rows|);
  }

  function FreshNode(rows: seq<Row>, r: Row, parent: Option<nat>, ply: nat): PathNode
  {
    PathNode(parent, ply, r.mv, r.outcome, r.prov, map[], ClaimsOf(rows, r))
  }

  /** Pushing the row of a new child. */
  lemma {:induction false} PushPart(rows: seq<Row>, nodes: seq<PathNode>, src: seq<nat>, p: nat, k: nat)
    requires Part(rows, nodes, src) && p < |nodes| && k < |rows| && k !in src && src[p] < |rows|
    requires var r := rows[k];
             && DomainOk(r) && r.parent == Some(rows[src[p]].id) && r.mv.Some? && r.code == r.mv && r.mv.value < CODES
             && r.ply == nodes[p].ply + 1 && r.mv.value !in nodes[p].children
    ensures var n := FreshNode(rows, rows[k], Some(p), nodes[p].ply + 1);
            var b := nodes[p := nodes[p].(children := nodes[p].children[rows[k].mv.value := |nodes|])] + [n];
            && Part(rows, b, src + [k]) && Extends(nodes, src, b, src + [k], p)
            && PathOf(b, |nodes|) == PathOf(nodes, p) + [rows[k].mv.value] && PathOf(b, p) == PathOf(nodes, p)
  {
    var r := rows[k];
    var n := FreshNode(rows, r, Some(p), nodes[p].ply + 1);
    var m := r.mv.value;
    var b := nodes[p := nodes[p].(children := nodes[p].children[m := |nodes|])] + [n];
    PushShaped(nodes, p, m, n);
    PathFrame(nodes, b, p);
    forall i | 0 <= i < |b|
      ensures Stored(rows, b, src + [k], i)
    {
      if i < |nodes| {
        assert Stored(rows, nodes, src, i);
      } else {
        assert Stored(rows, nodes, src, p);
      }
    }
  }

  lemma {:induction false} PushShaped(nodes: seq<PathNode>, p: nat, m: Move, n: PathNode)
    requires Shaped(nodes) && p < |nodes| && m < CODES && m !in nodes[p].children
    requires n.parent == Some(p) && n.ply == nodes[p].ply + 1 && n.mv == Some(m) && n.children == map[]
    ensures Shaped(nodes[p := nodes[p].(children := nodes[p].children[m := |nodes|])] + [n])
  {
    GrownShaped(nodes, p, m, n.(claims := []));
    var a := Grown(nodes, p, m, n.(claims := []));
    var b := nodes[p := nodes[p].(children := nodes[p].children[m := |nodes|])] + [n];
    forall j | 0 <= j < |b|
      ensures NodeShaped(b, j)
    {
      assert NodeShaped(a, j);
      forall x | x in b[j].children
        ensures ChildShaped(b, j, x)
      {
        assert ChildShaped(a, j, x);
      }
    }
  }

  /** A child with the move of row `k` is row `k`. */
  lemma {:induction false} TwinIsSame(rows: seq<Row>, nodes: seq<PathNode>, src: seq<nat>, p: nat, k: nat, w: Want,
          x: nat)
    requires ById(rows) && Part(rows, nodes, src) && p < |nodes| && k < |rows| && Whole(rows, w.nodes, w.src)
    requires x < |w.nodes| && w.src[x] == k && w.nodes[x].parent.Some? && w.nodes[x].parent.value < x
             && w.nodes[x].mv.Some?
    requires PathOf(w.nodes, w.nodes[x].parent.value) == PathOf(nodes, p)
    requires w.nodes[x].mv.value in nodes[p].children
    ensures k in src
  {
    var m := w.nodes[x].mv.value;
    var c := nodes[p].children[m];
    ChildPath(nodes, p, m);
    assert Stored(rows, nodes, src, c);
    var y := NodeOfRow(rows, w.nodes, w.src, src[c]);
    SamePath(rows, nodes, src, c, w.nodes, w.src, y);
    assert PathOf(w.nodes, x) == PathOf(nodes, p) + [m];
    PathOnce(w.nodes, x, y);
  }

  /** If the rows are in order, the next child row passes every check. */
  lemma {:induction false} ChildPasses(g: Rules, start: Position, rows: seq<Row>, nodes: seq<PathNode>, src: seq<nat>,
          p: nat, k: nat, w: Want)
    requires ById(rows) && Part(rows, nodes, src) && p < |nodes| && k < |rows| && k !in src && src[p] < |rows|
    requires rows[k].parent == Some(rows[src[p]].id) && Wanted(g, start, rows, w.nodes, w.src)
    ensures var r := rows[k];
            && DomainOk(r) && r.mv.Some? && r.code == r.mv && r.mv.value < CODES && r.ply == nodes[p].ply + 1
            && r.mv.value in g.legal(At(g, start, nodes, p)) && r.mv.value !in nodes[p].children
  {
    var x := NodeOfRow(rows, w.nodes, w.src, k);
    assert NodeShaped(w.nodes, x);
    var q := w.nodes[x].parent.value;
    assert Stored(rows, w.nodes, w.src, q) && Stored(rows, nodes, src, p);
    SameRowId(rows, w.src[q], src[p]);
    SamePath(rows, nodes, src, p, w.nodes, w.src, q);
    assert ChildShaped(w.nodes, q, w.nodes[x].mv.value);
    if rows[k].mv.value in nodes[p].children {
      TwinIsSame(rows, nodes, src, p, k, w, x);
    }
  }

  // ----- the walk -----

  lemma {:induction false} SameSource(src: seq<nat>, a: nat, b: nat)
    requires Distinct(src) && a < |src| && b < |src| && src[a] == src[b]
    ensures a == b
  {
  }

  lemma {:induction false} SameAt(g: Rules, start: Position, a: seq<PathNode>, sa: seq<nat>, b: seq<PathNode>,
          sb: seq<nat>, p: nat, i: nat)
    requires Shaped(a) && Shaped(b) && Extends(a, sa, b, sb, p) && i < |a|
    ensures At(g, start, b, i) == At(g, start, a, i)
  {
    PathFrame(a, b, i);
  }

  /** A child row that is not among the walked ones has not been visited. */
  lemma {:induction false} NotYet(rows: seq<Row>, nodes: seq<PathNode>, src: seq<nat>, idx: nat, ks: seq<nat>, x: nat)
    requires ById(rows) && Part(rows, nodes, src) && idx < |nodes| && src[idx] < |rows| && Distinct(ks) && x < |ks|
    requires ks[x] < |rows| && rows[ks[x]].parent == Some(rows[src[idx]].id)
    requires forall y :: 0 <= y < |nodes| && nodes[y].parent == Some(idx) ==> src[y] in ks[..x]
    ensures ks[x] !in src
  {
    var id := rows[src[idx]].id;
    forall y | 0 <= y < |src| && src[y] < |rows| && rows[src[y]].parent == Some(id)
      ensures src[y] in ks[..x]
    {
      assert Stored(rows, nodes, src, y);
      var q := nodes[y].parent.value;
      SameRowId(rows, src[q], src[idx]);
      SameSource(src, q, idx);
    }
    assert ks[x] !in ks[..x];
  }

  function Pushed(rows: seq<Row>, nodes: seq<PathNode>, p: nat, r: Row, m: Move): seq<PathNode>
    requires p < |nodes|
  {
    nodes[p := nodes[p].(children := nodes[p].children[m := |nodes|])] + [FreshNode(rows, r, Some(p), nodes[p].ply + 1)]
  }

  lemma {:induction false} PushFacts(g: Rules, start: Position, rows: seq<Row>, nodes: seq<PathNode>, src: seq<nat>,
          p: nat, k: nat)
    requires Part(rows, nodes, src) && WellPlayed(g, start, nodes) && p < |nodes| && k < |rows| && k !in src
             && src[p] < |rows|
    requires var r := rows[k];
             && DomainOk(r) && r.parent == Some(rows[src[p]].id) && r.mv.Some? && r.code == r.mv && r.mv.value < CODES
             && r.ply == nodes[p].ply + 1 && r.mv.value !in nodes[p].children
             && r.mv.value in g.legal(At(g, start, nodes, p))
    ensures var m := rows[k].mv.value;
            var b := Pushed(rows, nodes, p, rows[k], m);
            && |b| == |nodes| + 1 && b[|nodes|] == FreshNode(rows, rows[k], Some(p), nodes[p].ply + 1)
            && (forall i :: 0 <= i < |nodes| ==> b[i].claims == nodes[i].claims)
            && Part(rows, b, src + [k]) && Extends(nodes, src, b, src + [k], p) && WellPlayed(g, start, b)
            && At(g, start, b, |nodes|) == g.play(At(g, start, nodes, p), m)
  {
    var m := rows[k].mv.value;
    var b := Pushed(rows, nodes, p, rows[k], m);
    PushPart(rows, nodes, src, p, k);
    hide Part, Stored, Shaped, PathOf;
    PartShaped(rows, b, src + [k]);
    PartShaped(rows, nodes, src);
    PlayedMore(g, start, nodes, b, p, m);
    ReplaySnoc(g, start, PathOf(nodes, p), m);
  }

  lemma {:induction false} PartShaped(rows: seq<Row>, nodes: seq<PathNode>, src: seq<nat>)
    requires Part(rows, nodes, src)
    ensures Shaped(nodes) && |src| == |nodes|
  {
  }

  class Loader {
    const g: Rules
    const start: Position
    const rows: seq<Row>
    const pos: Board
    var nodes: seq<PathNode>
    var ids: seq<int>
    var stored: seq<Row>
    ghost var src: seq<nat>

    constructor (g: Rules, start: Position, rows: seq<Row>, root: nat)
      requires ById(rows) && root < |rows| && rows[root].parent.None? && DomainOk(rows[root])
      requires rows[root].ply == 0 && rows[root].mv.None? && rows[root].code.None?
      ensures Valid() && fresh(pos) && pos.cur == At(g, start, nodes, 0)
      ensures this.g == g && this.start == start && this.rows == rows && src == [root]
    {
      this.g, this.start, this.rows := g, start, rows;
      pos := new Board(g, start);
      nodes := [FreshNode(rows, rows[root], None, 0)];
      ids, stored, src := [rows[root].id], [rows[root]], [root];
      new;
      assert NodeShaped(nodes, 0) && Stored(rows, nodes, src, 0);
      assert PathOf(nodes, 0) == [];
    }

    ghost predicate Valid()
      reads this
    {
      && ById(rows) && Part(rows, nodes, src) && WellPlayed(g, start, nodes) && pos.g == g
      && |ids| == |stored| == |src|
      && (forall i :: 0 <= i < |src| ==> src[i] < |rows| && stored[i] == rows[src[i]] && ids[i] == stored[i].id)
      && forall i :: 0 <= i < |src| ==> nodes[i].claims == ClaimsOf(rows, rows[src[i]])
    }

    ghost predicate Wants(want: Option<Want>)
    {
      want.Some? ==> Wanted(g, start, rows, want.value.nodes, want.value.src)
    }

    /** Check the row of a child and push it. */
    method Push(k: nat, p: nat, ghost want: Option<Want>) returns (ok: bool)
      requires Valid() && Wants(want) && k < |rows| && k !in src && p < |nodes|
               && rows[k].parent == Some(rows[src[p]].id)
      requires pos.cur == At(g, start, nodes, p)
      modifies this`nodes, this`ids, this`stored, this`src
      ensures Valid() && Shaped(old(nodes)) && (want.Some? ==> ok)
      ensures ok ==>
                && src == old(src) + [k] && Extends(old(nodes), old(src), nodes, src, p)
                && nodes[|old(nodes)|].parent == Some(p)
      ensures ok ==> rows[k].mv.Some? && At(g, start, nodes, |old(nodes)|) == g.play(pos.cur, rows[k].mv.value)
    {
      hide Part, ById, Stored, WellPlayed, Wanted, At, Extends, Pushed;
      PartShaped(rows, nodes, src);
      var r := rows[k];
      if want.Some? {
        ChildPasses(g, start, rows, nodes, src, p, k, want.value);
      }
      if r.ply <= 0 || r.mv.None? || r.mv.value !in g.legal(pos.cur) || r.code != r.mv || r.mv.value >= CODES {
        return false;
      }
      if !DomainOk(r) || r.ply != nodes[p].ply + 1 || r.mv.value in nodes[p].children {
        return false;
      }
      PushFacts(g, start, rows, nodes, src, p, k);
      nodes := Pushed(rows, nodes, p, r, r.mv.value);
      ids, stored, src := ids + [r.id], stored + [r], src + [k];
      ok := true;
    }

    /** Walk the row of a child of `p` and everything below it. */
    method Walk(k: nat, p: nat, ghost want: Option<Want>) returns (ok: bool)
      requires Valid() && Wants(want) && k < |rows| && k !in src && p < |nodes|
               && rows[k].parent == Some(rows[src[p]].id)
      requires pos.cur == At(g, start, nodes, p)
      modifies this`nodes, this`ids, this`stored, this`src, pos
      ensures Valid() && (want.Some? ==> ok)
      ensures ok ==> pos.cur == old(pos.cur) && pos.undo == old(pos.undo)
      ensures ok ==> |old(nodes)| < |nodes| == |src| && src[|old(nodes)|] == k && nodes[|old(nodes)|].parent == Some(p)
      ensures ok ==> Extends(old(nodes), old(src), nodes, src, p) && Added(rows, nodes, src, |old(nodes)|)
      decreases |rows| - |src|, 1
    {
      hide Part, ById, WellPlayed, Stored, Added, Wanted, DomainOk;
      ghost var n0, s0 := nodes, src;
      Sizes();
      var pushed := Push(k, p, want);
      if !pushed {
        return false;
      }
      ghost var n1, s1 := nodes, src;
      Sizes();
      ghost var idx := |n0|;
      NewLeaf(rows, n1, s1, idx);
      pos.DoMove(rows[k].mv.value);
      ok := WalkKids(|nodes| - 1, k, want);
      if ok {
        pos.UndoMove();
        Sizes();
        ExtendsTrans(n0, s0, n1, s1, nodes, src, p, idx);
      }
    }

    lemma {:induction false} Sizes()
      requires Valid()
      ensures |nodes| == |src| <= |rows| && Shaped(nodes) && ById(rows) && Part(rows, nodes, src)
      ensures forall i :: 0 <= i < |src| ==> src[i] < |rows|
    {
      SrcSmall(rows, nodes, src);
    }

    /** Walk all child rows of a node that has no child yet. */
    method WalkKids(idx: nat, k: nat, ghost want: Option<Want>) returns (ok: bool)
      requires Valid() && Wants(want) && idx < |nodes| && src[idx] == k && k < |rows|
               && pos.cur == At(g, start, nodes, idx)
      requires NoKidsYet(nodes, idx) && idx == |nodes| - 1
      modifies this`nodes, this`ids, this`stored, this`src, pos
      ensures Valid() && (want.Some? ==> ok)
      ensures ok ==> pos.cur == old(pos.cur) && pos.undo == old(pos.undo)
      ensures ok ==> |nodes| == |src| && Extends(old(nodes), old(src), nodes, src, idx) && Added(rows, nodes, src, idx)
      decreases |rows| - |src|, 2
    {
      hide Part, ById, WellPlayed, Stored, Wanted, DomainOk, At, NodeShaped;
      var ks := ChildRows(rows, rows[k].id, |rows|);
      ChildRowsOnce(rows, rows[k].id, |rows|);
      Sizes();
      ghost var n0, s0 := nodes, src;
      var x := 0;
      while x < |ks|
        invariant x <= |ks| && Valid() && |nodes| == |src| <= |rows| && |s0| <= |src| && Shaped(nodes)
        invariant pos.cur == At(g, start, nodes, idx) == old(pos.cur) && pos.undo == old(pos.undo)
        invariant Extends(n0, s0, nodes, src, idx)
        invariant Walked(rows, nodes, src, idx, ks, x)
        decreases |ks| - x
      {
        ghost var a, sa := nodes, src;
        Sizes();
        assert ks[x] in ks;
        NotYet(rows, nodes, src, idx, ks, x);
        var fine := Walk(ks[x], idx, want);
        if !fine {
          return false;
        }
        Sizes();
        WalkedMore(rows, a, sa, nodes, src, idx, ks, x);
        ExtendsSame(n0, s0, a, sa, nodes, src, idx);
        SameAt(g, start, a, sa, nodes, src, idx, idx);
        x := x + 1;
      }
      AllWalked(rows, nodes, src, idx, ks);
      ok := true;
    }
  }

  /** The first `x` child rows of `idx` have been walked, and nothing else was added. */
  ghost predicate Walked(rows: seq<Row>, nodes: seq<PathNode>, src: seq<nat>, idx: nat, ks: seq<nat>, x: nat)
    requires |nodes| == |src| && x <= |ks|
  {
    && idx < |nodes|
    && (forall y :: 0 <= y < |nodes| && nodes[y].parent == Some(idx) ==> src[y] in ks[..x])
    && (forall y :: idx < y < |nodes| ==> nodes[y].parent.Some? && nodes[y].parent.value >= idx)
    && (forall y :: idx < y < |nodes| ==> ClosedAt(rows, src, y))
    && forall c :: 0 <= c < x ==> ks[c] in src
  }

  ghost predicate NoKidsYet(nodes: seq<PathNode>, idx: nat)
  {
    forall y :: 0 <= y < |nodes| ==> nodes[y].parent != Some(idx)
  }

  lemma {:induction false} NewLeaf(rows: seq<Row>, nodes: seq<PathNode>, src: seq<nat>, idx: nat)
    requires Part(rows, nodes, src) && idx == |nodes| - 1
    ensures NoKidsYet(nodes, idx)
  {
    forall y | 0 <= y < |nodes|
      ensures nodes[y].parent != Some(idx)
    {
      assert NodeShaped(nodes, y);
    }
  }

  lemma {:induction false} WalkedMore(rows: seq<Row>, a: seq<PathNode>, sa: seq<nat>, b: seq<PathNode>, sb: seq<nat>,
          idx: nat, ks: seq<nat>, x: nat)
    requires |a| == |sa| && |b| == |sb| && x < |ks| && Walked(rows, a, sa, idx, ks, x) && Extends(a, sa, b, sb, idx)
    requires |a| < |b| && sb[|a|] == ks[x] && b[|a|].parent == Some(idx) && Added(rows, b, sb, |a|)
    ensures Walked(rows, b, sb, idx, ks, x + 1)
  {
    assert ks[..x + 1] == ks[..x] + [ks[x]];
    forall y | 0 <= y < |b| && b[y].parent == Some(idx)
      ensures sb[y] in ks[..x + 1]
    {
      if y < |a| {
        assert a[y].parent == Some(idx) && sb[y] == sb[..|sa|][y];
      }
    }
    forall y | idx < y < |b|
      ensures b[y].parent.Some? && b[y].parent.value >= idx && ClosedAt(rows, sb, y)
    {
      if y < |a| {
        assert ClosedAt(rows, sa, y) && sb[y] == sb[..|sa|][y];
        KeptIn(sa, sb);
      }
    }
    forall c | 0 <= c < x + 1
      ensures ks[c] in sb
    {
      KeptIn(sa, sb);
    }
  }

  lemma {:induction false} KeptIn(sa: seq<nat>, sb: seq<nat>)
    requires |sa| <= |sb| && sb[..|sa|] == sa
    ensures forall k :: k in sa ==> k in sb
  {
    forall k | k in sa
      ensures k in sb
    {
      var i :| 0 <= i < |sa| && sa[i] == k;
      assert sb[..|sa|][i] == sb[i];
    }
  }

  lemma {:induction false} AllWalked(rows: seq<Row>, nodes: seq<PathNode>, src: seq<nat>, idx: nat, ks: seq<nat>)
    requires |nodes| == |src| && idx < |nodes| && src[idx] < |rows| && Walked(rows, nodes, src, idx, ks, |ks|)
    requires forall k: nat :: k in ks <==> k < |rows| && rows[k].parent == Some(rows[src[idx]].id)
    ensures Added(rows, nodes, src, idx)
  {
    forall k | 0 <= k < |rows| && rows[k].parent == Some(rows[src[idx]].id)
      ensures k in src
    {
      var c :| 0 <= c < |ks| && ks[c] == k;
    }
    assert ClosedAt(rows, src, idx);
  }

  lemma {:induction false} PlayedMore(g: Rules, start: Position, a: seq<PathNode>, b: seq<PathNode>, p: nat, m: Move)
    requires Shaped(a) && Shaped(b) && WellPlayed(g, start, a) && p < |a| && |b| == |a| + 1
             && m in g.legal(At(g, start, a, p))
    requires SameShape(a, b) && b[p].children == a[p].children[m := |a|] && b[|a|].children == map[]
    requires forall i :: 0 <= i < |a| && i != p ==> b[i].children == a[i].children
    ensures WellPlayed(g, start, b)
  {
    forall i, x | 0 <= i < |b| && x in b[i].children
      ensures x in g.legal(At(g, start, b, i))
    {
      PathFrame(a, b, i);
    }
  }

  // ----- the whole store -----

  /** What the loader hands over: the tree, and per node its row and id. */
  datatype Standing = Standing(nodes: seq<PathNode>, ids: seq<int>, stored: seq<Row>)

  /** A loaded store: one node per row, claims as the rows say. */
  ghost predicate LoadedAs(g: Rules, start: Position, rows: seq<Row>, r: Standing, src: seq<nat>)
  {
    && Whole(rows, r.nodes, src) && WellPlayed(g, start, r.nodes) && |r.ids| == |r.stored| == |src|
    && forall i :: 0 <= i < |src| ==> LoadedRow(rows, r, src, i)
  }

  ghost predicate LoadedRow(rows: seq<Row>, r: Standing, src: seq<nat>, i: nat)
    requires i < |src| == |r.ids| == |r.stored| == |r.nodes|
  {
    && src[i] < |rows| && r.stored[i] == rows[src[i]] && r.ids[i] == r.stored[i].id
    && r.nodes[i].claims == ClaimsOf(rows, rows[src[i]])
  }

  method FindRoots(rows: seq<Row>) returns (ks: seq<nat>)
    ensures Distinct(ks) && forall k: nat :: k in ks <==> k < |rows| && rows[k].parent.None?
  {
    ks := [];
    for i := 0 to |rows|
      invariant Distinct(ks) && forall k: nat :: k in ks <==> k < i && rows[k].parent.None?
    {
      if rows[i].parent.None? {
        assert forall a :: 0 <= a < |ks| ==> ks[a] in ks;
        ks := ks + [i];
      }
    }
  }

  lemma {:induction false} OneRoot(g: Rules, start: Position, rows: seq<Row>, w: Want, ks: seq<nat>)
    requires ById(rows) && rows != [] && Wanted(g, start, rows, w.nodes, w.src)
    requires Distinct(ks) && forall k: nat :: k in ks <==> k < |rows| && rows[k].parent.None?
    ensures |ks| == 1 && w.src[0] == ks[0] < |rows|
    ensures var r := rows[ks[0]]; DomainOk(r) && r.ply == 0 && r.mv.None? && r.code.None?
  {
    assert Stored(rows, w.nodes, w.src, 0) && NodeShaped(w.nodes, 0);
    assert w.src[0] in ks;
    forall k | k in ks
      ensures k == w.src[0]
    {
      var x := NodeOfRow(rows, w.nodes, w.src, k);
    }
    forall i | 0 <= i < |ks|
      ensures ks[i] in [w.src[0]]
    {
      assert ks[i] in ks;
    }
    SubLength(ks, [w.src[0]]);
  }

  /** In an orderly store everything is reached from the root. */
  lemma {:induction false} AllReached(g: Rules, start: Position, rows: seq<Row>, nodes: seq<PathNode>, src: seq<nat>,
          w: Want, x: nat)
    requires ById(rows) && Part(rows, nodes, src) && Added(rows, nodes, src, 0)
             && Wanted(g, start, rows, w.nodes, w.src)
    requires x < |w.nodes| && src[0] == w.src[0]
    ensures w.src[x] in src
    decreases x
  {
    assert Stored(rows, w.nodes, w.src, x);
    if x > 0 {
      var q := w.nodes[x].parent.value;
      AllReached(g, start, rows, nodes, src, w, q);
      var y :| 0 <= y < |src| && src[y] == w.src[q];
      assert ClosedAt(rows, src, y);
    }
  }

  lemma {:induction false} AllCounted(g: Rules, start: Position, rows: seq<Row>, nodes: seq<PathNode>, src: seq<nat>,
          w: Want)
    requires ById(rows) && Part(rows, nodes, src) && Added(rows, nodes, src, 0)
             && Wanted(g, start, rows, w.nodes, w.src)
    requires src[0] == w.src[0]
    ensures |src| == |rows|
  {
    forall x | 0 <= x < |w.src|
      ensures w.src[x] in src
    {
      AllReached(g, start, rows, nodes, src, w, x);
    }
    SubLength(w.src, src);
    SrcSmall(rows, nodes, src);
  }

  /** Load the standing tree.  A loaded tree has exactly one node per row, at the path of legal
      moves the rows spell; a store that stands for such a tree is always loaded. */
  method LoadStandingTree(g: Rules, start: Position, rows: seq<Row>, ghost want: Option<Want>)
    returns (r: Option<Standing>, ghost src: seq<nat>)
    requires ById(rows) && (want.Some? ==> Wanted(g, start, rows, want.value.nodes, want.value.src))
    ensures rows == [] ==> r == Some(Standing([ROOT_NODE], [], [])) && src == []
    ensures rows != [] && r.Some? ==> LoadedAs(g, start, rows, r.value, src)
    ensures rows != [] && want.Some? ==> r.Some?
  {
    src := [];
    if rows == [] {
      return Some(Standing([ROOT_NODE], [], [])), src;
    }
    var roots := FindRoots(rows);
    if want.Some? {
      OneRoot(g, start, rows, want.value, roots);
    }
    if |roots| != 1 {
      return None, src;
    }
    assert roots[0] in roots;
    var root := rows[roots[0]];
    if root.ply != 0 || root.mv.Some? || root.code.Some? || !DomainOk(root) {
      return None, src;
    }
    var loader := new Loader(g, start, rows, roots[0]);
    NewLeaf(rows, loader.nodes, loader.src, 0);
    ghost var s0 := loader.src;
    hide Added, Wanted, Stored, WellPlayed;
    var ok := loader.WalkKids(0, roots[0], want);
    if !ok {
      return None, src;
    }
    src := loader.src;
    loader.Sizes();
    assert src[0] == src[..|s0|][0];
    if want.Some? {
      AllCounted(g, start, rows, loader.nodes, src, want.value);
    }
    if |loader.ids| != |rows| {
      return None, src;
    }
    r := Some(Standing(loader.nodes, loader.ids, loader.stored));
  }
}
