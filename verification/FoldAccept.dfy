/** Every table a fold commits is accepted by the whole-store validator. */
module FoldAccept {
  import opened Game
  import opened Tree
  import opened Paths
  import opened PathDepth
  import opened PathOrder
  import opened PathMerge
  import opened PathSame
  import opened PathTruth
  import opened PathShards
  import opened PathSkeleton
  import opened MergeResult
  import opened Fold
  import opened FoldLoad
  import opened FoldWrite
  import opened FoldRun
  import opened FoldStore
  import opened FoldOnce
  import DV = FoldVerify
  import Verdicts = FoldVerdict
  import FT = FoldTrust

  // ----- provenance -----

  lemma {:induction false} StemTagged(path: Path, tag: Tag, n: nat, p: Path)
    requires n <= |path| && Node(p) in StemMarks(path, tag, n)
    ensures Tagged(p, tag) in StemMarks(path, tag, n)
  {
    if n > 0 && p != path[..n] {
      StemTagged(path, tag, n - 1, p);
    }
  }

  lemma {:induction false} BodyTagged(s: Shard, p: Path)
    requires Linked(s.nodes) && Node(p) in BodyMarks(s)
    ensures Tagged(p, s.tag) in BodyMarks(s)
  {
    var j: nat :| j < |s.nodes| && Node(p) in OwnMarks(s, j);
    assert Tagged(p, s.tag) in OwnMarks(s, j);
  }

  /** Every recorded node but the root names a shard. */
  lemma {:induction false} NodeTagged(ss: seq<Shard>, p: Path) returns (t: Tag)
    requires AllShaped(ss) && Node(p) in AllMarks(ss) && p != []
    ensures Tagged(p, t) in AllMarks(ss)
  {
    hide StemMarks, BodyMarks, ShardShaped;
    var k :| 0 <= k < |ss| && Node(p) in ShardMarks(ss[k]);
    t := ss[k].tag;
    ShardParts(ss[k]);
    MarksSplit(ss[k]);
    if Node(p) in BodyMarks(ss[k]) {
      BodyTagged(ss[k], p);
    } else {
      StemTagged(ss[k].path, t, |ss[k].path|, p);
    }
    assert Tagged(p, t) in ShardMarks(ss[k]);
  }

  lemma {:induction false} HasProvenance(g: Rules, start: Position, rows: seq<Row>, ss: seq<Shard>, w: Backing, x: nat)
    requires IsStore(g, start, rows, ss, w) && x < |w.nodes| && PathOf(w.nodes, x) != []
    ensures w.nodes[x].prov != {}
  {
    assert NodeReads(w.nodes, w.marks, x);
    hide AllMarks, Truthful, GoodShard, ShardShaped, Reads, Committed;
    var p := PathOf(w.nodes, x);
    FactsIn(w.marks, AllMarks(ss), Node(p));
    var t := NodeTagged(ss, p);
    FactsIn(w.marks, AllMarks(ss), Tagged(p, t));
    assert t in w.nodes[x].prov;
  }

  // ----- rows and nodes -----

  /** The node behind a row. */
  ghost function NodeBehind(rows: seq<Row>, w: Backing, k: nat): (x: nat)
    requires Whole(rows, w.nodes, w.src) && k < |rows|
    ensures x < |w.nodes| && w.src[x] == k
  {
    assert exists x: nat :: x < |w.src| && w.src[x] == k by {
      var x := NodeOfRow(rows, w.nodes, w.src, k);
    }
    var x: nat :| x < |w.src| && w.src[x] == k;
    x
  }

  ghost function PlaceOf(g: Rules, start: Position, rows: seq<Row>, w: Backing): (at: map<nat, Position>)
    requires Whole(rows, w.nodes, w.src)
    ensures forall k: nat :: k in at <==> k < |rows|
    ensures forall k: nat :: k < |rows| ==> at[k] == At(g, start, w.nodes, NodeBehind(rows, w, k))
  {
    map k: nat | 0 <= k < |rows| :: At(g, start, w.nodes, NodeBehind(rows, w, k))
  }

  /** The child row of a row is the child of its node. */
  lemma {:induction false} ChildNode(g: Rules, start: Position, rows: seq<Row>, ss: seq<Shard>, w: Backing, k: nat,
          c: nat)
    returns (m: Move)
    requires IsStore(g, start, rows, ss, w) && Whole(rows, w.nodes, w.src) && k < |rows| && c < |rows|
    requires rows[c].parent == Some(rows[k].id)
    ensures var x, y := NodeBehind(rows, w, k), NodeBehind(rows, w, c);
            && Shaped(w.nodes) && m in w.nodes[x].children && w.nodes[x].children[m] == y && w.nodes[y].mv == Some(m)
            && rows[c].mv == Some(m) && rows[c].code == Some(m) && rows[c].ply == rows[k].ply + 1 && rows[k].ply >= 0
  {
    var x, y := NodeBehind(rows, w, k), NodeBehind(rows, w, c);
    StoredAt(rows, w.nodes, w.src, x);
    StoredAt(rows, w.nodes, w.src, y);
    assert NodeShaped(w.nodes, y) && NodeShaped(w.nodes, x);
    var p := w.nodes[y].parent.value;
    SameRowId(rows, w.src[p], k);
    SameSource(w.src, p, x);
    m := w.nodes[y].mv.value;
  }

  /** The child of a node has a child row. */
  lemma {:induction false} ChildRow(g: Rules, start: Position, rows: seq<Row>, ss: seq<Shard>, w: Backing, k: nat,
          m: Move)
    returns (c: nat)
    requires IsStore(g, start, rows, ss, w) && Whole(rows, w.nodes, w.src) && k < |rows|
    requires m in w.nodes[NodeBehind(rows, w, k)].children
    ensures c < |rows| && rows[c].parent == Some(rows[k].id) && rows[c].mv == Some(m)
    ensures NodeBehind(rows, w, c) == w.nodes[NodeBehind(rows, w, k)].children[m]
  {
    var x := NodeBehind(rows, w, k);
    assert NodeShaped(w.nodes, x) && ChildShaped(w.nodes, x, m);
    var y := w.nodes[x].children[m];
    StoredAt(rows, w.nodes, w.src, y);
    SourceSmall(rows, w.nodes, w.src, y);
    c := w.src[y];
    SameSource(w.src, y, NodeBehind(rows, w, c));
    assert w.nodes[y].parent == Some(x) && w.nodes[y].mv == Some(m) && y > 0;
  }

  /** What a row says of its node. */
  lemma {:induction false} RowSays(g: Rules, start: Position, rows: seq<Row>, ss: seq<Shard>, w: Backing, k: nat)
    requires IsStore(g, start, rows, ss, w) && Whole(rows, w.nodes, w.src) && k < |rows|
    ensures var x := NodeBehind(rows, w, k); var r := rows[k];
            && Shaped(w.nodes) && r.ply == w.nodes[x].ply && r.outcome == w.nodes[x].outcome
            && r.prov == w.nodes[x].prov
            && (r.outcome.Some? ==> r.bound == Some(Bound(w.nodes, x)) && r.status.Some?)
            && (r.outcome.None? ==> r.bound.None? && r.status.None?)
  {
    assert RowIs(rows, w.nodes, w.depths, w.src, NodeBehind(rows, w, k));
  }

  // ----- bounds -----

  lemma {:induction false} MinLossIs(rows: seq<Row>, ks: seq<nat>, n: nat, m: nat, z: nat)
    requires n <= |ks| && (forall y :: 0 <= y < |ks| ==> ks[y] < |rows|) && z < n && m <= U32_MAX
    requires forall y :: 0 <= y < n ==> NoSmaller(rows[ks[y]], m)
    requires DV.IsLoss(rows[ks[z]]) && rows[ks[z]].bound == Some(m)
    ensures DV.MinLoss(rows, ks, n) == m
  {
    if z < n - 1 {
      MinLossIs(rows, ks, n - 1, m, z);
    } else {
      MinLossOver(rows, ks, n - 1, m);
    }
  }

  /** A Loss row's bound is a 32-bit number, at least `m`. */
  ghost predicate NoSmaller(r: Row, m: nat)
  {
    DV.IsLoss(r) ==> r.bound.Some? && m <= r.bound.value <= U32_MAX
  }

  lemma {:induction false} MinLossOver(rows: seq<Row>, ks: seq<nat>, n: nat, m: nat)
    requires n <= |ks| && (forall y :: 0 <= y < |ks| ==> ks[y] < |rows|) && m <= U32_MAX
    requires forall y :: 0 <= y < n ==> NoSmaller(rows[ks[y]], m)
    ensures m <= DV.MinLoss(rows, ks, n)
  {
    if n > 0 {
      MinLossOver(rows, ks, n - 1, m);
    }
  }

  lemma {:induction false} MaxKidUnder(rows: seq<Row>, ks: seq<nat>, n: nat, m: nat)
    requires n <= |ks| && (forall y :: 0 <= y < |ks| ==> ks[y] < |rows|)
    requires forall y :: 0 <= y < n ==> DV.BoundOr0(rows[ks[y]]) <= m
    ensures 0 <= DV.MaxKid(rows, ks, n) <= m
  {
    if n > 0 {
      MaxKidUnder(rows, ks, n - 1, m);
    }
  }

  /** A proven leaf is an ended game. */
  lemma {:induction false} LeafEnded(g: Rules, start: Position, nodes: seq<PathNode>, marks: set<Mark>, i: nat)
    requires g.Sane() && TrueTree(g, start, nodes, marks) && i < |nodes| && nodes[i].outcome.Some?
             && nodes[i].children == map[]
    ensures g.terminal(At(g, start, nodes, i)) == nodes[i].outcome && Bound(nodes, i) == 0
  {
    hide Reads, Truthful, Replay, Bound;
    Backed(g, start, nodes, marks, i);
    NoKids(nodes, i);
    var p := At(g, start, nodes, i);
    if g.terminal(p).None? {
      if nodes[i].outcome == Some(Win) {
        var m :| m in g.legal(p) && Claim(PathOf(nodes, i) + [m], Loss) in marks;
        ClaimedChild(g, start, nodes, marks, i, m, Loss);
      } else {
        var m := g.legal(p)[0];
        assert m in g.legal(p);
        ClaimedChild(g, start, nodes, marks, i, m, Win);
      }
      assert false;
    }
  }

  /** A proven inner node is an open position with a positive bound. */
  lemma {:induction false} InnerOpen(g: Rules, start: Position, nodes: seq<PathNode>, marks: set<Mark>, i: nat)
    requires TrueTree(g, start, nodes, marks) && i < |nodes| && nodes[i].outcome.Some? && nodes[i].children != map[]
    ensures g.terminal(At(g, start, nodes, i)).None? && Bound(nodes, i) > 0
    ensures ClaimBacked(g, start, marks, PathOf(nodes, i), nodes[i].outcome.value)
    ensures nodes[i].outcome == Some(Win) ==> HasLossKid(nodes, i)
    ensures nodes[i].outcome == Some(Loss) ==> AllWinKids(nodes, i)
    ensures nodes[i].outcome == Some(Win) || nodes[i].outcome == Some(Loss)
  {
    hide Reads, Truthful, Replay, Bound, HasLossKid, AllWinKids;
    Backed(g, start, nodes, marks, i);
    TrueKids(g, start, nodes, marks, i);
    if nodes[i].outcome == Some(Win) {
      var k := BestKid(nodes, i);
    } else {
      var m :| m in nodes[i].children;
      var k := KidByMove(nodes, i, m);
      KidBelow(nodes, i, k);
    }
  }

  // ----- the checks of a committed row -----

  /** A committed store, with 32-bit bounds. */
  ghost predicate Store(g: Rules, start: Position, rows: seq<Row>, ss: seq<Shard>, w: Backing)
  {
    && IsStore(g, start, rows, ss, w) && Whole(rows, w.nodes, w.src) && Shaped(w.nodes)
    && TrueTree(g, start, w.nodes, w.marks)
    && ById(rows) && BoundsFit(w.nodes) && NoDraws(w.nodes)
  }

  lemma {:induction false} StoreFits(g: Rules, start: Position, rows: seq<Row>, ss: seq<Shard>, w: Backing)
    requires g.Sane() && IsStore(g, start, rows, ss, w)
    ensures Store(g, start, rows, ss, w)
  {
    StoreParts(g, start, rows, ss, w);
    hide AllMarks, GoodShard, ShardShaped, Reads, Truthful, Bound, BoundsFit, Committed, Whole, NoDraws, AllOk;
    BoundsAreSmall(g, start, ss, w.nodes, w.marks);
    OkNodes(g, start, w.nodes, w.marks);
  }

  lemma {:induction false} KidOfRow(g: Rules, start: Position, rows: seq<Row>, ss: seq<Shard>, w: Backing, k: nat,
          c: nat)
    requires Store(g, start, rows, ss, w) && k < |rows| && c in DV.KidRows(rows, k)
    ensures DV.KidFine(g, rows, PlaceOf(g, start, rows, w), k, c)
  {
    hide Store, IsStore, Whole, Reads, Truthful, At, PlaceOf;
    StoreIs(g, start, rows, ss, w);
    var m := ChildNode(g, start, rows, ss, w, k, c);
    ChildLegal(g, start, w.nodes, w.marks, NodeBehind(rows, w, k), m);
    RowSays(g, start, rows, ss, w, c);
  }

  lemma {:induction false} StoreIs(g: Rules, start: Position, rows: seq<Row>, ss: seq<Shard>, w: Backing)
    requires Store(g, start, rows, ss, w)
    ensures IsStore(g, start, rows, ss, w) && Whole(rows, w.nodes, w.src) && Shaped(w.nodes)
            && TrueTree(g, start, w.nodes, w.marks)
    ensures ById(rows)
            && forall i :: 0 <= i < |w.nodes| ==> w.nodes[i].outcome != Some(Draw) && Bound(w.nodes, i) <= U32_MAX
  {
    hide IsStore, Whole, TrueTree, Bound;
  }

  /** A proven child row under a committed row. */
  lemma {:induction false} KidSays(g: Rules, start: Position, rows: seq<Row>, ss: seq<Shard>, w: Backing, k: nat,
          c: nat)
    returns (m: Move)
    requires Store(g, start, rows, ss, w) && Whole(rows, w.nodes, w.src) && Shaped(w.nodes) && k < |rows|
             && c in DV.KidRows(rows, k)
    ensures var x, y := NodeBehind(rows, w, k), NodeBehind(rows, w, c);
            && m in w.nodes[x].children && w.nodes[x].children[m] == y && rows[c].mv == Some(m)
            && rows[c].outcome == w.nodes[y].outcome
            && (rows[c].outcome.Some? ==> rows[c].bound == Some(Bound(w.nodes, y)))
            && Bound(w.nodes, y) <= U32_MAX && (rows[c].outcome.None? ==> rows[c].bound.None?)
  {
    hide Store, IsStore, Whole, Bound;
    StoreIs(g, start, rows, ss, w);
    m := ChildNode(g, start, rows, ss, w, k, c);
    RowSays(g, start, rows, ss, w, c);
  }

  lemma {:induction false} WinRow(g: Rules, start: Position, rows: seq<Row>, ss: seq<Shard>, w: Backing, k: nat)
    requires Store(g, start, rows, ss, w) && Whole(rows, w.nodes, w.src) && Shaped(w.nodes) && k < |rows|
    requires var n := w.nodes[NodeBehind(rows, w, k)]; n.outcome == Some(Win) && n.children != map[]
    ensures DV.WinFine(rows, DV.KidRows(rows, k), Bound(w.nodes, NodeBehind(rows, w, k)))
  {
    hide Store, IsStore, Whole, Bound, TrueTree, HasLossKid, AllWinKids, Kids;
    StoreIs(g, start, rows, ss, w);
    var x, ks := NodeBehind(rows, w, k), DV.KidRows(rows, k);
    InnerOpen(g, start, w.nodes, w.marks, x);
    var b := BestKid(w.nodes, x);
    var y := Kids(w.nodes, x)[b];
    var move := KidMove(w.nodes, x, b);
    var c := ChildRow(g, start, rows, ss, w, k, move);
    assert c in ks;
    var z :| 0 <= z < |ks| && ks[z] == c;
    var m0 := KidSays(g, start, rows, ss, w, k, c);
    forall i | 0 <= i < |ks|
      ensures NoSmaller(rows[ks[i]], Bound(w.nodes, y))
    {
      assert ks[i] in ks;
      LossKidOver(g, start, rows, ss, w, k, ks[i]);
    }
    assert DV.IsLoss(rows[ks[z]]);
    MinLossIs(rows, ks, |ks|, Bound(w.nodes, y), z);
    assert DV.HasLoss(rows, ks, |ks|);
  }

  lemma {:induction false} LossKidOver(g: Rules, start: Position, rows: seq<Row>, ss: seq<Shard>, w: Backing, k: nat,
          c: nat)
    requires Store(g, start, rows, ss, w) && Whole(rows, w.nodes, w.src) && Shaped(w.nodes) && k < |rows|
             && c in DV.KidRows(rows, k)
    requires w.nodes[NodeBehind(rows, w, k)].outcome == Some(Win) && Bound(w.nodes, NodeBehind(rows, w, k)) > 0
    ensures NoSmaller(rows[c], Bound(w.nodes, NodeBehind(rows, w, k)) - 1)
  {
    hide Store, IsStore, Whole, Bound;
    var m := KidSays(g, start, rows, ss, w, k, c);
    if DV.IsLoss(rows[c]) {
      WinAtMost(w.nodes, NodeBehind(rows, w, k), m);
    }
  }

  /** The move of a child. */
  lemma {:induction false} KidMove(nodes: seq<PathNode>, i: nat, k: nat) returns (m: Move)
    requires Shaped(nodes) && i < |nodes| && k < |Kids(nodes, i)|
    ensures m in nodes[i].children && nodes[i].children[m] == Kids(nodes, i)[k]
  {
    KeysAll(nodes, i);
    m := Keys(nodes[i].children)[k];
    assert m in Keys(nodes[i].children);
  }

  lemma {:induction false} LossRow(g: Rules, start: Position, rows: seq<Row>, ss: seq<Shard>, w: Backing, k: nat)
    requires Store(g, start, rows, ss, w) && Whole(rows, w.nodes, w.src) && Shaped(w.nodes) && k < |rows|
    requires var n := w.nodes[NodeBehind(rows, w, k)]; n.outcome == Some(Loss) && n.children != map[]
    ensures var x := NodeBehind(rows, w, k);
            DV.LossFine(g, rows, DV.KidRows(rows, k), Bound(w.nodes, x), At(g, start, w.nodes, x))
  {
    hide Store, IsStore, Whole, Bound, TrueTree, HasLossKid, AllWinKids, Kids, At, ClaimBacked;
    StoreIs(g, start, rows, ss, w);
    var x, ks := NodeBehind(rows, w, k), DV.KidRows(rows, k);
    var p := At(g, start, w.nodes, x);
    InnerOpen(g, start, w.nodes, w.marks, x);
    forall i | 0 <= i < |g.legal(p)|
      ensures DV.HasReply(rows, ks, g.legal(p)[i])
    {
      ReplyRow(g, start, rows, ss, w, k, g.legal(p)[i]);
    }
    forall z | 0 <= z < |ks|
      ensures DV.IsReply(g, p, rows[ks[z]]) && DV.IsWon(rows[ks[z]]) && DV.BoundOr0(rows[ks[z]]) < Bound(w.nodes, x)
    {
      assert ks[z] in ks;
      WonKid(g, start, rows, ss, w, k, ks[z]);
    }
    MaxKidUnder(rows, ks, |ks|, Bound(w.nodes, x) - 1);
    LossReach(g, start, rows, ss, w, k);
  }

  lemma {:induction false} ReplyRow(g: Rules, start: Position, rows: seq<Row>, ss: seq<Shard>, w: Backing, k: nat,
          m: Move)
    requires Store(g, start, rows, ss, w) && Whole(rows, w.nodes, w.src) && Shaped(w.nodes) && k < |rows|
    requires var x := NodeBehind(rows, w, k);
             m in g.legal(At(g, start, w.nodes, x)) && ClaimBacked(g, start, w.marks, PathOf(w.nodes, x), Loss)
    ensures DV.HasReply(rows, DV.KidRows(rows, k), m)
  {
    hide Store, IsStore, Whole, TrueTree;
    StoreIs(g, start, rows, ss, w);
    var ks := DV.KidRows(rows, k);
    ClaimedChild(g, start, w.nodes, w.marks, NodeBehind(rows, w, k), m, Win);
    var c := ChildRow(g, start, rows, ss, w, k, m);
    assert c in ks;
    var z :| 0 <= z < |ks| && ks[z] == c;
    assert rows[ks[z]].mv == Some(m);
  }

  lemma {:induction false} WonKid(g: Rules, start: Position, rows: seq<Row>, ss: seq<Shard>, w: Backing, k: nat, c: nat)
    requires Store(g, start, rows, ss, w) && Whole(rows, w.nodes, w.src) && Shaped(w.nodes) && k < |rows|
             && c in DV.KidRows(rows, k)
    requires w.nodes[NodeBehind(rows, w, k)].outcome == Some(Loss) && AllWinKids(w.nodes, NodeBehind(rows, w, k))
    ensures var x := NodeBehind(rows, w, k);
            && DV.IsReply(g, At(g, start, w.nodes, x), rows[c]) && DV.IsWon(rows[c])
            && DV.BoundOr0(rows[c]) < Bound(w.nodes, x)
  {
    StoreIs(g, start, rows, ss, w);
    hide Store, IsStore, Whole, Bound, TrueTree, At;
    var x := NodeBehind(rows, w, k);
    var m := KidSays(g, start, rows, ss, w, k, c);
    ChildLegal(g, start, w.nodes, w.marks, x, m);
    var b := KidByMove(w.nodes, x, m);
    KidBelow(w.nodes, x, b);
  }

  /** The bound of a Loss row is no more than its largest child bound asks. */
  lemma {:induction false} LossReach(g: Rules, start: Position, rows: seq<Row>, ss: seq<Shard>, w: Backing, k: nat)
    requires Store(g, start, rows, ss, w) && Whole(rows, w.nodes, w.src) && Shaped(w.nodes) && k < |rows|
    requires w.nodes[NodeBehind(rows, w, k)].outcome == Some(Loss) && AllWinKids(w.nodes, NodeBehind(rows, w, k))
    requires var ks := DV.KidRows(rows, k); DV.MaxKid(rows, ks, |ks|) >= 0
    ensures var ks := DV.KidRows(rows, k); Bound(w.nodes, NodeBehind(rows, w, k)) <= DV.MaxKid(rows, ks, |ks|) + 1
  {
    hide Store, IsStore, Whole, Bound, Kids;
    var x, ks := NodeBehind(rows, w, k), DV.KidRows(rows, k);
    var most := DV.MaxKid(rows, ks, |ks|);
    forall b | 0 <= b < |Kids(w.nodes, x)|
      ensures Kids(w.nodes, x)[b] < |w.nodes| && Bound(w.nodes, Kids(w.nodes, x)[b]) <= most
    {
      KidsWithin(w.nodes, x);
      StoreIs(g, start, rows, ss, w);
      var m := KidMove(w.nodes, x, b);
      var c := ChildRow(g, start, rows, ss, w, k, m);
      assert c in ks;
      var z :| 0 <= z < |ks| && ks[z] == c;
      var m0 := KidSays(g, start, rows, ss, w, k, c);
      FT.MaxKidOver(rows, ks, |ks|, z);
    }
    LossAtMost(w.nodes, x, most);
  }

  lemma {:induction false} RowOkay(g: Rules, start: Position, rows: seq<Row>, ss: seq<Shard>, w: Backing, k: nat)
    requires g.Sane() && Store(g, start, rows, ss, w) && Whole(rows, w.nodes, w.src) && Shaped(w.nodes) && k < |rows|
    ensures DV.Okay(g, rows, PlaceOf(g, start, rows, w), k)
  {
    hide Store, IsStore, Whole, Bound, TrueTree, At, PlaceOf;
    StoreIs(g, start, rows, ss, w);
    var x, ks := NodeBehind(rows, w, k), DV.KidRows(rows, k);
    RowSays(g, start, rows, ss, w, k);
    RowFields(g, start, rows, ss, w, k);
    forall c | c in ks
      ensures DV.KidFine(g, rows, PlaceOf(g, start, rows, w), k, c)
    {
      KidOfRow(g, start, rows, ss, w, k, c);
    }
    hide DV.WinFine, DV.LossFine, DV.KidFine, DV.FieldsFine;
    var n := w.nodes[x];
    if n.outcome.Some? {
      if n.children == map[] {
        LeafEnded(g, start, w.nodes, w.marks, x);
        LeafRow(g, start, rows, ss, w, k);
      } else {
        InnerOpen(g, start, w.nodes, w.marks, x);
        if n.outcome == Some(Win) {
          WinRow(g, start, rows, ss, w, k);
        } else {
          LossRow(g, start, rows, ss, w, k);
        }
      }
    }
  }

  lemma {:induction false} RowFields(g: Rules, start: Position, rows: seq<Row>, ss: seq<Shard>, w: Backing, k: nat)
    requires Store(g, start, rows, ss, w) && k < |rows|
    ensures DV.FieldsFine(rows[k]) && rows[k].outcome != Some(Draw)
  {
    hide Store, IsStore, Whole, Bound, TrueTree, PathOf;
    StoreIs(g, start, rows, ss, w);
    var x := NodeBehind(rows, w, k);
    RowSays(g, start, rows, ss, w, k);
    PlyIsLength(w.nodes, x);
    if PathOf(w.nodes, x) != [] {
      HasProvenance(g, start, rows, ss, w, x);
    }
  }

  lemma {:induction false} LeafRow(g: Rules, start: Position, rows: seq<Row>, ss: seq<Shard>, w: Backing, k: nat)
    requires Store(g, start, rows, ss, w) && Whole(rows, w.nodes, w.src) && Shaped(w.nodes) && k < |rows|
    requires w.nodes[NodeBehind(rows, w, k)].children == map[]
    ensures |DV.KidRows(rows, k)| == 0
  {
    hide Store, IsStore, Whole, Bound;
    var ks := DV.KidRows(rows, k);
    if |ks| > 0 {
      assert ks[0] in ks;
      var m := KidSays(g, start, rows, ss, w, k, ks[0]);
      assert false;
    }
  }

  // ----- the whole table -----

  /** The root row is node 0's, at the start. */
  lemma {:induction false} RootRow(g: Rules, start: Position, rows: seq<Row>, ss: seq<Shard>, w: Backing, k: nat)
    requires Store(g, start, rows, ss, w) && Whole(rows, w.nodes, w.src) && Shaped(w.nodes) && k < |rows|
    ensures rows[k].parent.None? <==> k == w.src[0]
    ensures rows[k].parent.None? ==> rows[k].ply == 0 && rows[k].mv.None? && rows[k].code.None?
    ensures rows[k].parent.None? ==> At(g, start, w.nodes, NodeBehind(rows, w, k)) == start
  {
    var x := NodeBehind(rows, w, k);
    StoredAt(rows, w.nodes, w.src, x);
    assert NodeShaped(w.nodes, x);
    SameSource(w.src, x, if k == w.src[0] then 0 else x);
  }

  lemma {:induction false} RowParent(g: Rules, start: Position, rows: seq<Row>, ss: seq<Shard>, w: Backing, k: nat)
    requires Store(g, start, rows, ss, w) && Whole(rows, w.nodes, w.src) && k < |rows|
    ensures DV.HasParentIn(rows, PlaceOf(g, start, rows, w), k)
  {
    hide At;
    var x := NodeBehind(rows, w, k);
    StoredAt(rows, w.nodes, w.src, x);
    if x > 0 {
      var q := w.src[w.nodes[x].parent.value];
      assert q in PlaceOf(g, start, rows, w);
    }
  }

  /** Row `k` passes, and it is the root only if it is `root`. */
  ghost predicate RowPasses(g: Rules, start: Position, rows: seq<Row>, at: map<nat, Position>, root: nat, k: nat)
  {
    && k < |rows| && k in at && DV.Okay(g, rows, at, k) && DV.HasParentIn(rows, at, k) && FT.RowTrue(g, rows[k], at[k])
    && (rows[k].parent.None? <==> k == root)
    && (k == root ==> DV.MoveFine(g, rows[k], start) && at[k] == DV.Step(g, rows[k], start))
  }

  lemma {:induction false} RowsPass(g: Rules, start: Position, rows: seq<Row>, at: map<nat, Position>, root: nat)
    requires root < |rows| && forall k: nat :: k < |rows| ==> RowPasses(g, start, rows, at, root, k)
    ensures DV.Accepted(g, start, rows, at) && FT.AllTrue(g, rows, at)
  {
    hide DV.Okay, DV.HasParentIn, FT.RowTrue, DV.MoveFine, DV.Step;
    assert RowPasses(g, start, rows, at, root, root);
    forall k: nat | k < |rows|
      ensures DV.Okay(g, rows, at, k) && DV.HasParentIn(rows, at, k) && k in at && FT.RowTrue(g, rows[k], at[k])
      ensures rows[k].parent.None? ==> k == root
    {
      assert RowPasses(g, start, rows, at, root, k);
    }
  }

  lemma {:induction false} Passes(g: Rules, start: Position, rows: seq<Row>, ss: seq<Shard>, w: Backing, k: nat)
    requires g.Sane() && Store(g, start, rows, ss, w) && Whole(rows, w.nodes, w.src) && Shaped(w.nodes) && k < |rows|
    ensures RowPasses(g, start, rows, PlaceOf(g, start, rows, w), w.src[0], k)
  {
    hide Store, IsStore, Whole, At, DV.Okay, DV.HasParentIn, FT.RowTrue, PlaceOf;
    RowOkay(g, start, rows, ss, w, k);
    RootRow(g, start, rows, ss, w, k);
    RowParent(g, start, rows, ss, w, k);
    RowHolds(g, start, rows, ss, w, k);
  }

  /** A committed store is acceptable, and each of its claims is true within its bound. */
  lemma {:induction false} StoreAccepted(g: Rules, start: Position, rows: seq<Row>, ss: seq<Shard>, w: Backing)
    requires g.Sane() && IsStore(g, start, rows, ss, w)
    ensures Whole(rows, w.nodes, w.src) && DV.Accepted(g, start, rows, PlaceOf(g, start, rows, w))
    ensures FT.AllTrue(g, rows, PlaceOf(g, start, rows, w))
  {
    StoreFits(g, start, rows, ss, w);
    hide Store, IsStore, Whole, Bound, TrueTree, RowPasses, PlaceOf, DV.Accepted, FT.AllTrue;
    StoreIs(g, start, rows, ss, w);
    var root := RootSource(rows, w);
    forall k: nat | k < |rows|
      ensures RowPasses(g, start, rows, PlaceOf(g, start, rows, w), root, k)
    {
      Passes(g, start, rows, ss, w, k);
    }
    RowsPass(g, start, rows, PlaceOf(g, start, rows, w), root);
  }

  lemma {:induction false} RootSource(rows: seq<Row>, w: Backing) returns (root: nat)
    requires Whole(rows, w.nodes, w.src)
    ensures root < |rows| && root == w.src[0]
  {
    StoredAt(rows, w.nodes, w.src, 0);
    root := w.src[0];
  }

  lemma {:induction false} RowHolds(g: Rules, start: Position, rows: seq<Row>, ss: seq<Shard>, w: Backing, k: nat)
    requires g.Sane() && Store(g, start, rows, ss, w) && Whole(rows, w.nodes, w.src) && k < |rows|
    ensures FT.RowTrue(g, rows[k], PlaceOf(g, start, rows, w)[k])
  {
    hide Store, IsStore, Whole, Bound, At, PlaceOf;
    StoreIs(g, start, rows, ss, w);
    RowSays(g, start, rows, ss, w, k);
    if rows[k].outcome.Some? {
      BoundSound(g, start, w.nodes, w.marks, NodeBehind(rows, w, k));
    }
  }

  /** Fold, then verify the committed table: it is always found sound. */
  method FoldAndVerify(g: Rules, start: Position, ghost rank: Position -> nat, rows: seq<Row>, known: map<Tag, nat>,
          cs: seq<Candidate>, ghost ss: seq<Shard>, ghost w: Backing)
    returns (r: Option<Folded>, verdict: Option<Verdicts.Verdict>, ghost w2: Backing)
    requires g.Sane() && g.Injective() && g.Ranked(rank) && StoreOk(g, start, rows, ss, w)
             && AllCandidates(g, start, cs)
    ensures r.Some? <==> DigestsOk(cs, known) && !NewlyProven(rows, w, NewShards(cs, known, |cs|))
    ensures r.Some? ==> verdict.Some? && Verdicts.CountsAre(verdict.value, r.value.rows)
    ensures r.Some? ==>
              && Whole(r.value.rows, w2.nodes, w2.src)
              && FT.AllTrue(g, r.value.rows, PlaceOf(g, start, r.value.rows, w2))
  {
    hide NewlyProven, StoreOk, AllCandidates, IsStore, Whole, DV.Accepted, FT.AllTrue, PlaceOf, NewShards, DigestsOk;
    verdict := None;
    r, w2 := FoldShards(g, start, rank, rows, known, cs, ss, w);
    if r.Some? {
      ghost var all := ss + NewShards(cs, known, |cs|);
      StoreAccepted(g, start, r.value.rows, all, w2);
      StoreOrdered(g, start, r.value.rows, all, w2);
      verdict := Verdicts.VerifyDb(g, start, r.value.rows, 20);
    }
  }
}
