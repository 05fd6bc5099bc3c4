/** The path-keyed tree of the proof store: a node is its move path from the start.  What a tree
    records is a set of marks, so the order in which facts arrive cannot matter. */
module Paths {
  import opened Game

  type Tag = string
  type Path = seq<Move>

  /** Move codes have 16 bits. */
  const CODES: nat := 0x1_0000

  datatype PathNode = PathNode(
    parent: Option<nat>,
    ply: nat,
    mv: Option<Move>,
    outcome: Option<Outcome>,
    prov: set<Tag>,
    children: map<Move, nat>,
    claims: seq<nat>)

  predicate NodeShaped(nodes: seq<PathNode>, i: nat)
    requires i < |nodes|
  {
    var n := nodes[i];
    && (i == 0 ==> n.parent.None? && n.mv.None? && n.ply == 0)
    && (i > 0 ==>
          && n.parent.Some? && n.parent.value < i && n.mv.Some? && n.mv.value < CODES
          && n.mv.value in nodes[n.parent.value].children && nodes[n.parent.value].children[n.mv.value] == i
          && n.ply == nodes[n.parent.value].ply + 1)
    && forall m :: m in n.children ==> ChildShaped(nodes, i, m)
  }

  predicate ChildShaped(nodes: seq<PathNode>, i: nat, m: Move)
    requires i < |nodes| && m in nodes[i].children
  {
    var c := nodes[i].children[m];
    m < CODES && i < c < |nodes| && nodes[c].parent == Some(i) && nodes[c].mv == Some(m)
  }

  ghost predicate Shaped(nodes: seq<PathNode>)
  {
    |nodes| > 0 && forall i :: 0 <= i < |nodes| ==> NodeShaped(nodes, i)
  }

  ghost function PathOf(nodes: seq<PathNode>, i: nat): (p: Path)
    requires Shaped(nodes) && i < |nodes|
    decreases i
  {
    assert NodeShaped(nodes, i);
    if i == 0 then [] else PathOf(nodes, nodes[i].parent.value) + [nodes[i].mv.value]
  }

  /** Follow the moves of `p` from the root. */
  ghost function Locate(nodes: seq<PathNode>, p: Path): (r: Option<nat>)
    requires Shaped(nodes)
    ensures r.Some? ==> r.value < |nodes|
    decreases |p|
  {
    if p == [] then Some(0)
    else
      var up := Locate(nodes, p[..|p| - 1]);
      var m := p[|p| - 1];
      if up.Some? && m in nodes[up.value].children then
        assert NodeShaped(nodes, up.value) && ChildShaped(nodes, up.value, m);
        Some(nodes[up.value].children[m])
      else None
  }

  lemma {:induction false} LocatePath(nodes: seq<PathNode>, i: nat)
    requires Shaped(nodes) && i < |nodes|
    ensures Locate(nodes, PathOf(nodes, i)) == Some(i)
    decreases i
  {
    assert NodeShaped(nodes, i);
    if i > 0 {
      var p := nodes[i].parent.value;
      LocatePath(nodes, p);
      assert PathOf(nodes, i)[..|PathOf(nodes, i)| - 1] == PathOf(nodes, p);
    }
  }

  lemma {:induction false} PathLocate(nodes: seq<PathNode>, p: Path)
    requires Shaped(nodes) && Locate(nodes, p).Some?
    ensures PathOf(nodes, Locate(nodes, p).value) == p
    decreases |p|
  {
    if p != [] {
      PathLocate(nodes, p[..|p| - 1]);
      var up := Locate(nodes, p[..|p| - 1]).value;
      var m := p[|p| - 1];
      assert NodeShaped(nodes, up) && ChildShaped(nodes, up, m);
      assert p == p[..|p| - 1] + [m];
    }
  }

  lemma {:induction false} PathOnce(nodes: seq<PathNode>, i: nat, j: nat)
    requires Shaped(nodes) && i < |nodes| && j < |nodes| && PathOf(nodes, i) == PathOf(nodes, j)
    ensures i == j
  {
    LocatePath(nodes, i);
    LocatePath(nodes, j);
  }

  lemma {:induction false} LocateSnoc(nodes: seq<PathNode>, i: nat, m: Move)
    requires Shaped(nodes) && i < |nodes|
    ensures Locate(nodes, PathOf(nodes, i) + [m]) == if m in nodes[i].children then Some(nodes[i].children[m]) else None
  {
    var p := PathOf(nodes, i) + [m];
    LocatePath(nodes, i);
    assert p[..|p| - 1] == PathOf(nodes, i);
  }

  lemma {:induction false} ChildPath(nodes: seq<PathNode>, i: nat, m: Move)
    requires Shaped(nodes) && i < |nodes| && m in nodes[i].children
    ensures m < CODES && i < nodes[i].children[m] < |nodes|
    ensures PathOf(nodes, nodes[i].children[m]) == PathOf(nodes, i) + [m]
  {
    assert NodeShaped(nodes, i) && ChildShaped(nodes, i, m);
  }

  lemma {:induction false} PlyIsLength(nodes: seq<PathNode>, i: nat)
    requires Shaped(nodes) && i < |nodes|
    ensures nodes[i].ply == |PathOf(nodes, i)|
    decreases i
  {
    assert NodeShaped(nodes, i);
    if i > 0 {
      PlyIsLength(nodes, nodes[i].parent.value);
    }
  }

  // ----- marks -----

  /** One recorded fact: a node exists, a shard touched it, it has a proven outcome, it ends
      the game. */
  datatype Mark = Node(p: Path) | Tagged(p: Path, tag: Tag) | Claim(p: Path, o: Outcome) | End(p: Path)

  ghost predicate NodeReads(nodes: seq<PathNode>, marks: set<Mark>, i: nat)
    requires Shaped(nodes) && i < |nodes|
  {
    var p := PathOf(nodes, i);
    var n := nodes[i];
    && Node(p) in marks
    && (forall t :: t in n.prov <==> Tagged(p, t) in marks)
    && (forall o :: n.outcome == Some(o) <==> Claim(p, o) in marks)
    && (n.claims != [] <==> End(p) in marks)
    && ZeroClaims(n)
  }

  /** Exact depths are claimed for ends of the game only. */
  predicate ZeroClaims(n: PathNode)
  {
    forall k :: 0 <= k < |n.claims| ==> n.claims[k] == 0
  }

  /** The tree records exactly `marks`. */
  ghost predicate Reads(nodes: seq<PathNode>, marks: set<Mark>)
  {
    && Shaped(nodes)
    && (forall i :: 0 <= i < |nodes| ==> NodeReads(nodes, marks, i))
    && (forall m :: m in marks ==> Locate(nodes, m.p).Some?)
  }

  /** No path has two outcomes. */
  ghost predicate Consistent(marks: set<Mark>)
  {
    forall p: Path, o: Outcome, o': Outcome :: Claim(p, o) in marks && Claim(p, o') in marks ==> o == o'
  }

  lemma {:induction false} ReadsConsistent(nodes: seq<PathNode>, marks: set<Mark>)
    requires Reads(nodes, marks)
    ensures Consistent(marks)
  {
    forall p: Path, o: Outcome, o': Outcome | Claim(p, o) in marks && Claim(p, o') in marks
      ensures o == o'
    {
      var m := Claim(p, o);
      assert Locate(nodes, m.p).Some?;
      PathLocate(nodes, p);
      assert NodeReads(nodes, marks, Locate(nodes, p).value);
    }
  }

  /** What the tree records about the node at `p`. */
  lemma {:induction false} ReadAt(nodes: seq<PathNode>, marks: set<Mark>, m: Mark) returns (i: nat)
    requires Reads(nodes, marks) && m in marks
    ensures i < |nodes| && PathOf(nodes, i) == m.p && Locate(nodes, m.p) == Some(i) && NodeReads(nodes, marks, i)
  {
    PathLocate(nodes, m.p);
    i := Locate(nodes, m.p).value;
  }

  const ROOT_NODE: PathNode := PathNode(None, 0, None, None, {}, map[], [])

  lemma {:induction false} FreshReads()
    ensures Reads([ROOT_NODE], {Node([])})
  {
    assert NodeShaped([ROOT_NODE], 0);
    assert PathOf([ROOT_NODE], 0) == [];
  }

  // ----- growing -----

  function NewNode(nodes: seq<PathNode>, i: nat, m: Move): PathNode
    requires i < |nodes|
  {
    PathNode(Some(i), nodes[i].ply + 1, Some(m), None, {}, map[], [])
  }

  /** A new child of `i`. */
  function Grown(nodes: seq<PathNode>, i: nat, m: Move, n: PathNode): (r: seq<PathNode>)
    requires i < |nodes|
    ensures |r| == |nodes| + 1
  {
    nodes[i := nodes[i].(children := nodes[i].children[m := |nodes|])] + [n]
  }

  ghost predicate FitsUnder(nodes: seq<PathNode>, i: nat, m: Move, n: PathNode)
  {
    && Shaped(nodes) && i < |nodes| && m < CODES && m !in nodes[i].children
    && n.parent == Some(i) && n.ply == nodes[i].ply + 1 && n.mv == Some(m) && n.children == map[] && ZeroClaims(n)
  }

  lemma {:induction false} GrownShaped(nodes: seq<PathNode>, i: nat, m: Move, n: PathNode)
    requires FitsUnder(nodes, i, m, n)
    ensures Shaped(Grown(nodes, i, m, n))
  {
    var r := Grown(nodes, i, m, n);
    assert NodeShaped(nodes, i);
    forall j | 0 <= j < |r|
      ensures NodeShaped(r, j)
    {
      if j < |nodes| {
        assert NodeShaped(nodes, j);
        forall k | k in r[j].children
          ensures ChildShaped(r, j, k)
        {
          assert (j == i && k == m) || ChildShaped(nodes, j, k);
        }
      }
    }
  }

  ghost predicate SameShape(a: seq<PathNode>, b: seq<PathNode>)
  {
    |a| <= |b| && forall j :: 0 <= j < |a| ==> a[j].parent == b[j].parent && a[j].mv == b[j].mv
  }

  lemma {:induction false} PathFrame(a: seq<PathNode>, b: seq<PathNode>, j: nat)
    requires Shaped(a) && Shaped(b) && SameShape(a, b) && j < |a|
    ensures PathOf(b, j) == PathOf(a, j)
    decreases j
  {
    assert NodeShaped(a, j) && NodeShaped(b, j);
    if j > 0 {
      PathFrame(a, b, a[j].parent.value);
    }
  }

  /** Old paths stay where they are. */
  lemma {:induction false} LocateFrame(a: seq<PathNode>, b: seq<PathNode>, p: Path)
    requires Shaped(a) && Shaped(b) && SameShape(a, b) && Locate(a, p).Some?
    ensures Locate(b, p) == Locate(a, p)
  {
    var j := Locate(a, p).value;
    PathLocate(a, p);
    PathFrame(a, b, j);
    LocatePath(b, j);
  }

  /** The marks of a fresh node with a payload. */
  ghost function MarksOf(p: Path, n: PathNode): (r: set<Mark>)
    ensures forall m :: m in r ==> m.p == p
  {
    {Node(p)} + (set t | t in n.prov :: Tagged(p, t)) + (if n.outcome.Some? then {Claim(p, n.outcome.value)} else {})
    + if n.claims != [] then {End(p)} else {}
  }

  lemma {:induction false} GrownPath(nodes: seq<PathNode>, i: nat, m: Move, n: PathNode)
    requires FitsUnder(nodes, i, m, n)
    ensures Shaped(Grown(nodes, i, m, n)) && SameShape(nodes, Grown(nodes, i, m, n))
    ensures PathOf(Grown(nodes, i, m, n), |nodes|) == PathOf(nodes, i) + [m]
    ensures Locate(nodes, PathOf(nodes, i) + [m]).None?
    ensures Locate(Grown(nodes, i, m, n), PathOf(nodes, i) + [m]) == Some(|nodes|)
  {
    var r := Grown(nodes, i, m, n);
    GrownShaped(nodes, i, m, n);
    PathFrame(nodes, r, i);
    LocatePath(r, |nodes|);
    LocateSnoc(nodes, i, m);
  }

  lemma {:induction false} GrownOther(nodes: seq<PathNode>, marks: set<Mark>, i: nat, m: Move, n: PathNode,
          more: set<Mark>, j: nat)
    requires Reads(nodes, marks) && FitsUnder(nodes, i, m, n) && j < |nodes|
    requires forall k :: k in more ==> k.p == PathOf(nodes, i) + [m]
    ensures Shaped(Grown(nodes, i, m, n)) && NodeReads(Grown(nodes, i, m, n), marks + more, j)
  {
    hide Locate, PathOf;
    GrownPath(nodes, i, m, n);
    assert NodeReads(nodes, marks, j);
    PathFrame(nodes, Grown(nodes, i, m, n), j);
    LocatePath(nodes, j);
    NotTouched(marks, more, PathOf(nodes, j));
  }

  lemma {:induction false} GrownReads(nodes: seq<PathNode>, marks: set<Mark>, i: nat, m: Move, n: PathNode)
    requires Reads(nodes, marks) && FitsUnder(nodes, i, m, n)
    ensures var r := Grown(nodes, i, m, n);
            && Shaped(r) && PathOf(r, |nodes|) == PathOf(nodes, i) + [m]
            && Reads(r, marks + MarksOf(PathOf(nodes, i) + [m], n))
  {
    hide MarksOf, NodeReads, PathOf, Locate;
    var r := Grown(nodes, i, m, n);
    var p := PathOf(nodes, i) + [m];
    GrownPath(nodes, i, m, n);
    var more := MarksOf(p, n);
    assert forall k :: k in marks ==> k.p != p;
    forall j | 0 <= j < |r|
      ensures NodeReads(r, marks + more, j)
    {
      if j < |nodes| {
        GrownOther(nodes, marks, i, m, n, more, j);
      } else {
        MarksOfReads(r, marks + more, marks, n, j);
      }
    }
    forall k | k in marks + more
      ensures Locate(r, k.p).Some?
    {
      if k in marks {
        LocateFrame(nodes, r, k.p);
      }
    }
  }

  /** Marks at other paths say nothing about `p`. */
  lemma {:induction false} NotTouched(marks: set<Mark>, more: set<Mark>, p: Path)
    requires forall m :: m in more ==> m.p != p
    ensures Node(p) in marks + more <==> Node(p) in marks
    ensures End(p) in marks + more <==> End(p) in marks
    ensures forall t :: Tagged(p, t) in marks + more <==> Tagged(p, t) in marks
    ensures forall o :: Claim(p, o) in marks + more <==> Claim(p, o) in marks
  {
  }

  lemma {:induction false} MarksOfReads(r: seq<PathNode>, all: set<Mark>, marks: set<Mark>, n: PathNode, i: nat)
    requires Shaped(r) && i < |r| && r[i] == n && ZeroClaims(n) && all == marks + MarksOf(PathOf(r, i), n)
    requires forall m :: m in marks ==> m.p != PathOf(r, i)
    ensures NodeReads(r, all, i)
  {
  }

  // ----- adding facts to a node -----

  /** Payload changes at `i`. */
  ghost predicate Repainted(a: seq<PathNode>, b: seq<PathNode>, i: nat)
  {
    && |a| == |b| && i < |a| && (forall j :: 0 <= j < |a| && j != i ==> b[j] == a[j])
    && b[i] == a[i].(outcome := b[i].outcome, prov := b[i].prov, claims := b[i].claims)
  }

  lemma {:induction false} RepaintedShaped(a: seq<PathNode>, b: seq<PathNode>, i: nat)
    requires Shaped(a) && Repainted(a, b, i)
    ensures Shaped(b)
  {
    forall j | 0 <= j < |b|
      ensures NodeShaped(b, j)
    {
      assert NodeShaped(a, j);
      forall k | k in b[j].children
        ensures ChildShaped(b, j, k)
      {
        assert ChildShaped(a, j, k);
      }
    }
  }

  lemma {:induction false} RepaintedReads(a: seq<PathNode>, b: seq<PathNode>, i: nat, marks: set<Mark>, more: set<Mark>)
    requires Reads(a, marks) && Repainted(a, b, i) && (forall m :: m in more ==> m.p == PathOf(a, i))
    requires b[i].outcome == a[i].outcome || a[i].outcome.None?
    requires (forall t :: t in b[i].prov <==> t in a[i].prov || Tagged(PathOf(a, i), t) in more)
    requires (forall o :: Claim(PathOf(a, i), o) in more ==> b[i].outcome == Some(o))
    requires b[i].outcome != a[i].outcome ==> b[i].outcome.Some? && Claim(PathOf(a, i), b[i].outcome.value) in more
    requires ZeroClaims(b[i])
    requires b[i].claims != [] <==> (a[i].claims != [] || End(PathOf(a, i)) in more)
    ensures Reads(b, marks + more)
  {
    RepaintedShaped(a, b, i);
    var all := marks + more;
    assert NodeReads(a, marks, i);
    forall j | 0 <= j < |b|
      ensures NodeReads(b, all, j)
    {
      PathFrame(a, b, j);
      assert NodeReads(a, marks, j);
      if j != i {
        if PathOf(a, j) == PathOf(a, i) { PathOnce(a, i, j); }
        NotTouched(marks, more, PathOf(a, j));
      }
    }
    forall k | k in all
      ensures Locate(b, k.p).Some?
    {
      if k in marks {
        LocateFrame(a, b, k.p);
      } else {
        LocatePath(a, i);
        LocateFrame(a, b, k.p);
      }
    }
  }

  // ----- keys in ascending order -----

  /** The keys of `m` below `n`, ascending. */
  function KeysBelow(m: map<Move, nat>, n: nat): (ks: seq<Move>)
    ensures forall k :: k in ks <==> k in m && k < n
  {
    if n == 0 then [] else KeysBelow(m, n - 1) + if n - 1 in m then [n - 1] else []
  }

  function Keys(m: map<Move, nat>): seq<Move> { KeysBelow(m, CODES) }

  ghost predicate Ascending(ks: seq<Move>)
  {
    forall a, b :: 0 <= a < b < |ks| ==> ks[a] < ks[b]
  }

  lemma {:induction false} KeysAscend(m: map<Move, nat>, n: nat)
    ensures Ascending(KeysBelow(m, n))
  {
    if n > 0 {
      KeysAscend(m, n - 1);
      var before, all := KeysBelow(m, n - 1), KeysBelow(m, n);
      assert all == before + if n - 1 in m then [n - 1] else [];
      hide KeysBelow;
      forall a, b | 0 <= a < b < |all|
        ensures all[a] < all[b]
      {
        assert before[a] in before;
      }
    }
  }

  lemma {:induction false} SameKeys(a: map<Move, nat>, b: map<Move, nat>, n: nat)
    requires a.Keys == b.Keys
    ensures KeysBelow(a, n) == KeysBelow(b, n)
  {
    if n > 0 {
      SameKeys(a, b, n - 1);
      assert n - 1 in a <==> n - 1 in a.Keys;
      assert n - 1 in b <==> n - 1 in b.Keys;
    }
  }

  lemma {:induction false} KeysAll(nodes: seq<PathNode>, i: nat)
    requires Shaped(nodes) && i < |nodes|
    ensures forall k :: k in Keys(nodes[i].children) <==> k in nodes[i].children
  {
    assert NodeShaped(nodes, i);
    forall k | k in nodes[i].children
      ensures k < CODES
    {
      assert ChildShaped(nodes, i, k);
    }
  }

  /** Children in ascending move order. */
  function Kids(nodes: seq<PathNode>, i: nat): (ids: seq<nat>)
    requires i < |nodes|
    ensures |ids| == |Keys(nodes[i].children)|
    ensures forall k :: 0 <= k < |ids| ==>
              && Keys(nodes[i].children)[k] in nodes[i].children
              && ids[k] == nodes[i].children[Keys(nodes[i].children)[k]]
  {
    var ks := Keys(nodes[i].children);
    assert forall k :: 0 <= k < |ks| ==> ks[k] in ks;
    seq(|ks|, k requires 0 <= k < |ks| => nodes[i].children[ks[k]])
  }

  lemma {:induction false} KidsWithin(nodes: seq<PathNode>, i: nat)
    requires Shaped(nodes) && i < |nodes|
    ensures forall k :: 0 <= k < |Kids(nodes, i)| ==> i < Kids(nodes, i)[k] < |nodes|
    ensures |Kids(nodes, i)| == 0 <==> nodes[i].children == map[]
  {
    var ks := Keys(nodes[i].children);
    forall k | 0 <= k < |Kids(nodes, i)|
      ensures i < Kids(nodes, i)[k] < |nodes|
    {
      ChildPath(nodes, i, ks[k]);
    }
    KeysAll(nodes, i);
    if |ks| == 0 {
      assert forall k :: k in nodes[i].children ==> k in ks;
      assert nodes[i].children == map[];
    } else {
      assert ks[0] in ks;
    }
  }
}
