/** Trees that record the same facts are the same tree up to node numbers: bounds, checks,
    statuses and row order agree path by path. */
module PathSame {
  import opened Game
  import opened Tree
  import opened RebuildResult
  import opened Paths
  import opened PathDepth
  import opened PathOrder
  import opened PathMerge

  /** Everything but the exact claims. */
  ghost function Facts(marks: set<Mark>): set<Mark>
  {
    set m | m in marks && !m.End?
  }

  ghost predicate SameFacts(a: seq<PathNode>, ma: set<Mark>, b: seq<PathNode>, mb: set<Mark>)
  {
    Reads(a, ma) && Reads(b, mb) && Facts(ma) == Facts(mb)
  }

  lemma {:induction false} SameSym(a: seq<PathNode>, ma: set<Mark>, b: seq<PathNode>, mb: set<Mark>)
    requires SameFacts(a, ma, b, mb)
    ensures SameFacts(b, mb, a, ma)
  {
  }

  lemma {:induction false} FactsIn(ma: set<Mark>, mb: set<Mark>, m: Mark)
    requires Facts(ma) == Facts(mb) && !m.End?
    ensures m in ma <==> m in mb
  {
    assert m in Facts(ma) <==> m in Facts(mb);
  }

  lemma {:induction false} KeysCarry(a: seq<PathNode>, ma: set<Mark>, i: nat, b: seq<PathNode>, mb: set<Mark>, j: nat,
          m: Move)
    requires SameFacts(a, ma, b, mb) && i < |a| && j < |b| && PathOf(a, i) == PathOf(b, j) && m in a[i].children
    ensures m in b[j].children
  {
    ChildPath(a, i, m);
    assert NodeReads(a, ma, a[i].children[m]);
    var mark := Node(PathOf(a, i) + [m]);
    FactsIn(ma, mb, mark);
    assert Locate(b, mark.p).Some?;
    LocateSnoc(b, j, m);
  }

  /** Nodes at the same path have the same payload and the same moves. */
  lemma {:induction false} SameNode(a: seq<PathNode>, ma: set<Mark>, i: nat, b: seq<PathNode>, mb: set<Mark>, j: nat)
    requires SameFacts(a, ma, b, mb) && i < |a| && j < |b| && PathOf(a, i) == PathOf(b, j)
    ensures a[i].children.Keys == b[j].children.Keys && Keys(a[i].children) == Keys(b[j].children)
    ensures a[i].children == map[] <==> b[j].children == map[]
    ensures a[i].outcome == b[j].outcome && a[i].prov == b[j].prov && a[i].ply == b[j].ply && a[i].mv == b[j].mv
  {
    hide Reads;
    SamePayload(a, ma, i, b, mb, j);
    forall m: Move
      ensures m in a[i].children <==> m in b[j].children
    {
      if m in a[i].children {
        KeysCarry(a, ma, i, b, mb, j, m);
      } else if m in b[j].children {
        SameSym(a, ma, b, mb);
        KeysCarry(b, mb, j, a, ma, i, m);
      }
    }
    assert a[i].children.Keys == b[j].children.Keys;
    SameKeys(a[i].children, b[j].children, CODES);
    assert a[i].children == map[] <==> a[i].children.Keys == {};
    assert b[j].children == map[] <==> b[j].children.Keys == {};
  }

  lemma {:induction false} SamePayload(a: seq<PathNode>, ma: set<Mark>, i: nat, b: seq<PathNode>, mb: set<Mark>, j: nat)
    requires SameFacts(a, ma, b, mb) && i < |a| && j < |b| && PathOf(a, i) == PathOf(b, j)
    ensures a[i].outcome == b[j].outcome && a[i].prov == b[j].prov && a[i].ply == b[j].ply && a[i].mv == b[j].mv
  {
    var p := PathOf(a, i);
    assert NodeReads(a, ma, i) && NodeReads(b, mb, j);
    PlyIsLength(a, i);
    PlyIsLength(b, j);
    LastMove(a, i);
    LastMove(b, j);
    forall o: Outcome
      ensures a[i].outcome == Some(o) <==> b[j].outcome == Some(o)
    {
      FactsIn(ma, mb, Claim(p, o));
    }
    assert a[i].outcome.Some? ==> b[j].outcome == Some(a[i].outcome.value);
    assert b[j].outcome.Some? ==> a[i].outcome == Some(b[j].outcome.value);
    forall t: Tag
      ensures t in a[i].prov <==> t in b[j].prov
    {
      FactsIn(ma, mb, Tagged(p, t));
    }
  }

  lemma {:induction false} LastMove(a: seq<PathNode>, i: nat)
    requires Shaped(a) && i < |a|
    ensures a[i].mv == if PathOf(a, i) == [] then None else Some(PathOf(a, i)[|PathOf(a, i)| - 1])
  {
    assert NodeShaped(a, i);
  }

  /** The k-th children are at the same path. */
  lemma {:induction false} SameKid(a: seq<PathNode>, ma: set<Mark>, i: nat, b: seq<PathNode>, mb: set<Mark>, j: nat,
          k: nat)
    requires SameFacts(a, ma, b, mb) && i < |a| && j < |b| && PathOf(a, i) == PathOf(b, j) && k < |Kids(a, i)|
    ensures |Kids(a, i)| == |Kids(b, j)| && i < Kids(a, i)[k] < |a| && j < Kids(b, j)[k] < |b|
    ensures PathOf(a, Kids(a, i)[k]) == PathOf(b, Kids(b, j)[k])
  {
    SameNode(a, ma, i, b, mb, j);
    KidPath(a, i, k);
    KidPath(b, j, k);
  }

  lemma {:induction false} SameLosses(a: seq<PathNode>, ids: seq<nat>, b: seq<PathNode>, jds: seq<nat>, bs: seq<nat>,
          n: nat)
    requires n <= |ids| == |jds| == |bs|
             && forall k :: 0 <= k < |ids| ==> ids[k] < |a| && jds[k] < |b| && a[ids[k]].outcome == b[jds[k]].outcome
    ensures LossBounds(a, ids, bs, n) == LossBounds(b, jds, bs, n)
  {
    if n > 0 {
      SameLosses(a, ids, b, jds, bs, n - 1);
    }
  }

  lemma {:induction false} SameBound(a: seq<PathNode>, ma: set<Mark>, i: nat, b: seq<PathNode>, mb: set<Mark>, j: nat)
    requires SameFacts(a, ma, b, mb) && i < |a| && j < |b| && PathOf(a, i) == PathOf(b, j)
    ensures Bound(a, i) == Bound(b, j)
    decreases |a| - i
  {
    SameNode(a, ma, i, b, mb, j);
    KidsWithin(a, i);
    KidsWithin(b, j);
    hide SameFacts, Kids, Keys, PathOf, Least, Greatest, LossBounds;
    var ids, jds := Kids(a, i), Kids(b, j);
    forall k | 0 <= k < |ids|
      ensures |ids| == |jds| && KidBounds(a, i)[k] == KidBounds(b, j)[k] && a[ids[k]].outcome == b[jds[k]].outcome
    {
      SameKid(a, ma, i, b, mb, j, k);
      SameNode(a, ma, ids[k], b, mb, jds[k]);
      SameBound(a, ma, ids[k], b, mb, jds[k]);
    }
    if |ids| > 0 {
      assert KidBounds(a, i) == KidBounds(b, j);
      SameLosses(a, ids, b, jds, KidBounds(a, i), |ids|);
    }
  }

  lemma {:induction false} SameKidsOk(a: seq<PathNode>, ma: set<Mark>, i: nat, b: seq<PathNode>, mb: set<Mark>, j: nat)
    requires SameFacts(a, ma, b, mb) && i < |a| && j < |b| && PathOf(a, i) == PathOf(b, j) && KidsOk(a, i)
    ensures KidsOk(b, j)
  {
    SameNode(a, ma, i, b, mb, j);
    KidsWithin(a, i);
    KidsWithin(b, j);
    hide SameFacts, Kids, Keys, PathOf;
    var ids, jds := Kids(a, i), Kids(b, j);
    if |jds| > 0 {
      SameSym(a, ma, b, mb);
      forall k | 0 <= k < |jds|
        ensures |ids| == |jds| && a[ids[k]].outcome == b[jds[k]].outcome
      {
        SameKid(b, mb, j, a, ma, i, k);
        SameNode(a, ma, ids[k], b, mb, jds[k]);
      }
      if HasLossKid(a, i) {
        var k :| 0 <= k < |ids| && a[ids[k]].outcome == Some(Loss);
        assert b[jds[k]].outcome == Some(Loss);
      }
    }
  }

  /** Equal marks pass the same checks. */
  lemma {:induction false} SameCheck(a: seq<PathNode>, b: seq<PathNode>, marks: set<Mark>, i: nat, j: nat)
    requires Reads(a, marks) && Reads(b, marks) && i < |a| && j < |b| && PathOf(a, i) == PathOf(b, j) && NodeOk(a, i)
    ensures NodeOk(b, j)
  {
    SameKidsOk(a, marks, i, b, marks, j);
    SameBound(a, marks, i, b, marks, j);
    hide Bound, KidsOk;
    assert NodeReads(a, marks, i) && NodeReads(b, marks, j);
    if b[j].claims != [] {
      assert a[i].claims[0] == Bound(a, i);
    }
    assert KidsOk(b, j);
    NodeOkParts(b, j);
  }

  lemma {:induction false} NodeOkParts(b: seq<PathNode>, j: nat)
    requires Shaped(b) && j < |b|
    ensures NodeOk(b, j) <==> KidsOk(b, j) && forall k :: 0 <= k < |b[j].claims| ==> b[j].claims[k] == Bound(b, j)
  {
  }

  ghost predicate AllOk(nodes: seq<PathNode>)
  {
    Shaped(nodes) && forall i :: 0 <= i < |nodes| ==> NodeOk(nodes, i)
  }

  lemma {:induction false} ChecksCarry(a: seq<PathNode>, b: seq<PathNode>, marks: set<Mark>)
    requires Reads(a, marks) && Reads(b, marks) && AllOk(a)
    ensures AllOk(b)
  {
    hide NodeOk;
    forall j | 0 <= j < |b|
      ensures NodeOk(b, j)
    {
      assert NodeReads(b, marks, j);
      var i := ReadAt(a, marks, Node(PathOf(b, j)));
      SameCheck(a, b, marks, i, j);
    }
  }

  // ----- row order -----

  ghost function PathsOf(nodes: seq<PathNode>, r: seq<nat>): (ps: seq<Path>)
    requires Shaped(nodes) && forall k :: 0 <= k < |r| ==> r[k] < |nodes|
    ensures |ps| == |r|
  {
    seq(|r|, k requires 0 <= k < |r| => PathOf(nodes, r[k]))
  }

  lemma {:induction false} PathsConcat(nodes: seq<PathNode>, r: seq<nat>, s: seq<nat>)
    requires Shaped(nodes) && (forall k :: 0 <= k < |r| ==> r[k] < |nodes|)
             && forall k :: 0 <= k < |s| ==> s[k] < |nodes|
    ensures PathsOf(nodes, r + s) == PathsOf(nodes, r) + PathsOf(nodes, s)
  {
  }

  /** The same paths in the same order. */
  lemma {:induction false} SamePre(a: seq<PathNode>, ma: set<Mark>, i: nat, b: seq<PathNode>, mb: set<Mark>, j: nat)
    requires SameFacts(a, ma, b, mb) && i < |a| && j < |b| && PathOf(a, i) == PathOf(b, j)
    ensures PathsOf(a, Pre(a, i)) == PathsOf(b, Pre(b, j))
    decreases |a| - i, 1, 0
  {
    hide PathOf, Pre, Kids, NodeReads, Locate, NodeShaped;
    SameNode(a, ma, i, b, mb, j);
    PreHead(a, i);
    PreHead(b, j);
    SamePreAll(a, ma, i, b, mb, j, 0);
    PathsConcat(a, [i], PreAll(a, Kids(a, i), 0, i + 1));
    PathsConcat(b, [j], PreAll(b, Kids(b, j), 0, j + 1));
    assert PathsOf(a, [i]) == PathsOf(b, [j]);
  }

  lemma {:induction false} SamePreAll(a: seq<PathNode>, ma: set<Mark>, i: nat, b: seq<PathNode>, mb: set<Mark>, j: nat,
          k: nat)
    requires SameFacts(a, ma, b, mb) && i < |a| && j < |b| && PathOf(a, i) == PathOf(b, j)
    requires |Kids(a, i)| == |Kids(b, j)| && InRange(Kids(a, i), i + 1, |a|) && InRange(Kids(b, j), j + 1, |b|)
             && k <= |Kids(a, i)|
    ensures PathsOf(a, PreAll(a, Kids(a, i), k, i + 1)) == PathsOf(b, PreAll(b, Kids(b, j), k, j + 1))
    decreases |a| - i, 0, |Kids(a, i)| - k
  {
    hide PathOf, Pre, Kids, NodeReads, Locate, NodeShaped;
    var ids, jds := Kids(a, i), Kids(b, j);
    if k < |ids| {
      SameKid(a, ma, i, b, mb, j, k);
      SamePre(a, ma, ids[k], b, mb, jds[k]);
      SamePreAll(a, ma, i, b, mb, j, k + 1);
      PathsConcat(a, Pre(a, ids[k]), PreAll(a, ids, k + 1, i + 1));
      PathsConcat(b, Pre(b, jds[k]), PreAll(b, jds, k + 1, j + 1));
    }
  }

  // ----- finalisation -----

  /** Trees of these marks pass the checks. */
  ghost predicate ChecksPass(marks: set<Mark>)
  {
    forall nodes: seq<PathNode> :: Reads(nodes, marks) ==> AllOk(nodes)
  }

  /** The finished merge: row `r` is node `order[r]`. */
  datatype Merged = Merged(nodes: seq<PathNode>, depths: seq<nat>, order: seq<nat>, rowOf: seq<nat>)

  ghost predicate Finished(r: Merged, marks: set<Mark>)
  {
    && Reads(r.nodes, marks) && |r.depths| == |r.nodes|
    && (forall i :: 0 <= i < |r.nodes| ==> r.depths[i] == Bound(r.nodes, i))
    && r.order == Pre(r.nodes, 0) && Rows(r.nodes, r.order, r.rowOf)
  }

  /** Bounds and row ids; refused exactly when the marks do not pass the checks. */
  method Finalize(t: PathTree) returns (r: Option<Merged>)
    requires t.Valid() && NoDraws(t.nodes)
    ensures r.Some? <==> ChecksPass(t.marks)
    ensures r.Some? ==> r.value.nodes == t.nodes && Finished(r.value, t.marks)
  {
    hide NodeOk, Rows, Reads, Bound;
    t.ValidShaped();
    var fine, depths := FindBounds(t.nodes);
    if !fine {
      assert !AllOk(t.nodes);
      return None;
    }
    forall nodes: seq<PathNode> | Reads(nodes, t.marks)
      ensures AllOk(nodes)
    {
      ChecksCarry(t.nodes, nodes, t.marks);
    }
    var order, rowOf := AssignRows(t.nodes);
    r := Some(Merged(t.nodes, depths, order, rowOf));
  }

  // ----- a whole merge -----

  ghost predicate AllShaped(ss: seq<Shard>)
  {
    forall k :: 0 <= k < |ss| ==> ShardShaped(ss[k])
  }

  ghost predicate AllDecided(ss: seq<Shard>)
  {
    forall k :: 0 <= k < |ss| ==> ShardDecided(ss[k])
  }

  /** Everything the shards say; a union, so order and repetition do not matter. */
  ghost function AllMarks(ss: seq<Shard>): set<Mark>
    requires AllShaped(ss)
  {
    {Node([])} + set k, m | 0 <= k < |ss| && m in ShardMarks(ss[k]) :: m
  }

  /** The merge succeeds: every shard node is decisive, no path has two outcomes and the tree
      passes its checks. */
  ghost predicate Mergeable(ss: seq<Shard>)
    requires AllShaped(ss)
  {
    AllDecided(ss) && Consistent(AllMarks(ss)) && ChecksPass(AllMarks(ss))
  }

  /** Merge shards in the given order and finalise. */
  method MergeShards(ss: seq<Shard>) returns (r: Option<Merged>)
    requires AllShaped(ss)
    ensures r.Some? <==> Mergeable(ss)
    ensures r.Some? ==> Finished(r.value, AllMarks(ss))
  {
    hide Finished, StemMarks, BodyMarks, AllMarks, ShardDecided, Consistent, Reads, ChecksPass, NoDraws;
    var t := new PathTree();
    NoShards();
    for k := 0 to |ss|
      invariant fresh(t) && t.Valid() && t.marks == AllMarks(ss[..k])
      invariant forall x :: 0 <= x < k ==> ShardDecided(ss[x])
    {
      ShardPathOk(ss[k]);
      var graft := t.GraftPath(ss[k].path, ss[k].tag);
      var ok := t.OverlaySubtree(graft, ss[k]);
      OneMore(ss, k);
      if !ok {
        if ShardDecided(ss[k]) {
          LessConsistent(AllMarks(ss[..k + 1]), AllMarks(ss));
        }
        return None;
      }
    }
    assert ss[..|ss|] == ss;
    NoDrawMarks(ss);
    NoDrawNodes(t.nodes, t.marks);
    ReadsConsistent(t.nodes, t.marks);
    r := Finalize(t);
  }

  lemma {:induction false} ShardPathOk(s: Shard)
    requires ShardShaped(s)
    ensures forall j :: 0 <= j < |s.path| ==> s.path[j] < CODES
  {
  }

  lemma {:induction false} NoShards()
    ensures AllMarks([]) == {Node([])}
  {
  }

  lemma {:induction false} OneMore(ss: seq<Shard>, k: nat)
    requires AllShaped(ss) && k < |ss|
    ensures AllMarks(ss[..k + 1]) ==
              AllMarks(ss[..k]) + StemMarks(ss[k].path, ss[k].tag, |ss[k].path|) + BodyMarks(ss[k])
    ensures AllMarks(ss[..k + 1]) <= AllMarks(ss)
  {
    hide StemMarks, BodyMarks, ShardShaped;
    var more, all := ss[..k + 1], ss[..k];
    MarksSplit(ss[k]);
    hide ShardMarks;
    forall m | m in AllMarks(more) && m != Node([])
      ensures m in AllMarks(all) || m in ShardMarks(ss[k])
    {
      var x :| 0 <= x < |more| && m in ShardMarks(more[x]);
      assert x < k ==> all[x] == more[x];
    }
    assert more[k] == ss[k];
    MarksCarry(all, more);
    MarksCarry(more, ss);
  }

  lemma {:induction false} MarksSplit(s: Shard)
    requires ShardShaped(s)
    ensures ShardMarks(s) == StemMarks(s.path, s.tag, |s.path|) + BodyMarks(s)
  {
  }

  lemma {:induction false} LessConsistent(a: set<Mark>, b: set<Mark>)
    requires a <= b && !Consistent(a)
    ensures !Consistent(b)
  {
  }

  lemma {:induction false} NoDrawMarks(ss: seq<Shard>)
    requires AllShaped(ss) && AllDecided(ss)
    ensures forall p: Path :: Claim(p, Draw) !in AllMarks(ss)
  {
    hide StemMarks, OwnMarks, ShardAt;
    forall m | m in AllMarks(ss) && m.Claim?
      ensures m.o != Draw
    {
      var k :| 0 <= k < |ss| && m in ShardMarks(ss[k]);
      StemClaimless(ss[k].path, ss[k].tag, |ss[k].path|);
      var j: nat :| j < |ss[k].nodes| && m in OwnMarks(ss[k], j);
      OwnClaim(ss[k], j, m);
      assert DecidedNode(ss[k].nodes[j]);
    }
  }

  lemma {:induction false} OwnClaim(s: Shard, j: nat, m: Mark)
    requires Linked(s.nodes) && j < |s.nodes| && m in OwnMarks(s, j) && m.Claim?
    ensures s.nodes[j].outcome == Some(m.o) && m.p == ShardAt(s, j)
  {
  }

  lemma {:induction false} NoDrawNodes(nodes: seq<PathNode>, marks: set<Mark>)
    requires Reads(nodes, marks) && forall p: Path :: Claim(p, Draw) !in marks
    ensures NoDraws(nodes)
  {
    forall i | 0 <= i < |nodes|
      ensures nodes[i].outcome != Some(Draw)
    {
      assert NodeReads(nodes, marks, i);
    }
  }

  lemma {:induction false} StemClaimless(path: Path, tag: Tag, n: nat)
    requires n <= |path|
    ensures forall m :: m in StemMarks(path, tag, n) ==> m.Node? || m.Tagged?
  {
    if n > 0 {
      StemClaimless(path, tag, n - 1);
    }
  }

  ghost predicate AmongShards(ss: seq<Shard>, ts: seq<Shard>)
  {
    forall k :: 0 <= k < |ss| ==> ss[k] in ts
  }

  lemma {:induction false} MarksCarry(ss: seq<Shard>, ts: seq<Shard>)
    requires AllShaped(ss) && AllShaped(ts) && AmongShards(ss, ts)
    ensures AllMarks(ss) <= AllMarks(ts)
  {
    hide ShardMarks, ShardShaped;
    forall m | m in AllMarks(ss)
      ensures m in AllMarks(ts)
    {
      if m != Node([]) {
        var k :| 0 <= k < |ss| && m in ShardMarks(ss[k]);
        var x :| 0 <= x < |ts| && ts[x] == ss[k];
      }
    }
  }

  lemma {:induction false} MergeableCarry(ss: seq<Shard>, ts: seq<Shard>)
    requires AllShaped(ss) && AllShaped(ts) && AmongShards(ss, ts) && AmongShards(ts, ss) && Mergeable(ss)
    ensures Mergeable(ts) && AllMarks(ss) == AllMarks(ts)
  {
    hide AllMarks, ShardDecided, ShardShaped, Consistent, ChecksPass;
    MarksCarry(ss, ts);
    MarksCarry(ts, ss);
    assert AllDecided(ts) by {
      forall k | 0 <= k < |ts|
        ensures ShardDecided(ts[k])
      {
        assert ts[k] in ss;
        var x :| 0 <= x < |ss| && ss[x] == ts[k];
      }
    }
    assert AllMarks(ss) == AllMarks(ts);
  }

  // ----- confluence -----

  /** What one row of the result says. */
  datatype Fact = Fact(path: Path, outcome: Option<Outcome>, prov: set<Tag>, bound: Option<nat>, exact: bool)

  ghost function FactAt(nodes: seq<PathNode>, i: nat): Fact
    requires Shaped(nodes) && i < |nodes|
  {
    var n := nodes[i];
    Fact(PathOf(nodes, i), n.outcome, n.prov, if n.outcome.Some? then Some(Bound(nodes, i)) else None,
         n.outcome.Some? && (n.children == map[] || n.claims != []))
  }

  ghost predicate SameRows(a: Merged, b: Merged)
    requires Shaped(a.nodes) && Shaped(b.nodes)
  {
    && |a.order| == |b.order|
    && forall r :: 0 <= r < |a.order| ==> SameRow(a, b, r)
  }

  ghost predicate SameRow(a: Merged, b: Merged, r: nat)
    requires Shaped(a.nodes) && Shaped(b.nodes) && r < |a.order| && r < |b.order|
  {
    a.order[r] < |a.nodes| && b.order[r] < |b.nodes| && FactAt(a.nodes, a.order[r]) == FactAt(b.nodes, b.order[r])
  }

  lemma {:induction false} SameFact(a: seq<PathNode>, b: seq<PathNode>, marks: set<Mark>, i: nat, j: nat)
    requires Reads(a, marks) && Reads(b, marks) && i < |a| && j < |b| && PathOf(a, i) == PathOf(b, j)
    ensures FactAt(a, i) == FactAt(b, j)
  {
    hide Bound;
    SameNode(a, marks, i, b, marks, j);
    SameBound(a, marks, i, b, marks, j);
    assert NodeReads(a, marks, i) && NodeReads(b, marks, j);
  }

  /** One set of marks has one result, row by row. */
  lemma {:induction false} OneResult(a: Merged, b: Merged, marks: set<Mark>)
    requires Finished(a, marks) && Finished(b, marks)
    ensures SameRows(a, b)
  {
    hide FactAt, Pre, NodeReads, Locate, NodeShaped;
    PathOfRoot(a.nodes);
    PathOfRoot(b.nodes);
    SamePre(a.nodes, marks, 0, b.nodes, marks, 0);
    var ps, qs := PathsOf(a.nodes, a.order), PathsOf(b.nodes, b.order);
    forall r | 0 <= r < |a.order|
      ensures SameRow(a, b, r)
    {
      assert ps[r] == qs[r];
      SameFact(a.nodes, b.nodes, marks, a.order[r], b.order[r]);
    }
  }

  /** Merging is confluent: any order of the same shards, with or without repetitions, fails
      alike or gives the same rows. */
  method MergeBothWays(ss: seq<Shard>, ts: seq<Shard>) returns (a: Option<Merged>, b: Option<Merged>)
    requires AllShaped(ss) && AllShaped(ts) && AmongShards(ss, ts) && AmongShards(ts, ss)
    ensures a.Some? <==> b.Some?
    ensures a.Some? && b.Some? ==> Shaped(a.value.nodes) && Shaped(b.value.nodes) && SameRows(a.value, b.value)
  {
    hide Mergeable, AllMarks, FactAt, Rows, Pre, Bound, SameRow, AllShaped;
    a := MergeShards(ss);
    b := MergeShards(ts);
    if a.Some? {
      MergeableCarry(ss, ts);
      OneResult(a.value, b.value, AllMarks(ss));
    } else if b.Some? {
      MergeableCarry(ts, ss);
    }
  }
}
