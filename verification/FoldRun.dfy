/** The fold: load, graft every new shard, finalise, re-validate, write the delta. */
module FoldRun {
  import opened Game
  import opened Tree
  import opened Paths
  import opened PathDepth
  import opened PathOrder
  import opened PathMerge
  import opened PathSame
  import opened PathTruth
  import opened PathShards
  import opened MergeResult
  import opened Fold
  import opened FoldLoad
  import opened FoldWrite

  /** The finalised tree behind a table. */
  datatype Backing = Backing(nodes: seq<PathNode>, depths: seq<nat>, src: seq<nat>, marks: set<Mark>)

  /** The table is the finalised tree of these good shards. */
  ghost predicate IsStore(g: Rules, start: Position, rows: seq<Row>, ss: seq<Shard>, w: Backing)
  {
    && AllGood(g, start, ss) && AllShaped(ss) && FactsOf(ss, w.marks) && TrueTree(g, start, w.nodes, w.marks)
    && Committed(rows, w.nodes, w.depths, w.src) && ParentsFirst(rows)
    && forall i :: 0 <= i < |w.nodes| ==> w.depths[i] == Bound(w.nodes, i)
  }

  lemma {:induction false} StoreParts(g: Rules, start: Position, rows: seq<Row>, ss: seq<Shard>, w: Backing)
    requires IsStore(g, start, rows, ss, w)
    ensures Shaped(w.nodes) && Reads(w.nodes, w.marks) && Truthful(g, start, w.marks)
            && TrueTree(g, start, w.nodes, w.marks)
    ensures Whole(rows, w.nodes, w.src) && WellPlayed(g, start, w.nodes) && ById(rows)
  {
    TruthfulConsistent(g, start, w.marks);
    NoDrawNodes(w.nodes, w.marks);
    CommittedWhole(rows, w.nodes, w.depths, w.src);
    forall i, m | 0 <= i < |w.nodes| && m in w.nodes[i].children
      ensures m in g.legal(At(g, start, w.nodes, i))
    {
      ChildLegal(g, start, w.nodes, w.marks, i, m);
    }
  }

  // ----- the loaded tree records the same facts -----

  lemma {:induction false} TruthfulFacts(g: Rules, start: Position, marks: set<Mark>)
    requires Truthful(g, start, marks)
    ensures Truthful(g, start, Facts(marks))
  {
    hide Replay, Holds;
    forall m | m in Facts(marks)
      ensures MarkTrue(g, start, Facts(marks), m)
    {
      assert MarkTrue(g, start, marks, m);
    }
  }

  /** The store's node behind a loaded node. */
  lemma {:induction false} Behind(g: Rules, start: Position, rows: seq<Row>, ss: seq<Shard>, w: Backing, st: Standing,
          src: seq<nat>, i: nat)
    returns (x: nat)
    requires IsStore(g, start, rows, ss, w) && LoadedAs(g, start, rows, st, src) && i < |st.nodes|
    ensures x < |w.nodes| == |w.src| && Shaped(w.nodes) && Shaped(st.nodes) && w.src[x] == src[i] < |rows|
    ensures PathOf(st.nodes, i) == PathOf(w.nodes, x) && RowIs(rows, w.nodes, w.depths, w.src, x)
    ensures st.nodes[i].outcome == w.nodes[x].outcome && st.nodes[i].prov == w.nodes[x].prov
    ensures st.stored[i] == rows[src[i]] && st.nodes[i].claims == ClaimsOf(rows, rows[src[i]])
  {
    StoreParts(g, start, rows, ss, w);
    StoredAt(rows, st.nodes, src, i);
    x := NodeOfRow(rows, w.nodes, w.src, src[i]);
    SamePath(rows, st.nodes, src, i, w.nodes, w.src, x);
    assert LoadedRow(rows, st, src, i) && RowIs(rows, w.nodes, w.depths, w.src, x);
  }

  /** A row with child rows is a node with children. */
  lemma {:induction false} ChildrenShow(g: Rules, start: Position, rows: seq<Row>, ss: seq<Shard>, w: Backing, x: nat)
    requires IsStore(g, start, rows, ss, w) && x < |w.nodes| && w.src[x] < |rows|
             && HasChildren(rows, rows[w.src[x]].id)
    ensures w.nodes[x].children != map[]
  {
    StoreParts(g, start, rows, ss, w);
    var k :| 0 <= k < |rows| && rows[k].parent == Some(rows[w.src[x]].id);
    var y := NodeOfRow(rows, w.nodes, w.src, k);
    assert NodeShaped(w.nodes, y);
    var p := w.nodes[y].parent.value;
    StoredAt(rows, w.nodes, w.src, p);
    SameRowId(rows, w.src[p], w.src[x]);
    SameSource(w.src, p, x);
    assert w.nodes[y].mv.value in w.nodes[x].children;
  }

  /** No stored row restores a claim: exact rows are ends of the game. */
  lemma {:induction false} NoClaims(g: Rules, start: Position, rows: seq<Row>, ss: seq<Shard>, w: Backing, x: nat)
    requires IsStore(g, start, rows, ss, w) && x < |w.nodes| && w.src[x] < |rows|
    ensures ClaimsOf(rows, rows[w.src[x]]) == []
  {
    StoreParts(g, start, rows, ss, w);
    var r := rows[w.src[x]];
    assert RowIs(rows, w.nodes, w.depths, w.src, x);
    if r.outcome.Some? && r.status == Some(Exact) && HasChildren(rows, r.id) {
      ChildrenShow(g, start, rows, ss, w, x);
      assert NodeReads(w.nodes, w.marks, x);
      assert MarkTrue(g, start, w.marks, End(PathOf(w.nodes, x)));
      Backed(g, start, w.nodes, w.marks, x);
    }
  }

  lemma {:induction false} LoadedNode(g: Rules, start: Position, rows: seq<Row>, ss: seq<Shard>, w: Backing,
          st: Standing, src: seq<nat>, i: nat)
    requires IsStore(g, start, rows, ss, w) && LoadedAs(g, start, rows, st, src) && i < |st.nodes|
    ensures Shaped(st.nodes) && NodeReads(st.nodes, Facts(w.marks), i)
  {
    var x := Behind(g, start, rows, ss, w, st, src, i);
    NoClaims(g, start, rows, ss, w, x);
    assert NodeReads(w.nodes, w.marks, x);
    FactsRead(st.nodes, i, w.nodes, x, w.marks);
  }

  lemma {:induction false} FactsRead(a: seq<PathNode>, i: nat, b: seq<PathNode>, x: nat, marks: set<Mark>)
    requires Shaped(a) && Shaped(b) && i < |a| && x < |b| && PathOf(a, i) == PathOf(b, x) && NodeReads(b, marks, x)
    requires a[i].outcome == b[x].outcome && a[i].prov == b[x].prov && a[i].claims == []
    ensures NodeReads(a, Facts(marks), i)
  {
    hide Shaped, PathOf;
  }

  /** The loaded tree records the store's facts. */
  lemma {:induction false} LoadedReads(g: Rules, start: Position, rows: seq<Row>, ss: seq<Shard>, w: Backing,
          st: Standing, src: seq<nat>)
    requires IsStore(g, start, rows, ss, w) && LoadedAs(g, start, rows, st, src)
    ensures TrueTree(g, start, st.nodes, Facts(w.marks))
  {
    StoreParts(g, start, rows, ss, w);
    TruthfulFacts(g, start, w.marks);
    hide IsStore, Truthful, NodeReads, Stored, WellPlayed;
    forall m | m in Facts(w.marks)
      ensures Locate(st.nodes, m.p).Some?
    {
      var x := ReadAt(w.nodes, w.marks, m);
      StoredAt(rows, w.nodes, w.src, x);
      assert w.src[x] < |rows| by { SourceSmall(rows, w.nodes, w.src, x); }
      var i := NodeOfRow(rows, st.nodes, src, w.src[x]);
      SamePath(rows, st.nodes, src, i, w.nodes, w.src, x);
      LocatePath(st.nodes, i);
    }
    forall i | 0 <= i < |st.nodes|
      ensures NodeReads(st.nodes, Facts(w.marks), i)
    {
      LoadedNode(g, start, rows, ss, w, st, src, i);
    }
  }

  lemma {:induction false} SourceSmall(rows: seq<Row>, nodes: seq<PathNode>, src: seq<nat>, x: nat)
    requires x < |nodes| == |src| && Stored(rows, nodes, src, x)
    ensures src[x] < |rows|
  {
  }

  // ----- grafting the new shards -----

  /** A shard file: its validated contents and the digest of its bytes. */
  datatype Candidate = Candidate(shard: Shard, digest: nat)

  /** The candidates whose tags the store does not have yet. */
  function NewShards(cs: seq<Candidate>, known: map<Tag, nat>, n: nat): seq<Shard>
    requires n <= |cs|
  {
    if n == 0 then []
    else NewShards(cs, known, n - 1) + if cs[n - 1].shard.tag in known then [] else [cs[n - 1].shard]
  }

  /** A known tag still has the bytes it was folded with. */
  predicate DigestOk(c: Candidate, known: map<Tag, nat>) { c.shard.tag in known ==> known[c.shard.tag] == c.digest }

  /** The digests on record after `n` candidates. */
  function DigestsAfter(cs: seq<Candidate>, known: map<Tag, nat>, n: nat): map<Tag, nat>
    requires n <= |cs|
  {
    if n == 0 then known else DigestsAfter(cs, known, n - 1)[cs[n - 1].shard.tag := cs[n - 1].digest]
  }

  ghost predicate AllCandidates(g: Rules, start: Position, cs: seq<Candidate>)
  {
    forall k :: 0 <= k < |cs| ==> GoodShard(g, start, cs[k].shard)
  }

  lemma {:induction false} NewStep(cs: seq<Candidate>, known: map<Tag, nat>, n: nat)
    requires n < |cs|
    ensures NewShards(cs, known, n + 1) ==
              NewShards(cs, known, n) + if cs[n].shard.tag in known then [] else [cs[n].shard]
  {
  }

  lemma {:induction false} GoodMore(g: Rules, start: Position, ts: seq<Shard>, s: Shard)
    requires AllGood(g, start, ts) && GoodShard(g, start, s)
    ensures AllGood(g, start, ts + [s])
  {
    hide GoodShard;
  }

  lemma {:induction false} NewGood(g: Rules, start: Position, cs: seq<Candidate>, known: map<Tag, nat>, n: nat)
    requires n <= |cs| && AllCandidates(g, start, cs)
    ensures AllGood(g, start, NewShards(cs, known, n)) && AllShaped(NewShards(cs, known, n))
  {
    hide GoodShard, AllShaped;
    if n > 0 {
      NewGood(g, start, cs, known, n - 1);
      NewStep(cs, known, n - 1);
      GoodMore(g, start, NewShards(cs, known, n - 1), cs[n - 1].shard);
    }
    GoodShaped(g, start, NewShards(cs, known, n));
  }

  lemma {:induction false} MarksConcat(ss: seq<Shard>, ts: seq<Shard>)
    requires AllShaped(ss) && AllShaped(ts)
    ensures AllShaped(ss + ts) && AllMarks(ss + ts) == AllMarks(ss) + AllMarks(ts)
  {
    hide ShardMarks, ShardShaped;
    var all := ss + ts;
    forall k | 0 <= k < |all|
      ensures ShardShaped(all[k])
    {
      assert all[k] == if k < |ss| then ss[k] else ts[k - |ss|];
    }
    assert AmongShards(ss, all) by {
      assert forall k :: 0 <= k < |ss| ==> all[k] == ss[k];
    }
    assert AmongShards(ts, all) by {
      assert forall k :: 0 <= k < |ts| ==> all[|ss| + k] == ts[k];
    }
    MarksCarry(ss, all);
    MarksCarry(ts, all);
    forall m | m in AllMarks(all) && m != Node([])
      ensures m in AllMarks(ss) || m in AllMarks(ts)
    {
      var k :| 0 <= k < |all| && m in ShardMarks(all[k]);
      assert all[k] == if k < |ss| then ss[k] else ts[k - |ss|];
    }
  }

  lemma {:induction false} GoodConcat(g: Rules, start: Position, ss: seq<Shard>, ts: seq<Shard>)
    requires AllGood(g, start, ss) && AllGood(g, start, ts)
    ensures AllGood(g, start, ss + ts)
  {
    hide GoodShard;
  }

  lemma {:induction false} FactsUnion(a: set<Mark>, b: set<Mark>)
    ensures Facts(a + b) == Facts(a) + Facts(b) && Facts(Facts(a)) == Facts(a)
  {
  }

  /** What the tree records after `n` candidates. */
  ghost predicate Grafted(base: set<Mark>, cs: seq<Candidate>, known: map<Tag, nat>, n: nat, marks: set<Mark>)
    requires n <= |cs|
  {
    AllShaped(NewShards(cs, known, n)) && marks == base + AllMarks(NewShards(cs, known, n))
  }

  lemma {:induction false} LastMarks(ts: seq<Shard>, s: Shard)
    requires AllShaped(ts) && AllShaped(ts + [s])
    ensures ShardShaped(s) && Linked(s.nodes)
            && AllMarks(ts + [s]) == AllMarks(ts) + StemMarks(s.path, s.tag, |s.path|) + BodyMarks(s)
  {
    hide StemMarks, BodyMarks, AllMarks;
    var all := ts + [s];
    assert all[|ts|] == s && all[..|ts|] == ts && all[..|ts| + 1] == all;
    OneMore(all, |ts|);
  }

  lemma {:induction false} NextGrafted(g: Rules, start: Position, base: set<Mark>, cs: seq<Candidate>, known: map<Tag,
          nat>, n: nat)
    requires g.Sane() && n < |cs| && AllCandidates(g, start, cs) && Truthful(g, start, base)
             && cs[n].shard.tag !in known
    ensures var s := cs[n].shard;
            && ShardShaped(s) && Linked(s.nodes) && ShardDecided(s)
            && AllShaped(NewShards(cs, known, n)) && AllShaped(NewShards(cs, known, n + 1))
            && AllMarks(NewShards(cs, known, n + 1)) ==
                 AllMarks(NewShards(cs, known, n)) + StemMarks(s.path, s.tag, |s.path|) + BodyMarks(s)
            && Consistent(base + AllMarks(NewShards(cs, known, n + 1)))
  {
    hide GoodShard, StemMarks, BodyMarks, Truthful, ShardDecided, ShardShaped, AllMarks, Consistent, NewShards, AllGood,
      AllShaped;
    NewGood(g, start, cs, known, n);
    NewGood(g, start, cs, known, n + 1);
    NewStep(cs, known, n);
    LastMarks(NewShards(cs, known, n), cs[n].shard);
    ShardTruthful(g, start, cs[n].shard);
    GoodTruthful(g, start, NewShards(cs, known, n + 1));
    TruthfulUnion(g, start, base, AllMarks(NewShards(cs, known, n + 1)));
    TruthfulConsistent(g, start, base + AllMarks(NewShards(cs, known, n + 1)));
  }

  /** Graft every new shard.  This fails exactly when a known tag comes with other bytes. */
  method GraftNew(g: Rules, start: Position, t: PathTree, cs: seq<Candidate>, known: map<Tag, nat>,
          ghost base: set<Mark>)
    returns (ok: bool, grafts: seq<nat>, digests: map<Tag, nat>)
    requires t.Valid() && t.marks == base && Node([]) in base && g.Sane() && Truthful(g, start, base)
             && AllCandidates(g, start, cs)
    modifies t
    ensures t.Valid() && (ok <==> forall k :: 0 <= k < |cs| ==> DigestOk(cs[k], known))
    ensures ok ==> Grafted(base, cs, known, |cs|, t.marks) && SameShape(old(t.nodes), t.nodes) && Shaped(t.nodes)
    ensures ok ==> var ts := NewShards(cs, known, |cs|);
                   |grafts| == |ts|
                   && forall k :: 0 <= k < |ts| ==> grafts[k] < |t.nodes| && PathOf(t.nodes, grafts[k]) == ts[k].path
    ensures ok && NewShards(cs, known, |cs|) == [] ==> t.nodes == old(t.nodes)
    ensures ok ==> digests == DigestsAfter(cs, known, |cs|)
  {
    hide GoodShard, StemMarks, BodyMarks, Truthful, ShardDecided, ShardShaped, AllMarks, Consistent, Reads, PathOf;
    grafts, digests := [], known;
    NothingGrafted(base, cs, known);
    t.ValidShaped();
    for k := 0 to |cs|
      invariant t.Valid() && Shaped(t.nodes) && SameShape(old(t.nodes), t.nodes) && Grafted(base, cs, known, k, t.marks)
      invariant forall x :: 0 <= x < k ==> DigestOk(cs[x], known)
      invariant GraftsAt(t.nodes, grafts, NewShards(cs, known, k))
      invariant NewShards(cs, known, k) == [] ==> t.nodes == old(t.nodes)
      invariant digests == DigestsAfter(cs, known, k)
    {
      var c := cs[k];
      if c.shard.tag in known {
        if known[c.shard.tag] != c.digest {
          return false, grafts, digests;
        }
        assert NewShards(cs, known, k + 1) == NewShards(cs, known, k);
      } else {
        ghost var before := t.nodes;
        NextGrafted(g, start, base, cs, known, k);
        ShardPathOk(c.shard);
        var graft := t.GraftPath(c.shard.path, c.shard.tag);
        t.ValidShaped();
        ghost var mid := t.nodes;
        assert t.marks + BodyMarks(c.shard) == base + AllMarks(NewShards(cs, known, k + 1));
        var fine := t.OverlaySubtree(graft, c.shard);
        assert fine;
        t.ValidShaped();
        PathFrame(mid, t.nodes, graft);
        GraftsKept(before, t.nodes, grafts, NewShards(cs, known, k));
        assert NewShards(cs, known, k + 1) == NewShards(cs, known, k) + [c.shard];
        grafts := grafts + [graft];
      }
      digests := digests[c.shard.tag := c.digest];
    }
    ok := true;
  }

  ghost predicate GraftsAt(nodes: seq<PathNode>, grafts: seq<nat>, ts: seq<Shard>)
    requires Shaped(nodes)
  {
    |grafts| == |ts| && forall k :: 0 <= k < |ts| ==> grafts[k] < |nodes| && PathOf(nodes, grafts[k]) == ts[k].path
  }

  lemma {:induction false} GraftsKept(a: seq<PathNode>, b: seq<PathNode>, grafts: seq<nat>, ts: seq<Shard>)
    requires Shaped(a) && Shaped(b) && SameShape(a, b) && GraftsAt(a, grafts, ts)
    ensures GraftsAt(b, grafts, ts)
  {
    forall k | 0 <= k < |ts|
      ensures PathOf(b, grafts[k]) == ts[k].path
    {
      PathFrame(a, b, grafts[k]);
    }
  }

  lemma {:induction false} NothingGrafted(base: set<Mark>, cs: seq<Candidate>, known: map<Tag, nat>)
    requires Node([]) in base
    ensures Grafted(base, cs, known, 0, base)
  {
    NoShards();
  }
}
