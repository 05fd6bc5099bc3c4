/** One fold invocation, and what a sequence of them amounts to. */
module FoldStore {
  import opened Game
  import opened Lists
  import opened Tree
  import opened Paths
  import opened PathDepth
  import opened PathOrder
  import opened PathMerge
  import opened PathSame
  import opened PathTruth
  import opened PathShards
  import opened PathSkeleton
  import opened MergeResult
  import opened Fold
  import opened FoldLoad
  import opened FoldWrite
  import opened FoldRun
  import V = Validate

  /** An empty store, or the finalised tree of the shards folded so far. */
  ghost predicate StoreOk(g: Rules, start: Position, rows: seq<Row>, ss: seq<Shard>, w: Backing)
  {
    if rows == [] then ss == [] else IsStore(g, start, rows, ss, w)
  }

  /** A stored open row that one of these shards proves. */
  ghost predicate NewlyProven(rows: seq<Row>, w: Backing, ts: seq<Shard>)
  {
    rows != [] && Shaped(w.nodes) && AllShaped(ts)
    && exists x, o :: 0 <= x < |w.nodes| && w.nodes[x].outcome.None? && Claim(PathOf(w.nodes, x), o) in AllMarks(ts)
  }

  /** The loaded tree's marks. */
  ghost function BaseMarks(rows: seq<Row>, w: Backing): set<Mark>
  {
    if rows == [] then {Node([])} else Facts(w.marks)
  }

  /** What is known after loading. */
  ghost predicate Loaded(g: Rules, start: Position, rows: seq<Row>, ss: seq<Shard>, w: Backing, st: Standing,
          src: seq<nat>)
  {
    && StoreOk(g, start, rows, ss, w) && TrueTree(g, start, st.nodes, BaseMarks(rows, w))
    && (rows == [] ==> st == Standing([ROOT_NODE], [], []) && src == [])
    && (rows != [] ==> LoadedAs(g, start, rows, st, src))
  }

  lemma {:induction false} StartTree(g: Rules, start: Position)
    ensures TrueTree(g, start, [ROOT_NODE], {Node([])})
  {
    FreshReads();
    RootTrue(g, start);
  }

  lemma {:induction false} LoadedIs(g: Rules, start: Position, rows: seq<Row>, ss: seq<Shard>, w: Backing, st: Standing,
          src: seq<nat>)
    requires StoreOk(g, start, rows, ss, w)
    requires rows == [] ==> st == Standing([ROOT_NODE], [], []) && src == []
    requires rows != [] ==> LoadedAs(g, start, rows, st, src)
    ensures Loaded(g, start, rows, ss, w, st, src)
  {
    hide IsStore, LoadedAs;
    if rows == [] {
      StartTree(g, start);
    } else {
      LoadedReads(g, start, rows, ss, w, st, src);
    }
  }

  lemma {:induction false} BaseFacts(g: Rules, start: Position, rows: seq<Row>, ss: seq<Shard>, w: Backing)
    requires StoreOk(g, start, rows, ss, w)
    ensures AllGood(g, start, ss) && AllShaped(ss) && Facts(BaseMarks(rows, w)) == Facts(AllMarks(ss))
    ensures Node([]) in BaseMarks(rows, w)
  {
    hide AllMarks, GoodShard, ShardShaped;
    if rows == [] {
      NoShards();
    } else {
      FactsUnion(w.marks, w.marks);
      RootIn(ss);
      FactsIn(w.marks, AllMarks(ss), Node([]));
    }
  }

  lemma {:induction false} RootIn(ss: seq<Shard>)
    requires AllShaped(ss)
    ensures Node([]) in AllMarks(ss)
  {
  }

  // ----- the finalised tree -----

  /** The tree after grafting, finalised. */
  ghost predicate Finalised(g: Rules, start: Position, rows: seq<Row>, ss: seq<Shard>, w: Backing, st: Standing,
          ts: seq<Shard>, nodes: seq<PathNode>, marks: set<Mark>)
  {
    && AllGood(g, start, ts) && AllShaped(ts) && marks == BaseMarks(rows, w) + AllMarks(ts)
    && TrueTree(g, start, nodes, marks) && SameShape(st.nodes, nodes) && |st.nodes| <= |nodes|
  }

  lemma {:induction false} FactsGrow(g: Rules, start: Position, rows: seq<Row>, ss: seq<Shard>, w: Backing,
          ts: seq<Shard>)
    requires StoreOk(g, start, rows, ss, w) && AllGood(g, start, ts) && AllShaped(ts)
    ensures AllGood(g, start, ss + ts) && AllShaped(ss + ts) && AllShaped(ss)
    ensures FactsOf(ss + ts, BaseMarks(rows, w) + AllMarks(ts))
    ensures rows != [] ==> Facts(w.marks) <= Facts(BaseMarks(rows, w) + AllMarks(ts))
  {
    BaseFacts(g, start, rows, ss, w);
    hide GoodShard, AllMarks, ShardShaped, IsStore;
    GoodConcat(g, start, ss, ts);
    MarksConcat(ss, ts);
    FactsUnion(BaseMarks(rows, w), AllMarks(ts));
    FactsUnion(AllMarks(ss), AllMarks(ts));
    FactsUnion(w.marks, w.marks);
  }

  /** A stored row is refused exactly when it is open and a new shard proves it. */
  lemma {:induction false} RefusedIff(g: Rules, start: Position, rows: seq<Row>, ss: seq<Shard>, w: Backing,
          st: Standing, src: seq<nat>, ts: seq<Shard>, nodes: seq<PathNode>, marks: set<Mark>, i: nat)
    returns (x: nat)
    requires rows != [] && Loaded(g, start, rows, ss, w, st, src)
             && Finalised(g, start, rows, ss, w, st, ts, nodes, marks)
    requires i < |st.nodes|
    ensures x < |w.nodes| == |w.src| && Shaped(w.nodes) && i < |src| && w.src[x] == src[i] && i < |st.stored|
            && i < |nodes|
    ensures Refused(st.stored[i], nodes[i], Bound(nodes, i)) <==>
            w.nodes[x].outcome.None? && exists o :: Claim(PathOf(w.nodes, x), o) in AllMarks(ts)
  {
    x := Behind(g, start, rows, ss, w, st, src, i);
    StoreParts(g, start, rows, ss, w);
    FactsGrow(g, start, rows, ss, w, ts);
    PathFrame(st.nodes, nodes, i);
    var bound := w.depths[x];
    assert bound == Bound(w.nodes, x);
    hide IsStore, LoadedAs, Bound, AllGood, AllMarks, Truthful, FactsOf, Committed, Whole, WellPlayed;
    OutcomeKept(w.nodes, w.marks, x, nodes, marks, i);
    if w.nodes[x].outcome.Some? {
      BoundShrinks(g, start, w.nodes, w.marks, x, nodes, marks, i);
    } else {
      OpenBecomes(w.nodes, w.marks, x, nodes, marks, i, ts);
    }
  }

  lemma {:induction false} OpenBecomes(a: seq<PathNode>, ma: set<Mark>, x: nat, b: seq<PathNode>, mb: set<Mark>, i: nat,
          ts: seq<Shard>)
    requires Reads(a, ma) && Reads(b, mb) && AllShaped(ts) && mb == Facts(ma) + AllMarks(ts)
    requires x < |a| && i < |b| && PathOf(a, x) == PathOf(b, i) && a[x].outcome.None?
    ensures b[i].outcome.Some? <==> exists o :: Claim(PathOf(a, x), o) in AllMarks(ts)
  {
    assert NodeReads(a, ma, x) && NodeReads(b, mb, i);
    hide AllMarks;
    var p := PathOf(a, x);
    forall o: Outcome
      ensures b[i].outcome == Some(o) <==> Claim(p, o) in AllMarks(ts)
    {
      assert Claim(p, o) !in ma;
    }
    if b[i].outcome.Some? {
      assert Claim(p, b[i].outcome.value) in AllMarks(ts);
    }
  }

  /** The loaded rows spell the finalised tree's links. */
  lemma {:induction false} LinksKept(g: Rules, start: Position, rows: seq<Row>, ss: seq<Shard>, w: Backing,
          st: Standing, src: seq<nat>, ts: seq<Shard>, nodes: seq<PathNode>, marks: set<Mark>)
    requires Loaded(g, start, rows, ss, w, st, src) && Finalised(g, start, rows, ss, w, st, ts, nodes, marks)
    ensures LoadedRows(rows, st.ids, st.stored, src) && LinksMatch(rows, nodes, src)
  {
    if rows != [] {
      StoreParts(g, start, rows, ss, w);
      hide IsStore, Truthful, Reads, AllGood, AllShaped;
      forall i | 0 <= i < |src|
        ensures LinkAt(rows, nodes, src, i) && LoadedRowAt(rows, st.ids, st.stored, src, i)
      {
        assert LoadedRow(rows, st, src, i);
        StoredAt(rows, st.nodes, src, i);
        PlyIsLength(st.nodes, i);
        PlyIsLength(nodes, i);
        PathFrame(st.nodes, nodes, i);
        assert NodeShaped(nodes, i);
      }
    }
  }

  // ----- the fold -----

  lemma {:induction false} TruthPasses(g: Rules, start: Position, nodes: seq<PathNode>, marks: set<Mark>)
    requires TrueTree(g, start, nodes, marks)
    ensures ChecksPass(marks) && NoDraws(nodes)
  {
    hide AllOk, Truthful, Reads, NoDraws;
    forall other: seq<PathNode> | Reads(other, marks)
      ensures AllOk(other)
    {
      ReadsShaped(other, marks);
      TrueChecks(g, start, other, marks);
    }
    OkNodes(g, start, nodes, marks);
  }

  lemma {:induction false} NowFinalised(g: Rules, start: Position, rows: seq<Row>, ss: seq<Shard>, w: Backing,
          st: Standing, src: seq<nat>, ts: seq<Shard>, nodes: seq<PathNode>, marks: set<Mark>)
    requires Loaded(g, start, rows, ss, w, st, src) && g.Sane() && AllGood(g, start, ts) && AllShaped(ts)
    requires marks == BaseMarks(rows, w) + AllMarks(ts) && Shaped(nodes) && Reads(nodes, marks)
             && SameShape(st.nodes, nodes)
    ensures Finalised(g, start, rows, ss, w, st, ts, nodes, marks)
  {
    hide AllMarks, BaseMarks, Truthful, Reads, AllGood, AllShaped, StoreOk, LoadedAs;
    GoodTruthful(g, start, ts);
    TruthfulUnion(g, start, BaseMarks(rows, w), AllMarks(ts));
  }

  /** Some loaded row is refused exactly when a stored open row is newly proven. */
  lemma {:induction false} RefusedSomewhere(g: Rules, start: Position, rows: seq<Row>, ss: seq<Shard>, w: Backing,
          st: Standing, src: seq<nat>, ts: seq<Shard>, nodes: seq<PathNode>, depths: seq<nat>, marks: set<Mark>)
    requires Loaded(g, start, rows, ss, w, st, src) && Finalised(g, start, rows, ss, w, st, ts, nodes, marks)
    requires |depths| == |nodes| && forall i :: 0 <= i < |nodes| ==> depths[i] == Bound(nodes, i)
    requires |src| == |st.stored| <= |nodes|
    ensures (exists i :: 0 <= i < |src| && Refused(st.stored[i], nodes[i], depths[i])) <==> NewlyProven(rows, w, ts)
  {
    hide Refused, Bound, AllMarks, IsStore, Finalised;
    if rows != [] {
      FinalShaped(g, start, rows, ss, w, st, ts, nodes, marks);
      StoreParts(g, start, rows, ss, w);
      if i :| 0 <= i < |src| && Refused(st.stored[i], nodes[i], depths[i]) {
        var x := RefusedIff(g, start, rows, ss, w, st, src, ts, nodes, marks, i);
      }
      if NewlyProven(rows, w, ts) {
        var x: nat, o :| x < |w.nodes| && w.nodes[x].outcome.None? && Claim(PathOf(w.nodes, x), o) in AllMarks(ts);
        var i := LoadedFrom(g, start, rows, ss, w, st, src, x);
        var y := RefusedIff(g, start, rows, ss, w, st, src, ts, nodes, marks, i);
        SameSource(w.src, x, y);
        assert Claim(PathOf(w.nodes, y), o) in AllMarks(ts);
        assert depths[i] == Bound(nodes, i);
      }
    }
  }

  lemma {:induction false} FinalShaped(g: Rules, start: Position, rows: seq<Row>, ss: seq<Shard>, w: Backing,
          st: Standing, ts: seq<Shard>, nodes: seq<PathNode>, marks: set<Mark>)
    requires Finalised(g, start, rows, ss, w, st, ts, nodes, marks)
    ensures Shaped(nodes) && AllShaped(ts) && |st.nodes| <= |nodes|
  {
  }

  /** The loaded node of a stored one. */
  lemma {:induction false} LoadedFrom(g: Rules, start: Position, rows: seq<Row>, ss: seq<Shard>, w: Backing,
          st: Standing, src: seq<nat>, x: nat)
    returns (i: nat)
    requires IsStore(g, start, rows, ss, w) && LoadedAs(g, start, rows, st, src) && x < |w.nodes|
    ensures i < |st.nodes| == |src| && x < |w.src| && src[i] == w.src[x] && Distinct(w.src)
  {
    StoreParts(g, start, rows, ss, w);
    StoredAt(rows, w.nodes, w.src, x);
    SourceSmall(rows, w.nodes, w.src, x);
    i := NodeOfRow(rows, st.nodes, src, w.src[x]);
  }

  /** In a true tree only leaves claim an exact depth. */
  lemma {:induction false} ExactIsLeaf(g: Rules, start: Position, nodes: seq<PathNode>, marks: set<Mark>, i: nat)
    requires TrueTree(g, start, nodes, marks) && i < |nodes| && nodes[i].outcome.Some?
    ensures StatusOf(nodes[i]) == if nodes[i].children == map[] then Exact else Upper
  {
    assert NodeReads(nodes, marks, i);
    if nodes[i].claims != [] {
      assert MarkTrue(g, start, marks, End(PathOf(nodes, i)));
      Backed(g, start, nodes, marks, i);
    }
  }

  /** A tree that records the same facts writes the same row. */
  lemma {:induction false} SameWriting(g: Rules, start: Position, a: seq<PathNode>, ma: set<Mark>, i: nat,
                                       b: seq<PathNode>, mb: set<Mark>, j: nat, id: int, parent: Option<int>)
    requires TrueTree(g, start, a, ma) && TrueTree(g, start, b, mb) && SameFacts(a, ma, b, mb)
    requires i < |a| && j < |b| && PathOf(a, i) == PathOf(b, j)
    ensures RowFor(a[i], Bound(a, i), id, parent) == RowFor(b[j], Bound(b, j), id, parent)
  {
    hide Reads, Truthful, Bound, PathOf, StatusOf, SameFacts;
    SameNode(a, ma, i, b, mb, j);
    SameBound(a, ma, i, b, mb, j);
    if a[i].outcome.Some? {
      ExactIsLeaf(g, start, a, ma, i);
      ExactIsLeaf(g, start, b, mb, j);
    }
  }

  /** Without new shards no row changes. */
  lemma {:induction false} RowStays(g: Rules, start: Position, rows: seq<Row>, ss: seq<Shard>, w: Backing, st: Standing,
                                    src: seq<nat>, i: nat)
    requires rows != [] && Loaded(g, start, rows, ss, w, st, src) && i < |st.nodes|
    ensures i < |st.stored| == |src| && Shaped(st.nodes)
            && Refreshed(st.stored[i], st.nodes[i], Bound(st.nodes, i)) == st.stored[i]
    ensures src[i] < |rows| && st.stored[i] == rows[src[i]]
  {
    var x := Behind(g, start, rows, ss, w, st, src, i);
    StoreParts(g, start, rows, ss, w);
    FactsUnion(w.marks, w.marks);
    var r := rows[src[i]];
    assert w.depths[x] == Bound(w.nodes, x);
    hide LoadedAs, IsStore, Reads, Truthful, Bound, StatusOf, Facts;
    assert TrueTree(g, start, w.nodes, w.marks) && SameFacts(st.nodes, Facts(w.marks), w.nodes, w.marks);
    SameWriting(g, start, st.nodes, Facts(w.marks), i, w.nodes, w.marks, x, r.id, r.parent);
  }



  /** Everything the delta needs to know. */
  lemma {:induction false} ReadyToWrite(g: Rules, start: Position, rows: seq<Row>, ss: seq<Shard>, w: Backing,
          st: Standing, src: seq<nat>, ts: seq<Shard>, r: Merged, marks: set<Mark>)
    requires Loaded(g, start, rows, ss, w, st, src) && Finalised(g, start, rows, ss, w, st, ts, r.nodes, marks)
    requires Finished(r, marks)
    ensures LoadedRows(rows, st.ids, st.stored, src) && LinksMatch(rows, r.nodes, src) && Shaped(r.nodes)
    ensures Sorted(r.nodes, r.order) && |r.order| == |r.nodes| && forall j :: 0 <= j < |r.nodes| ==> j in r.order
    ensures ParentsFirst(rows) && |src| == |rows| == |st.stored| <= |r.nodes|
  {
    LinksKept(g, start, rows, ss, w, st, src, ts, r.nodes, marks);
    hide Loaded, LoadedAs, Finalised, IsStore, Reads, LinksMatch;
    FinalShaped(g, start, rows, ss, w, st, ts, r.nodes, marks);
    PreSorted(r.nodes, 0);
    OrderComplete(r.nodes, r.order);
    StoreFirst(g, start, rows, ss, w, st, src);
  }

  lemma {:induction false} StoreFirst(g: Rules, start: Position, rows: seq<Row>, ss: seq<Shard>, w: Backing,
          st: Standing, src: seq<nat>)
    requires Loaded(g, start, rows, ss, w, st, src)
    ensures ParentsFirst(rows)
  {
  }

  /** The written table is the store of all shards. */
  lemma {:induction false} WrittenStore(g: Rules, start: Position, rows: seq<Row>, ss: seq<Shard>, w: Backing,
          st: Standing, src: seq<nat>, ts: seq<Shard>, r: Merged, marks: set<Mark>, out: seq<Row>, src2: seq<nat>)
    requires Loaded(g, start, rows, ss, w, st, src) && Finalised(g, start, rows, ss, w, st, ts, r.nodes, marks)
    requires Finished(r, marks) && Committed(out, r.nodes, r.depths, src2) && ParentsFirst(out)
    ensures out != [] && IsStore(g, start, out, ss + ts, Backing(r.nodes, r.depths, src2, marks))
  {
    assert StoreOk(g, start, rows, ss, w);
    FactsGrow(g, start, rows, ss, w, ts);
    hide AllMarks, GoodShard, ShardShaped, Reads, Truthful, Bound, ParentsFirst, StoreOk, Loaded, LoadedAs;
  }

  /** Without new shards every refreshed row is the stored one. */
  ghost predicate AllStay(nodes: seq<PathNode>, depths: seq<nat>, stored: seq<Row>)
  {
    |stored| <= |nodes| == |depths|
    && forall i :: 0 <= i < |stored| ==> Refreshed(stored[i], nodes[i], depths[i]) == stored[i]
  }

  lemma {:induction false} RowsStay(g: Rules, start: Position, rows: seq<Row>, ss: seq<Shard>, w: Backing, st: Standing,
                                    src: seq<nat>, depths: seq<nat>)
    requires rows != [] && Loaded(g, start, rows, ss, w, st, src) && Shaped(st.nodes) && |depths| == |st.nodes|
    requires forall i :: 0 <= i < |st.nodes| ==> depths[i] == Bound(st.nodes, i)
    ensures AllStay(st.nodes, depths, st.stored) && |st.nodes| == |rows|
  {
    SourcesOnce(g, start, rows, ss, w, st, src);
    hide Loaded, LoadedAs, IsStore, Bound, Refreshed;
    forall i | 0 <= i < |st.stored|
      ensures Refreshed(st.stored[i], st.nodes[i], depths[i]) == st.stored[i]
    {
      RowStays(g, start, rows, ss, w, st, src, i);
    }
  }

  lemma {:induction false} NothingNew(g: Rules, start: Position, rows: seq<Row>, ss: seq<Shard>, w: Backing,
          st: Standing, src: seq<nat>, depths: seq<nat>, out: seq<Row>)
    requires rows != [] && Loaded(g, start, rows, ss, w, st, src) && |out| == |rows|
             && AllStay(st.nodes, depths, st.stored)
    requires |st.stored| == |src|
             && forall i :: 0 <= i < |src| ==>
                  src[i] < |rows| && out[src[i]] == Refreshed(st.stored[i], st.nodes[i], depths[i])
    ensures out == rows
  {
    SourcesOnce(g, start, rows, ss, w, st, src);
    hide Loaded, LoadedAs, IsStore, Refreshed;
    forall k | 0 <= k < |rows|
      ensures out[k] == rows[k]
    {
      Onto(src, |rows|, k);
      var i :| 0 <= i < |src| && src[i] == k;
      RowStays(g, start, rows, ss, w, st, src, i);
    }
  }

  lemma {:induction false} SourcesOnce(g: Rules, start: Position, rows: seq<Row>, ss: seq<Shard>, w: Backing,
          st: Standing, src: seq<nat>)
    requires rows != [] && Loaded(g, start, rows, ss, w, st, src)
    ensures Distinct(src) && |src| == |rows| == |st.nodes| == |st.stored|
  {
  }

  /** A graft's node is proven: the shard claims its own root. */
  lemma {:induction false} GraftProven(g: Rules, start: Position, nodes: seq<PathNode>, base: set<Mark>, ts: seq<Shard>,
          marks: set<Mark>, k: nat, i: nat)
    requires g.Sane() && AllGood(g, start, ts) && AllShaped(ts) && Shaped(nodes) && Reads(nodes, marks)
             && marks == base + AllMarks(ts)
    requires k < |ts| && i < |nodes| && PathOf(nodes, i) == ts[k].path
    ensures nodes[i].outcome.Some?
  {
    hide GoodShard, ShardShaped, Reads, AllMarks, ShardMarks;
    ShardParts(ts[k]);
    NodeForced(g, start, ts[k], 0);
    ShardAmong(ts, k);
    FactsUnion(base, AllMarks(ts));
    assert ShardAt(ts[k], 0) == ts[k].path;
    var j := NodeOfShard(nodes, marks, ts[k], 0);
    PathOnce(nodes, i, j);
  }

  /** Replay the skeleton of every graft. */
  method RevalidateAll(g: Rules, start: Position, ghost rank: Position -> nat, r: Merged, grafts: seq<nat>,
          ghost base: set<Mark>, ghost ts: seq<Shard>, ghost marks: set<Mark>)
    returns (revalidated: nat)
    requires g.Sane() && g.Injective() && g.Ranked(rank) && TrueTree(g, start, r.nodes, marks) && BoundsFit(r.nodes)
             && Finished(r, marks)
    requires AllGood(g, start, ts) && AllShaped(ts) && marks == base + AllMarks(ts) && GraftsAt(r.nodes, grafts, ts)
    ensures revalidated == |ts|
  {
    hide GoodShard, ShardShaped, Reads, AllMarks, ShardMarks, Truthful, Bound, BoundsFit, Rows, V.Clean, PathOf;
    revalidated := 0;
    for k := 0 to |grafts|
      invariant revalidated == k
    {
      var skeleton, defects := Revalidate(g, start, rank, r.nodes, r.depths, grafts[k], marks);
      GraftProven(g, start, r.nodes, base, ts, marks, k, grafts[k]);
      assert skeleton.Some? && defects == [];
      revalidated := revalidated + 1;
    }
  }
}
