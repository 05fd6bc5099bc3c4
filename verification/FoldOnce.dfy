/** One fold invocation over a store. */
module FoldOnce {
  import opened Game
  import opened Tree
  import opened Paths
  import opened PathDepth
  import opened PathOrder
  import opened PathMerge
  import opened PathSame
  import opened PathTruth
  import opened PathShards
  import opened PathSkeleton
  import opened MergeResult
  import opened Fold
  import opened FoldLoad
  import opened FoldWrite
  import opened FoldRun
  import opened FoldStore

  datatype Folded = Folded(rows: seq<Row>, digests: map<Tag, nat>, updated: nat, inserted: nat)

  /** Every candidate that is already folded still has the bytes it was folded with. */
  predicate DigestsOk(cs: seq<Candidate>, known: map<Tag, nat>)
  {
    forall k :: 0 <= k < |cs| ==> DigestOk(cs[k], known)
  }

  /** Nothing is folded twice. */
  ghost predicate Unchanged(rows: seq<Row>, f: Folded)
  {
    f.rows == rows && f.updated == 0 && f.inserted == 0
  }

  /** The old rows stay: same ids, same links, new rows after them. */
  ghost predicate Appended(rows: seq<Row>, f: Folded)
  {
    |f.rows| == |rows| + f.inserted && forall k :: 0 <= k < |rows| ==> SameLink(rows[k], f.rows[k])
  }

  method LoadTree(g: Rules, start: Position, rows: seq<Row>, ghost ss: seq<Shard>, ghost w: Backing)
    returns (st: Standing, t: PathTree, ghost src: seq<nat>)
    requires StoreOk(g, start, rows, ss, w)
    ensures Loaded(g, start, rows, ss, w, st, src)
    ensures fresh(t) && t.Valid() && t.nodes == st.nodes && t.marks == BaseMarks(rows, w)
  {
    ghost var want := None;
    if rows != [] {
      StoreParts(g, start, rows, ss, w);
      want := Some(Want(w.nodes, w.src));
    }
    StoreOrdered(g, start, rows, ss, w);
    hide StoreOk, Wanted, LoadedAs;
    var r;
    r, src := LoadStandingTree(g, start, rows, want);
    st := r.value;
    LoadedIs(g, start, rows, ss, w, st, src);
    t := new PathTree.Loaded(st.nodes, BaseMarks(rows, w));
  }

  lemma {:induction false} StoreOrdered(g: Rules, start: Position, rows: seq<Row>, ss: seq<Shard>, w: Backing)
    requires StoreOk(g, start, rows, ss, w)
    ensures ById(rows)
  {
    if rows != [] {
      StoreParts(g, start, rows, ss, w);
    }
  }

  /** Fold every new shard into the store.  The fold is refused exactly when a known tag has other
      bytes or a new shard proves a stored open row; otherwise the table is the finalised tree of
      all shards so far, no row changes its id, parents precede children, and without new shards
      nothing changes. */
  method FoldShards(g: Rules, start: Position, ghost rank: Position -> nat, rows: seq<Row>, known: map<Tag, nat>,
          cs: seq<Candidate>, ghost ss: seq<Shard>, ghost w: Backing)
    returns (r: Option<Folded>, ghost w2: Backing)
    requires g.Sane() && g.Injective() && g.Ranked(rank) && StoreOk(g, start, rows, ss, w)
             && AllCandidates(g, start, cs)
    ensures r.Some? <==> DigestsOk(cs, known) && !NewlyProven(rows, w, NewShards(cs, known, |cs|))
    ensures r.Some? ==> r.value.rows != [] && IsStore(g, start, r.value.rows, ss + NewShards(cs, known, |cs|), w2)
    ensures r.Some? ==> Appended(rows, r.value) && r.value.digests == DigestsAfter(cs, known, |cs|)
    ensures r.Some? && rows != [] && NewShards(cs, known, |cs|) == [] ==> Unchanged(rows, r.value)
  {
    hide Loaded, Finalised, IsStore, StoreOk, AllMarks, BaseMarks, NewlyProven, Reads, Truthful, Bound, Rows, Refused,
      Refreshed,
      AllShaped, GoodShard, AllCandidates, NewShards, BoundsFit, ChecksPass, NoDraws, LinksMatch, LoadedRows, Committed,
      Sorted;
    w2 := w;
    var st, t;
    ghost var src;
    st, t, src := LoadTree(g, start, rows, ss, w);
    ghost var base := BaseMarks(rows, w);
    BaseTrue(g, start, rows, ss, w, st, src);
    var ok, grafts, digests := GraftNew(g, start, t, cs, known, base);
    if !ok {
      return None, w2;
    }
    ghost var ts := NewShards(cs, known, |cs|);
    ghost var marks := t.marks;
    NewGood(g, start, cs, known, |cs|);
    NowFinalised(g, start, rows, ss, w, st, src, ts, t.nodes, marks);
    FinalTrue(g, start, rows, ss, w, st, ts, t.nodes, marks);
    TruthPasses(g, start, t.nodes, marks);
    FactsGrow(g, start, rows, ss, w, ts);
    BoundsAreSmall(g, start, ss + ts, t.nodes, marks);
    var m := Finalize(t);
    var merged := m.value;
    var revalidated := RevalidateAll(g, start, rank, merged, grafts, base, ts, marks);
    ReadyToWrite(g, start, rows, ss, w, st, src, ts, merged, marks);
    RefusedSomewhere(g, start, rows, ss, w, st, src, ts, merged.nodes, merged.depths, marks);
    if rows != [] && ts == [] {
      RowsStay(g, start, rows, ss, w, st, src, merged.depths);
    }
    var out, updated, inserted;
    ghost var src2;
    out, updated, inserted, src2 :=
      WriteFoldDelta(rows, st.ids, st.stored, merged.nodes, merged.depths, merged.order, src);
    if out.None? {
      return None, w2;
    }
    WrittenStore(g, start, rows, ss, w, st, src, ts, merged, marks, out.value, src2);
    if rows != [] && ts == [] {
      NothingNew(g, start, rows, ss, w, st, src, merged.depths, out.value);
    }
    w2 := Backing(merged.nodes, merged.depths, src2, marks);
    r := Some(Folded(out.value, digests, updated, inserted));
  }

  lemma {:induction false} BaseTrue(g: Rules, start: Position, rows: seq<Row>, ss: seq<Shard>, w: Backing, st: Standing,
          src: seq<nat>)
    requires Loaded(g, start, rows, ss, w, st, src)
    ensures Node([]) in BaseMarks(rows, w) && Truthful(g, start, BaseMarks(rows, w)) && StoreOk(g, start, rows, ss, w)
  {
    assert StoreOk(g, start, rows, ss, w);
    hide StoreOk, BaseMarks;
    BaseFacts(g, start, rows, ss, w);
  }

  lemma {:induction false} FinalTrue(g: Rules, start: Position, rows: seq<Row>, ss: seq<Shard>, w: Backing,
          st: Standing, ts: seq<Shard>, nodes: seq<PathNode>, marks: set<Mark>)
    requires Finalised(g, start, rows, ss, w, st, ts, nodes, marks)
    ensures TrueTree(g, start, nodes, marks)
  {
  }
}
