/** Folding in instalments and folding at once: the same rows, path by path. */
module FoldConfluence {
  import opened Game
  import opened Paths
  import opened PathDepth
  import opened PathOrder
  import opened PathMerge
  import opened PathSame
  import opened PathTruth
  import opened PathShards
  import opened MergeResult
  import opened Fold
  import opened FoldLoad
  import opened FoldWrite
  import opened FoldRun
  import opened FoldStore
  import opened FoldOnce

  /** What a row says about its path; ids aside. */
  datatype Said = Said(path: Path, ply: int, mv: Option<Move>, code: Option<Move>, outcome: Option<Outcome>,
      bound: Option<int>,
                       status: Option<DepthStatus>, prov: set<Tag>)

  ghost function SaidBy(p: Path, r: Row): Said
  {
    Said(p, r.ply, r.mv, r.code, r.outcome, r.bound, r.status, r.prov)
  }

  ghost predicate Backs(rows: seq<Row>, w: Backing)
  {
    Shaped(w.nodes) && |w.src| == |w.nodes| == |rows| && forall i :: 0 <= i < |w.src| ==> w.src[i] < |rows|
  }

  /** The table, keyed by path. */
  ghost function Told(rows: seq<Row>, w: Backing): set<Said>
    requires Backs(rows, w)
  {
    set i | 0 <= i < |w.nodes| :: SaidBy(PathOf(w.nodes, i), rows[w.src[i]])
  }

  /** The tables agree path by path. */
  ghost predicate SameTable(a: seq<Row>, v: Backing, b: seq<Row>, w: Backing)
  {
    Backs(a, v) && Backs(b, w) && |a| == |b| && Told(a, v) == Told(b, w)
  }

  lemma {:induction false} StoreBacks(g: Rules, start: Position, rows: seq<Row>, ss: seq<Shard>, w: Backing)
    requires IsStore(g, start, rows, ss, w)
    ensures Backs(rows, w) && ById(rows)
  {
    StoreParts(g, start, rows, ss, w);
    forall i | 0 <= i < |w.src|
      ensures w.src[i] < |rows|
    {
      assert RowIs(rows, w.nodes, w.depths, w.src, i);
    }
  }

  lemma {:induction false} StoredRow(g: Rules, start: Position, rows: seq<Row>, ss: seq<Shard>, w: Backing, i: nat)
    requires IsStore(g, start, rows, ss, w) && Backs(rows, w) && i < |w.nodes|
    ensures var r := rows[w.src[i]]; r == RowFor(w.nodes[i], Bound(w.nodes, i), r.id, r.parent)
  {
    assert RowIs(rows, w.nodes, w.depths, w.src, i);
  }

  lemma {:induction false} SameMarks(ss: seq<Shard>, tt: seq<Shard>)
    requires AllShaped(ss) && AllShaped(tt) && AmongShards(ss, tt) && AmongShards(tt, ss)
    ensures AllMarks(ss) == AllMarks(tt)
  {
    hide AllMarks;
    MarksCarry(ss, tt);
    MarksCarry(tt, ss);
  }

  lemma {:induction false} SameStores(g: Rules, start: Position, a: seq<Row>, ss: seq<Shard>, v: Backing,
                                      b: seq<Row>, tt: seq<Shard>, w: Backing)
    requires IsStore(g, start, a, ss, v) && IsStore(g, start, b, tt, w) && AmongShards(ss, tt) && AmongShards(tt, ss)
    ensures SameFacts(v.nodes, v.marks, w.nodes, w.marks)
    ensures TrueTree(g, start, v.nodes, v.marks) && TrueTree(g, start, w.nodes, w.marks)
  {
    hide AllMarks, Truthful, Reads, Committed, ParentsFirst, Bound, AllGood;
    SameMarks(ss, tt);
  }

  lemma {:induction false} ToldBy(g: Rules, start: Position, a: seq<Row>, ss: seq<Shard>, v: Backing,
                                  b: seq<Row>, tt: seq<Shard>, w: Backing, i: nat)
    requires IsStore(g, start, a, ss, v) && IsStore(g, start, b, tt, w) && AmongShards(ss, tt) && AmongShards(tt, ss)
    requires Backs(a, v) && Backs(b, w) && i < |v.nodes|
    ensures SaidBy(PathOf(v.nodes, i), a[v.src[i]]) in Told(b, w)
  {
    SameStores(g, start, a, ss, v, b, tt, w);
    assert NodeReads(v.nodes, v.marks, i);
    var p := PathOf(v.nodes, i);
    FactsIn(v.marks, w.marks, Node(p));
    var j := ReadAt(w.nodes, w.marks, Node(p));
    StoredRow(g, start, a, ss, v, i);
    StoredRow(g, start, b, tt, w, j);
    hide IsStore, Reads, Truthful, Bound, Backs;
    var r := a[v.src[i]];
    SameWriting(g, start, v.nodes, v.marks, i, w.nodes, w.marks, j, r.id, r.parent);
    assert SaidBy(p, r) == SaidBy(PathOf(w.nodes, j), b[w.src[j]]);
  }

  lemma {:induction false} SameSize(a: seq<PathNode>, ma: set<Mark>, b: seq<PathNode>, mb: set<Mark>)
    requires SameFacts(a, ma, b, mb)
    ensures |a| == |b|
  {
    hide Pre, NodeReads, Locate, NodeShaped;
    PathOfRoot(a);
    PathOfRoot(b);
    SamePre(a, ma, 0, b, mb, 0);
    PreSorted(a, 0);
    PreSorted(b, 0);
    OrderComplete(a, Pre(a, 0));
    OrderComplete(b, Pre(b, 0));
    assert |PathsOf(a, Pre(a, 0))| == |PathsOf(b, Pre(b, 0))|;
  }

  /** Stores of the same shards agree, whatever the order and the instalments. */
  lemma {:induction false} StoresAgree(g: Rules, start: Position, a: seq<Row>, ss: seq<Shard>, v: Backing,
                                       b: seq<Row>, tt: seq<Shard>, w: Backing)
    requires IsStore(g, start, a, ss, v) && IsStore(g, start, b, tt, w) && AmongShards(ss, tt) && AmongShards(tt, ss)
    ensures SameTable(a, v, b, w)
  {
    StoreBacks(g, start, a, ss, v);
    StoreBacks(g, start, b, tt, w);
    SameStores(g, start, a, ss, v, b, tt, w);
    hide IsStore, Reads, Truthful, SameFacts;
    SameSize(v.nodes, v.marks, w.nodes, w.marks);
    forall i | 0 <= i < |v.nodes|
      ensures SaidBy(PathOf(v.nodes, i), a[v.src[i]]) in Told(b, w)
    {
      ToldBy(g, start, a, ss, v, b, tt, w, i);
    }
    forall i | 0 <= i < |w.nodes|
      ensures SaidBy(PathOf(w.nodes, i), b[w.src[i]]) in Told(a, v)
    {
      ToldBy(g, start, b, tt, w, a, ss, v, i);
    }
    assert Told(a, v) <= Told(b, w) && Told(b, w) <= Told(a, v);
  }

  // ----- instalments -----

  /** Shard files have distinct names. */
  ghost predicate TagsOnce(cs: seq<Candidate>)
  {
    forall x, y :: 0 <= x < y < |cs| ==> cs[x].shard.tag != cs[y].shard.tag
  }

  function ShardsOf(cs: seq<Candidate>): (r: seq<Shard>)
    ensures |r| == |cs|
  {
    seq(|cs|, k requires 0 <= k < |cs| => cs[k].shard)
  }

  lemma {:induction false} FreshShards(cs: seq<Candidate>, n: nat)
    requires n <= |cs|
    ensures NewShards(cs, map[], n) == ShardsOf(cs[..n])
  {
    if n > 0 {
      FreshShards(cs, n - 1);
      assert ShardsOf(cs[..n]) == ShardsOf(cs[..n - 1]) + [cs[n - 1].shard];
    }
  }

  lemma {:induction false} DigestsKnown(cs: seq<Candidate>, known: map<Tag, nat>, n: nat)
    requires n <= |cs| && TagsOnce(cs)
    ensures forall k :: 0 <= k < n ==> cs[k].shard.tag in DigestsAfter(cs, known, n)
    ensures forall k :: 0 <= k < n ==> DigestsAfter(cs, known, n)[cs[k].shard.tag] == cs[k].digest
    ensures forall t :: t in DigestsAfter(cs, known, n) ==> t in known || exists k :: 0 <= k < n && cs[k].shard.tag == t
  {
    if n > 0 {
      DigestsKnown(cs, known, n - 1);
      var before := DigestsAfter(cs, known, n - 1);
      forall t | t in before
        ensures t in known || exists k :: 0 <= k < n && cs[k].shard.tag == t
      {
        if t !in known {
          var k :| 0 <= k < n - 1 && cs[k].shard.tag == t;
        }
      }
      assert cs[n - 1].shard.tag == cs[n - 1].shard.tag;
    }
  }

  lemma {:induction false} NewTag(first: seq<Candidate>, more: seq<Candidate>, k: nat)
    requires TagsOnce(first + more) && k < |more|
    ensures more[k].shard.tag !in DigestsAfter(first, map[], |first|)
  {
    TagsSplit(first, more);
    DigestsKnown(first, map[], |first|);
    hide DigestsAfter;
    var all := first + more;
    assert all[|first| + k] == more[k];
    forall x | 0 <= x < |first|
      ensures first[x].shard.tag != more[k].shard.tag
    {
      assert all[x] == first[x];
    }
  }

  lemma {:induction false} OldTag(first: seq<Candidate>, k: nat)
    requires TagsOnce(first) && k < |first|
    ensures first[k].shard.tag in DigestsAfter(first, map[], |first|)
  {
    DigestsKnown(first, map[], |first|);
  }

  lemma {:induction false} ShardsSnoc(cs: seq<Candidate>, k: nat)
    requires k < |cs|
    ensures ShardsOf(cs[..k + 1]) == ShardsOf(cs[..k]) + [cs[k].shard]
  {
  }

  lemma {:induction false} NoneOld(first: seq<Candidate>, more: seq<Candidate>, n: nat)
    requires TagsOnce(first) && n <= |first|
    ensures NewShards(first + more, DigestsAfter(first, map[], |first|), n) == []
  {
    hide TagsOnce, DigestsAfter;
    if n > 0 {
      NoneOld(first, more, n - 1);
      OldTag(first, n - 1);
      assert (first + more)[n - 1] == first[n - 1];
    }
  }

  /** After `first`, only `more` is new. */
  lemma {:induction false} OnlyMore(first: seq<Candidate>, more: seq<Candidate>, k: nat)
    requires TagsOnce(first + more) && k <= |more|
    ensures NewShards(first + more, DigestsAfter(first, map[], |first|), |first| + k) == ShardsOf(more[..k])
  {
    hide TagsOnce, DigestsAfter, ShardsOf, NewShards;
    var all, known := first + more, DigestsAfter(first, map[], |first|);
    if k == 0 {
      TagsSplit(first, more);
      NoneOld(first, more, |first|);
      NoneTaken(more);
    } else {
      OnlyMore(first, more, k - 1);
      assert all[|first| + (k - 1)] == more[k - 1];
      NewTag(first, more, k - 1);
      ShardsSnoc(more, k - 1);
      NewStep(all, known, |first| + (k - 1));
    }
  }

  lemma {:induction false} NoneTaken(more: seq<Candidate>)
    ensures ShardsOf(more[..0]) == []
  {
  }

  lemma {:induction false} TagsSplit(first: seq<Candidate>, more: seq<Candidate>)
    requires TagsOnce(first + more)
    ensures TagsOnce(first)
  {
    var all := first + more;
    forall x, y | 0 <= x < y < |first|
      ensures first[x].shard.tag != first[y].shard.tag
    {
      assert all[x] == first[x] && all[y] == first[y];
    }
  }

  lemma {:induction false} DigestsHold(first: seq<Candidate>, more: seq<Candidate>)
    requires TagsOnce(first + more)
    ensures DigestsOk(first + more, DigestsAfter(first, map[], |first|)) && DigestsOk(first + more, map[])
  {
    var all, known := first + more, DigestsAfter(first, map[], |first|);
    TagsSplit(first, more);
    DigestsKnown(first, map[], |first|);
    forall k | 0 <= k < |all|
      ensures DigestOk(all[k], known)
    {
      if all[k].shard.tag in known {
        var x :| 0 <= x < |first| && first[x].shard.tag == all[k].shard.tag;
        assert all[x] == first[x];
      }
    }
  }

  /** Fold `first`, then everything; and everything at once.  The second instalment is refused
      exactly when one of `more` proves a row that `first` left open; otherwise both tables agree. */
  method FoldBothWays(g: Rules, start: Position, ghost rank: Position -> nat, first: seq<Candidate>,
          more: seq<Candidate>)
    returns (a: Option<Folded>, b: Option<Folded>, c: Option<Folded>, ghost u: Backing, ghost v: Backing,
        ghost w: Backing)
    requires g.Sane() && g.Injective() && g.Ranked(rank) && AllCandidates(g, start, first + more)
             && TagsOnce(first + more)
    ensures a.Some? && c.Some?
    ensures b.Some? <==> !NewlyProven(a.value.rows, u, ShardsOf(more))
    ensures b.Some? ==> Appended(a.value.rows, b.value) && SameTable(b.value.rows, v, c.value.rows, w)
  {
    hide IsStore, NewlyProven, AllCandidates, NewShards, DigestsAfter;
    var all := first + more;
    CandidatesSplit(g, start, first, more);
    ghost var none := Backing([], [], [], {});
    NeverProven(none, NewShards(first, map[], |first|));
    NeverProven(none, NewShards(all, map[], |all|));
    a, u := FoldShards(g, start, rank, [], map[], first, [], none);
    FreshShards(first, |first|);
    assert [] + ShardsOf(first) == ShardsOf(first) && [] + ShardsOf(all) == ShardsOf(all);
    assert first[..|first|] == first && all[..|all|] == all && more[..|more|] == more;
    TagsSplit(first, more);
    DigestsHold(first, more);
    c, w := FoldShards(g, start, rank, [], map[], all, [], none);
    FreshShards(all, |all|);
    OnlyMore(first, more, |more|);
    b, v := FoldShards(g, start, rank, a.value.rows, a.value.digests, all, ShardsOf(first), u);
    if b.Some? {
      Reordered(first, more);
      StoresAgree(g, start, b.value.rows, ShardsOf(first) + ShardsOf(more), v, c.value.rows, ShardsOf(all), w);
    }
  }

  lemma {:induction false} NeverProven(w: Backing, ts: seq<Shard>)
    ensures !NewlyProven([], w, ts)
  {
  }

  lemma {:induction false} CandidatesSplit(g: Rules, start: Position, first: seq<Candidate>, more: seq<Candidate>)
    requires AllCandidates(g, start, first + more)
    ensures AllCandidates(g, start, first)
  {
    hide GoodShard;
    var all := first + more;
    forall k | 0 <= k < |first|
      ensures GoodShard(g, start, first[k].shard)
    {
      assert all[k] == first[k];
    }
  }

  lemma {:induction false} Reordered(first: seq<Candidate>, more: seq<Candidate>)
    ensures ShardsOf(first) + ShardsOf(more) == ShardsOf(first + more)
    ensures AmongShards(ShardsOf(first + more), ShardsOf(first + more))
  {
  }
}
