/** From shard files to a verified store: load what is new, fold it, verify the table. */
module ShardFold {
  import opened Game
  import opened Tree
  import opened RebuildResult
  import opened Paths
  import opened PathMerge
  import opened PathShards
  import opened Fold
  import opened FoldRun
  import opened FoldStore
  import opened FoldOnce
  import opened FoldAccept
  import opened ShardLoad
  import FT = FoldTrust
  import Verdicts = FoldVerdict

  /** A shard file on disk and its metadata. */
  datatype Bin = Bin(meta: ShardMeta, file: ShardFile)

  ghost predicate AllParsed(bins: seq<Bin>)
  {
    forall k :: 0 <= k < |bins| && bins[k].file.tree.Some? ==> WellParsed(bins[k].file.tree.value)
  }

  /** A known tag needs its old bytes, a new one every check. */
  ghost predicate BinOk(g: Rules, start: Position, known: map<Tag, nat>, b: Bin)
    requires b.file.tree.Some? ==> WellParsed(b.file.tree.value)
  {
    if b.meta.tag in known then known[b.meta.tag] == b.file.digest else Loads(g, start, b.meta, b.file)
  }

  ghost predicate BinsOk(g: Rules, start: Position, known: map<Tag, nat>, bins: seq<Bin>)
    requires AllParsed(bins)
  {
    forall k :: 0 <= k < |bins| ==> BinOk(g, start, known, bins[k])
  }

  /** The shards that a fold of `bins` adds. */
  ghost function NewOf(known: map<Tag, nat>, bins: seq<Bin>, n: nat): seq<Shard>
    requires n <= |bins|
  {
    if n == 0 then []
    else
      var b := bins[n - 1];
      NewOf(known, bins, n - 1)
      + if b.meta.tag in known || b.file.tree.None? then []
        else [Shard(b.meta.moves, b.file.tree.value.nodes, b.meta.tag)]
  }

  /** The positions of the new shards are open. */
  ghost predicate NewOpen(g: Rules, start: Position, known: map<Tag, nat>, bins: seq<Bin>)
    requires AllParsed(bins)
  {
    forall k :: 0 <= k < |bins| && bins[k].meta.tag !in known && bins[k].file.tree.Some? ==>
      BinOpen(g, start, bins[k].meta, bins[k].file.tree.value)
  }

  ghost predicate BinOpen(g: Rules, start: Position, m: ShardMeta, t: ParsedTree)
    requires WellParsed(t)
  {
    Linked(t.nodes) && OpenAlong(g, start, Shard(m.moves, t.nodes, m.tag))
  }

  ghost predicate Unknown(known: map<Tag, nat>, cs: seq<Candidate>)
  {
    forall k :: 0 <= k < |cs| ==> cs[k].shard.tag !in known
  }

  /** All the candidates are new. */
  lemma {:induction false} UnknownNew(known: map<Tag, nat>, cs: seq<Candidate>, n: nat)
    requires Unknown(known, cs) && n <= |cs|
    ensures NewShards(cs, known, n) == Shards(cs, n)
    ensures DigestsOk(cs, known)
  {
    if n > 0 {
      UnknownNew(known, cs, n - 1);
    }
  }

  ghost function Shards(cs: seq<Candidate>, n: nat): seq<Shard>
    requires n <= |cs|
  {
    if n == 0 then [] else Shards(cs, n - 1) + [cs[n - 1].shard]
  }

  lemma {:induction false} ShardsMore(cs: seq<Candidate>, c: Candidate, n: nat)
    requires n <= |cs|
    ensures Shards(cs + [c], n) == Shards(cs, n)
  {
    if n > 0 {
      ShardsMore(cs, c, n - 1);
    }
  }

  /** Load every shard whose tag is new; compare the digests of the others. */
  method LoadAll(g: Rules, start: Position, known: map<Tag, nat>, bins: seq<Bin>) returns (r: Option<seq<Candidate>>)
    requires g.Sane() && g.Injective() && ShortMoves(g) && AllParsed(bins) && NewOpen(g, start, known, bins)
    ensures r.Some? <==> BinsOk(g, start, known, bins)
    ensures r.Some? ==> Unknown(known, r.value) && AllCandidates(g, start, r.value)
    ensures r.Some? ==> Shards(r.value, |r.value|) == NewOf(known, bins, |bins|)
  {
    hide Loads, WellParsed, GoodShard, OpenAlong;
    var cs: seq<Candidate> := [];
    for i := 0 to |bins|
      invariant forall k :: 0 <= k < i ==> BinOk(g, start, known, bins[k])
      invariant Unknown(known, cs) && AllCandidates(g, start, cs) && Shards(cs, |cs|) == NewOf(known, bins, i)
    {
      var b := bins[i];
      if b.meta.tag in known {
        if known[b.meta.tag] != b.file.digest {
          assert !BinOk(g, start, known, b);
          return None;
        }
      } else {
        var c := LoadShard(g, start, b.meta, b.file);
        if c.None? {
          assert !BinOk(g, start, known, b);
          return None;
        }
        LoadedSome(g, start, b);
        assert BinOpen(g, start, b.meta, b.file.tree.value);
        LoadedGood(g, start, b.meta, b.file);
        ShardsMore(cs, c.value, |cs|);
        cs := cs + [c.value];
      }
    }
    r := Some(cs);
  }

  lemma {:induction false} LoadedSome(g: Rules, start: Position, b: Bin)
    requires (b.file.tree.Some? ==> WellParsed(b.file.tree.value)) && Loads(g, start, b.meta, b.file)
    ensures b.file.tree.Some?
  {
  }

  /** Load, fold, verify: refused exactly when a known tag has other bytes, a new shard fails a check, or a
      new shard proves a stored open row; otherwise the verdict counts the table and all its claims are
      true. */
  method LoadFoldVerify(g: Rules, start: Position, ghost rank: Position -> nat, rows: seq<Row>, known: map<Tag, nat>,
          bins: seq<Bin>, ghost ss: seq<Shard>, ghost w: Backing)
    returns (r: Option<Folded>, verdict: Option<Verdicts.Verdict>, ghost w2: Backing)
    requires g.Sane() && g.Injective() && ShortMoves(g) && g.Ranked(rank) && StoreOk(g, start, rows, ss, w)
    requires AllParsed(bins) && NewOpen(g, start, known, bins)
    ensures r.Some? <==> BinsOk(g, start, known, bins) && !NewlyProven(rows, w, NewOf(known, bins, |bins|))
    ensures r.Some? ==> verdict.Some? && Verdicts.CountsAre(verdict.value, r.value.rows)
    ensures r.Some? ==>
              Whole(r.value.rows, w2.nodes, w2.src) && FT.AllTrue(g, r.value.rows, PlaceOf(g, start, r.value.rows, w2))
  {
    hide NewlyProven, StoreOk, AllCandidates, Whole, FT.AllTrue, PlaceOf, BinsOk, NewOpen, DigestsOk;
    r, verdict, w2 := None, None, w;
    var cs := LoadAll(g, start, known, bins);
    if cs.Some? {
      UnknownNew(known, cs.value, |cs.value|);
      r, verdict, w2 := FoldAndVerify(g, start, rank, rows, known, cs.value, ss, w);
    }
  }
}
