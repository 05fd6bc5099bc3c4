/** The strict reader of proof-tree dumps. */
module ProofReader {
  import opened Game
  import opened Lists
  import opened Tree
  import opened Bytes
  import Snapshot
  import opened SnapshotReader
  import opened RebuildResult
  import Validate
  import opened ValidateSound
  import C = ProofCodec

  // ----- the header -----

  lemma {:induction false} HeadNext(data: seq<Byte>, h: C.Head)
    requires |C.HeadBytes(h)| <= |data| && data[..|C.HeadBytes(h)|] == C.HeadBytes(h)
    ensures data[..8] == C.MAGIC && data[8] == C.VERSION && data[9..10 + |h.fen|] == h.fen + [NEWLINE]
    ensures data[10 + |h.fen|..11 + |h.fen|] == [Snapshot.OutcomeByte(h.outcome)]
    ensures data[11 + |h.fen|..15 + |h.fen|] == Le32(h.depth)
  {
    hide Le32, Snapshot.OutcomeByte;
    var end := 15 + |h.fen|;
    assert data[0..end] == C.Opening() + (h.fen + [NEWLINE]) + C.RootBytes(h);
    NextParts(data, 0, C.Opening() + (h.fen + [NEWLINE]), C.RootBytes(h));
    NextParts(data, 10 + |h.fen|, [Snapshot.OutcomeByte(h.outcome)], Le32(h.depth));
    NextParts(data, 0, C.Opening(), h.fen + [NEWLINE]);
    assert data[..9] == C.MAGIC + [C.VERSION];
    assert data[..9][..8] == data[..8] && data[..9][8] == data[8];
  }

  lemma {:induction false} HeadRead(data: seq<Byte>, h: C.Head)
    requires |data| >= 15 + |h.fen| && data[..8] == C.MAGIC && data[8] == C.VERSION
             && data[9..10 + |h.fen|] == h.fen + [NEWLINE]
    requires data[10 + |h.fen|..11 + |h.fen|] == [Snapshot.OutcomeByte(h.outcome)]
    requires data[11 + |h.fen|..15 + |h.fen|] == Le32(h.depth)
    ensures data[..|C.HeadBytes(h)|] == C.HeadBytes(h)
  {
    hide Le32, Snapshot.OutcomeByte;
    assert data[0..9] == C.Opening();
    ReadOn(data, 0, 9, 10 + |h.fen|, C.Opening(), h.fen + [NEWLINE]);
    ReadOn(data, 10 + |h.fen|, 11 + |h.fen|, 15 + |h.fen|, [Snapshot.OutcomeByte(h.outcome)], Le32(h.depth));
    ReadOn(data, 0, 10 + |h.fen|, 15 + |h.fen|, C.Opening() + (h.fen + [NEWLINE]), C.RootBytes(h));
  }

  /** Magic, version, FEN line, root outcome and root depth. */
  method ReadHead(src: Source, ghost want: Option<C.Head>) returns (r: Option<C.Head>)
    requires src.Valid() && src.at == 0
    requires want.Some? ==> Next(src, C.HeadBytes(want.value)) && NEWLINE !in want.value.fen
    modifies src
    ensures src.Valid()
    ensures r.Some? ==>
              && src.at == |C.HeadBytes(r.value)| && src.data[..src.at] == C.HeadBytes(r.value)
              && NEWLINE !in r.value.fen
    ensures want.Some? ==> r == want
  {
    hide C.HeadBytes, Le32, Snapshot.OutcomeByte;
    if want.Some? {
      HeadNext(src.data, want.value);
    }
    var magic := src.Take(8);
    if magic.None? || magic.value != C.MAGIC { return None; }
    var version := src.Take(1);
    if version.None? || version.value[0] != C.VERSION { return None; }
    if want.Some? {
      assert src.data[9 + |want.value.fen|] == src.data[9..10 + |want.value.fen|][|want.value.fen|];
      assert src.data[9..][|want.value.fen|] == NEWLINE;
    }
    var line := src.TakeLine();
    if line.None? { return None; }
    if want.Some? {
      FirstLine(src.data, 9, want.value.fen, line.value);
    }
    var outcome := ReadOutcome(src, if want.Some? then Some(want.value.outcome) else None);
    if outcome.None? { return None; }
    var depth := Read32(src, if want.Some? then Some(want.value.depth) else None);
    if depth.None? { return None; }
    r := Some(C.Head(line.value, outcome.value, depth.value));
    HeadRead(src.data, r.value);
  }

  // ----- the records -----

  lemma {:induction false} RecPiece(rs: seq<C.Rec>, n: nat, i: nat)
    requires i < n <= |rs|
    ensures C.AllRecs(rs, n)[i * C.RECORD..i * C.RECORD + 4] == Le32(rs[i].parent)
    ensures C.AllRecs(rs, n)[i * C.RECORD + 4..i * C.RECORD + 6] == Le16(rs[i].code)
    decreases n
  {
    hide Le32, Le16;
    var all, front := C.AllRecs(rs, n), C.AllRecs(rs, n - 1);
    if i < n - 1 {
      RecPiece(rs, n - 1, i);
      assert all[i * C.RECORD..i * C.RECORD + 4] == front[i * C.RECORD..i * C.RECORD + 4];
      assert all[i * C.RECORD + 4..i * C.RECORD + 6] == front[i * C.RECORD + 4..i * C.RECORD + 6];
    }
  }

  lemma {:induction false} RecMore(rs: seq<C.Rec>, r: C.Rec)
    ensures C.AllRecs(rs + [r], |rs| + 1) == C.AllRecs(rs, |rs|) + C.RecBytes(r)
  {
    hide C.RecBytes;
    C.RecsPrefix(rs, rs + [r], |rs|);
  }

  predicate Admissible(codes: nat -> bool, r: C.Rec, i: nat)
  {
    (if i == 0 then r == C.Rec(C.ROOT_PARENT, NO_MOVE) else r.parent < i) && codes(r.code)
  }

  /** Parse the payload; any inadmissible record refuses it. */
  method ReadRecs(payload: seq<Byte>, codes: nat -> bool, ghost want: Option<seq<C.Rec>>)
    returns (r: Option<seq<C.Rec>>)
    requires want.Some? ==> C.RecsOk(codes, want.value) && payload == C.AllRecs(want.value, |want.value|)
    ensures r.Some? ==> C.RecsOk(codes, r.value) && payload == C.AllRecs(r.value, |r.value|)
    ensures want.Some? ==> r == want
  {
    hide C.RecBytes, C.AllRecs, Le32, Le16;
    if |payload| % C.RECORD != 0 { return None; }
    var count := |payload| / C.RECORD;
    if count == 0 || count > U32_MAX { return None; }
    var rs: seq<C.Rec> := [];
    NoRecs();
    for i := 0 to count
      invariant |rs| == i && payload[..i * C.RECORD] == C.AllRecs(rs, i)
      invariant forall k :: 0 <= k < i ==> Admissible(codes, rs[k], k)
      invariant want.Some? ==> rs == want.value[..i]
    {
      var off := i * C.RECORD;
      var rec := C.Rec(Un32(payload[off..off + 4]), Un16(payload[off + 4..off + 6]));
      if want.Some? {
        RecPiece(want.value, count, i);
        Le32Injective(rec.parent, want.value[i].parent);
        Le16Injective(rec.code, want.value[i].code);
      }
      if i == 0 && (rec.parent != C.ROOT_PARENT || rec.code != 0) { return None; }
      if i != 0 && rec.parent >= i { return None; }
      if !codes(rec.code) { return None; }
      RecMore(rs, rec);
      OneRec(payload, off, rec);
      ReadOn(payload, 0, off, off + C.RECORD, C.AllRecs(rs, i), C.RecBytes(rec));
      rs := rs + [rec];
    }
    assert payload[..count * C.RECORD] == payload;
    assert want.Some? ==> want.value[..count] == want.value;
    r := Some(rs);
  }

  lemma {:induction false} OneRec(payload: seq<Byte>, off: nat, rec: C.Rec)
    requires off + C.RECORD <= |payload| && payload[off..off + 4] == Le32(rec.parent)
             && payload[off + 4..off + 6] == Le16(rec.code)
    ensures payload[off..off + C.RECORD] == C.RecBytes(rec)
  {
    hide Le32, Le16;
  }

  lemma {:induction false} NoRecs()
    ensures C.AllRecs([], 0) == []
  {
  }

  // ----- rebuilding the tree -----

  /** Fill the arena and link every node in front of its parent's children. */
  method LinkNodes(rs: seq<C.Rec>) returns (nodes: array<ProofNode>)
    requires 0 < |rs| <= U32_MAX && C.Backward(rs, |rs|)
    ensures fresh(nodes) && nodes[..] == C.Added(rs, |rs|)
  {
    nodes := new ProofNode[|rs|](i requires 0 <= i < |rs| => C.BareNode(rs, i));
    assert nodes[..1] == C.Added(rs, 1);
    for i := 1 to |rs|
      invariant nodes[..i] == C.Added(rs, i)
      invariant forall k :: i <= k < |rs| ==> nodes[k] == C.BareNode(rs, k)
    {
      var p := rs[i].parent;
      nodes[i] := nodes[i].(nextSibling := nodes[p].firstChild);
      nodes[p] := nodes[p].(firstChild := Some(i));
    }
    assert nodes[..|rs|] == nodes[..];
  }

  /** The distance from the root. */
  ghost function Level(rs: seq<C.Rec>, i: nat): (d: nat)
    requires i < |rs| && C.Backward(rs, |rs|)
    ensures d <= i
    decreases i
  {
    if i == 0 then 0 else Level(rs, rs[i].parent) + 1
  }

  lemma {:induction false} OutcomeByParity(rs: seq<C.Rec>, o: Outcome, i: nat)
    requires i < |rs| && C.Backward(rs, |rs|)
    ensures C.OutcomeAt(rs, o, i) == if o == Draw then Draw else if Level(rs, i) % 2 == 0 then o else o.Flip()
    decreases i
  {
    if i > 0 {
      OutcomeByParity(rs, o, rs[i].parent);
    }
  }

  method FindLevels(rs: seq<C.Rec>) returns (levels: seq<U32>)
    requires 0 < |rs| <= U32_MAX && C.Backward(rs, |rs|)
    ensures |levels| == |rs| && forall k :: 0 <= k < |rs| ==> levels[k] == Level(rs, k)
  {
    var found := new U32[|rs|](i => 0);
    for i := 1 to |rs|
      invariant forall k :: 0 <= k < i ==> found[k] == Level(rs, k)
    {
      found[i] := found[rs[i].parent] + 1;
    }
    levels := found[..];
  }

  /** Outcomes from the root's outcome and the parity of the level. */
  method DeriveOutcomes(rs: seq<C.Rec>, o: Outcome, nodes: array<ProofNode>)
    requires 0 < |rs| <= U32_MAX && C.Backward(rs, |rs|) && nodes[..] == C.Added(rs, |rs|)
    modifies nodes
    ensures nodes[..] == C.WithOutcomes(rs, o)
  {
    ghost var added := nodes[..];
    hide Level, Linked, SameLinks, NodeLinked;
    var levels := FindLevels(rs);
    for i := 0 to |rs|
      invariant forall k :: 0 <= k < i ==> nodes[k] == added[k].(outcome := Some(C.OutcomeAt(rs, o, k)))
      invariant forall k :: i <= k < |rs| ==> nodes[k] == added[k]
    {
      OutcomeByParity(rs, o, i);
      nodes[i] := nodes[i].(outcome := Some(if o == Draw then Draw else if levels[i] % 2 == 0 then o else o.Flip()));
    }
    assert nodes[..] == C.WithOutcomes(rs, o);
  }

  /** A node's depth from its children's; the addition cannot overflow below the id limit. */
  function DepthFrom(o: Option<Outcome>, ds: seq<U32>): int
  {
    match o
    case Some(Win) => 1 + if ds == [] then 0 else MinOf(ds)
    case Some(Loss) => 1 + if ds == [] then 0 else MaxOf(ds)
    case _ => 0
  }

  lemma {:induction false} NothingSaturates(o: Option<Outcome>, ds: seq<U32>)
    requires forall k :: 0 <= k < |ds| ==> ds[k] < U32_MAX
    ensures ProvenDepth(o, ds) == DepthFrom(o, ds)
  {
    if ds != [] {
      assert MinOf(ds) < U32_MAX && MaxOf(ds) < U32_MAX;
    }
  }

  /** Node `i` is reached when everything above it in id order has its depth. */
  lemma {:induction false} DepthStep(bare: seq<ProofNode>, r: seq<ProofNode>, i: nat)
    requires Linked(bare) && SameLinks(bare, r) && Linked(r) && i < |bare| <= U32_MAX && r[i] == bare[i]
    requires Children(r, i) == Children(bare, i)
    requires forall j :: i < j < |bare| ==> r[j] == bare[j].(depth := Validate.Expected(bare, j))
    ensures (r[i].firstChild.None? ==> Validate.Expected(bare, i) == 0)
    ensures (r[i].firstChild.Some? ==>
              Validate.Expected(bare, i) == DepthFrom(r[i].outcome, DepthsAt(r, Children(r, i))))
  {
    hide MinOf, MaxOf, ProvenDepth, DepthFrom, Linked;
    var kids := Children(bare, i);
    HeadOfChain(bare, i);
    hide Children;
    var ds := seq(|kids|, k requires 0 <= k < |kids| => Validate.Expected(bare, kids[k]));
    assert DepthsAt(r, kids) == ds;
    forall k | 0 <= k < |kids|
      ensures ds[k] < U32_MAX
    {
      ExpectedSmall(bare, kids[k]);
    }
    NothingSaturates(r[i].outcome, ds);
  }

  lemma {:induction false} HeadOfChain(nodes: seq<ProofNode>, i: nat)
    requires Linked(nodes) && i < |nodes|
    ensures Children(nodes, i) == [] <==> nodes[i].firstChild.None?
  {
    assert NodeLinked(nodes, i);
  }

  /** Depths in reverse record order: children come before their parents. */
  method DeriveDepths(nodes: array<ProofNode>)
    requires Linked(nodes[..]) && nodes.Length <= U32_MAX && forall i :: 0 <= i < nodes.Length ==> nodes[i].depth == 0
    modifies nodes
    ensures nodes[..] == WithDepths(old(nodes[..]))
  {
    hide Validate.Expected, Children, DepthFrom, DepthsAt, NodeLinked;
    ghost var bare := nodes[..];
    for i := nodes.Length downto 0
      invariant forall k :: 0 <= k < i ==> nodes[k] == bare[k]
      invariant forall k :: i <= k < nodes.Length ==> nodes[k] == bare[k].(depth := Validate.Expected(bare, k))
    {
      SameLinksKids(bare, nodes[..]);
      DepthStep(bare, nodes[..], i);
      if nodes[i].firstChild.None? {
        nodes[i] := nodes[i].(depth := 0);
      } else {
        var kids := ListChildren(nodes[..], i);
        nodes[i] := nodes[i].(depth := DepthFrom(nodes[i].outcome, DepthsAt(nodes[..], kids)));
      }
    }
  }

  method BuildTree(rs: seq<C.Rec>, o: Outcome) returns (nodes: seq<ProofNode>)
    requires 0 < |rs| <= U32_MAX && C.Backward(rs, |rs|)
    ensures nodes == C.Decoded(rs, o)
  {
    var arena := LinkNodes(rs);
    DeriveOutcomes(rs, o, arena);
    C.AddedFields(rs, |rs|);
    DeriveDepths(arena);
    nodes := arena[..];
  }

  /** `data` is the written form of the well-formed dump `f`. */
  ghost predicate Lays(codes: nat -> bool, f: C.TreeFile, data: seq<Byte>)
  {
    C.FileOk(codes, f) && data == C.TreeLayout(f)
  }

  /** Header, records, derived tree, root check; `want` is the file the bytes lay out, if there
      is one. */
  method ReadWhole(data: seq<Byte>, codes: nat -> bool, ghost want: Option<C.TreeFile>)
    returns (r: Option<C.ProofTree>, ghost f: Option<C.TreeFile>)
    requires want.Some? ==> Lays(codes, want.value, data)
    ensures r.Some? <==> f.Some?
    ensures r.Some? ==>
              && Lays(codes, f.value, data)
              && r.value == C.ProofTree(C.Latin(f.value.head.fen), C.Decoded(f.value.recs, f.value.head.outcome))
    ensures want.Some? ==> f == want
  {
    hide C.HeadBytes, C.AllRecs, C.RecsOk, C.Decoded;
    f := None;
    var src := new Source(data);
    if want.Some? {
      LayoutNext(data, want.value);
    }
    var head := ReadHead(src, if want.Some? then Some(want.value.head) else None);
    if head.None? { return None, None; }
    ghost var at := src.at;
    var payload := src.TakeRest();
    var recs := ReadRecs(payload, codes, if want.Some? then Some(want.value.recs) else None);
    if recs.None? { return None, None; }
    OkBackward(codes, recs.value);
    var nodes := BuildTree(recs.value, head.value.outcome);
    if nodes[0].depth != head.value.depth { return None, None; }
    f := Some(C.TreeFile(head.value, recs.value));
    assert data == data[..at] + data[at..];
    r := Some(C.ProofTree(C.Latin(head.value.fen), nodes));
  }

  /** Read a dump: exactly the layouts of well-formed files are accepted. */
  method ReadProofTree(data: seq<Byte>, codes: nat -> bool)
    returns (r: Option<C.ProofTree>, ghost f: Option<C.TreeFile>)
    ensures r.Some? <==> exists x: C.TreeFile :: Lays(codes, x, data)
    ensures r.Some? <==> f.Some?
    ensures r.Some? ==>
              && Lays(codes, f.value, data)
              && r.value == C.ProofTree(C.Latin(f.value.head.fen), C.Decoded(f.value.recs, f.value.head.outcome))
  {
    hide Lays, C.Decoded;
    ghost var want: Option<C.TreeFile> := None;
    if exists x: C.TreeFile :: Lays(codes, x, data) {
      var x: C.TreeFile :| Lays(codes, x, data);
      want := Some(x);
    }
    r, f := ReadWhole(data, codes, want);
  }

  lemma {:induction false} OkBackward(codes: nat -> bool, rs: seq<C.Rec>)
    requires C.RecsOk(codes, rs)
    ensures 0 < |rs| <= U32_MAX && C.Backward(rs, |rs|)
  {
  }

  lemma {:induction false} LayoutNext(data: seq<Byte>, f: C.TreeFile)
    requires data == C.TreeLayout(f)
    ensures |C.HeadBytes(f.head)| <= |data| && data[0..|C.HeadBytes(f.head)|] == C.HeadBytes(f.head)
    ensures data[|C.HeadBytes(f.head)|..] == C.AllRecs(f.recs, |f.recs|)
  {
    hide C.HeadBytes, C.AllRecs;
  }
}
