/** What survives a dump: reading back gives the tree exactly when nothing in it was free to
    differ from what the reader derives. */
module ProofRound {
  import opened Game
  import opened Lists
  import opened Tree
  import opened Bytes
  import opened WorkerInvariant
  import opened WorkerTidy
  import opened Rebuild
  import opened RebuildFaithful
  import opened RebuildResult
  import Finalize
  import opened Validate
  import opened ValidateSound
  import opened ProofCodec
  import opened ProofReader

  // ----- sibling chains follow from parent links -----

  lemma {:induction false} NextAtLeast(a: seq<ProofNode>, next: Option<nat>, i: nat, s: nat)
    requires Linked(a) && (next.Some? ==> next.value < |a|)
    requires i in Chain(a, next) && s in Chain(a, next) && s < i < |a|
    ensures a[i].nextSibling.Some? && s <= a[i].nextSibling.value
    decreases if next.None? then 0 else next.value + 1
  {
    var n := next.value;
    assert NodeLinked(a, n);
    assert Chain(a, next) == [n] + Chain(a, a[n].nextSibling);
    if i != n {
      NextAtLeast(a, a[n].nextSibling, i, s);
    }
  }

  ghost predicate SameParents(a: seq<ProofNode>, b: seq<ProofNode>)
  {
    |a| == |b| && forall i :: 0 <= i < |a| ==> a[i].parent == b[i].parent
  }

  lemma {:induction false} LinksBelow(a: seq<ProofNode>, b: seq<ProofNode>, i: nat)
    requires Linked(a) && Linked(b) && AllKids(b) && SameParents(a, b) && i < |a|
    ensures a[i].firstChild.Some? ==> b[i].firstChild.Some? && a[i].firstChild.value <= b[i].firstChild.value
    ensures i > 0 && AllKids(a) && a[i].nextSibling.Some? ==>
        b[i].nextSibling.Some? && a[i].nextSibling.value <= b[i].nextSibling.value
  {
    assert NodeLinked(a, i) && NodeLinked(b, i);
    if a[i].firstChild.Some? {
      var c := a[i].firstChild.value;
      assert IsKidOfParent(b, c);
      assert c in Chain(b, b[i].firstChild);
    }
    if i > 0 && a[i].nextSibling.Some? {
      var s := a[i].nextSibling.value;
      assert NodeLinked(a, s);
      assert IsKidOfParent(b, i) && IsKidOfParent(b, s);
      var p := b[i].parent.value;
      assert NodeLinked(b, p);
      NextAtLeast(b, b[p].firstChild, i, s);
    }
  }

  /** When every node is on its parent's chain, the parent links fix all links. */
  lemma {:induction false} LinksFromParents(a: seq<ProofNode>, b: seq<ProofNode>)
    requires Linked(a) && Linked(b) && AllKids(a) && AllKids(b) && SameParents(a, b)
    ensures SameLinks(a, b)
  {
    hide AllKids;
    forall i | 0 <= i < |a|
      ensures a[i].firstChild == b[i].firstChild && a[i].nextSibling == b[i].nextSibling
    {
      assert NodeLinked(a, i) && NodeLinked(b, i);
      LinksBelow(a, b, i);
      LinksBelow(b, a, i);
    }
  }

  lemma {:induction false} AllKidsFrame(a: seq<ProofNode>, b: seq<ProofNode>)
    requires Linked(a) && Linked(b) && SameLinks(a, b) && AllKids(a)
    ensures AllKids(b)
  {
    SameLinksKids(a, b);
    forall n | 0 < n < |b|
      ensures IsKidOfParent(b, n)
    {
      assert IsKidOfParent(a, n);
    }
  }

  // ----- what a dump cannot lose -----

  ghost predicate FlipsParent(nodes: seq<ProofNode>, i: nat)
    requires i < |nodes|
  {
    && nodes[i].parent.Some? && nodes[i].parent.value < |nodes|
    && nodes[i].outcome.Some? && nodes[nodes[i].parent.value].outcome.Some?
    && nodes[i].outcome.value == nodes[nodes[i].parent.value].outcome.value.Flip()
  }

  /** Outcomes alternate along every edge (draws stay draws). */
  ghost predicate Alternating(nodes: seq<ProofNode>)
  {
    |nodes| > 0 && nodes[0].outcome.Some? && forall i :: 0 < i < |nodes| ==> FlipsParent(nodes, i)
  }

  ghost predicate DepthsDerived(nodes: seq<ProofNode>)
    requires Linked(nodes)
  {
    forall i :: 0 <= i < |nodes| ==> nodes[i].depth == Expected(nodes, i)
  }

  ghost predicate Regular(nodes: seq<ProofNode>)
  {
    Linked(nodes) && AllKids(nodes) && Alternating(nodes) && DepthsDerived(nodes)
  }

  /** Ids and move codes are in range; the null move sits at the root. */
  ghost predicate Coded(codes: nat -> bool, nodes: seq<ProofNode>)
  {
    && 0 < |nodes| <= U32_MAX && nodes[0].mv == NO_MOVE
    && forall i :: 0 <= i < |nodes| ==> nodes[i].mv < 0x1_0000 && codes(nodes[i].mv)
  }

  function NoHashes(nodes: seq<ProofNode>): (r: seq<ProofNode>)
    ensures |r| == |nodes| && forall i :: 0 <= i < |r| ==> r[i] == nodes[i].(hash := 0)
  {
    seq(|nodes|, i requires 0 <= i < |nodes| => nodes[i].(hash := 0))
  }

  /** Payload the reader derives from records. */
  lemma {:induction false} DecodedFields(rs: seq<Rec>, o: Outcome, i: nat)
    requires 0 < |rs| && Backward(rs, |rs|) && i < |rs|
    ensures var r := Decoded(rs, o);
            && r[i].parent == BareNode(rs, i).parent && r[i].mv == rs[i].code && r[i].hash == 0
            && r[i].outcome == Some(OutcomeAt(rs, o, i)) && r[i].depth == Expected(r, i)
  {
    AddedFields(rs, |rs|);
    var bare := WithOutcomes(rs, o);
    ExpectedFrame(bare, Decoded(rs, o), i);
  }

  lemma {:induction false} DecodedKids(rs: seq<Rec>, o: Outcome)
    requires 0 < |rs| && Backward(rs, |rs|)
    ensures AllKids(Decoded(rs, o))
  {
    AddedFields(rs, |rs|);
    AllKidsFrame(Added(rs, |rs|), WithOutcomes(rs, o));
    AllKidsFrame(WithOutcomes(rs, o), Decoded(rs, o));
  }

  /** Every tree the reader accepts is regular. */
  lemma {:induction false} DecodedRegular(rs: seq<Rec>, o: Outcome)
    requires 0 < |rs| && Backward(rs, |rs|)
    ensures Regular(Decoded(rs, o)) && Decoded(rs, o)[0].outcome == Some(o)
  {
    hide Decoded, AllKids;
    DecodedKids(rs, o);
    var r := Decoded(rs, o);
    forall i | 0 <= i < |r|
      ensures r[i].depth == Expected(r, i) && (i > 0 ==> FlipsParent(r, i)) && (i == 0 ==> r[i].outcome == Some(o))
    {
      DecodedFields(rs, o, i);
      if i > 0 {
        DecodedFields(rs, o, rs[i].parent);
      }
    }
  }

  lemma {:induction false} DecisiveBelow(nodes: seq<ProofNode>, i: nat)
    requires Linked(nodes) && Alternating(nodes) && nodes[0].outcome != Some(Draw) && i < |nodes|
    ensures nodes[i].outcome.Some? && nodes[i].outcome != Some(Draw)
    decreases i
  {
    assert NodeLinked(nodes, i);
    if i > 0 {
      assert FlipsParent(nodes, i);
      DecisiveBelow(nodes, nodes[i].parent.value);
    }
  }

  /** With a decisive root, depth 0 sits exactly at the leaves. */
  lemma {:induction false} RegularLeaves(nodes: seq<ProofNode>)
    requires Regular(nodes) && nodes[0].outcome != Some(Draw)
    ensures LeavesAreZero(nodes)
  {
    forall i | 0 <= i < |nodes|
      ensures nodes[i].depth == 0 <==> Children(nodes, i) == []
    {
      DecisiveBelow(nodes, i);
      ExpectedPositive(nodes, i);
    }
  }

  lemma {:induction false} RecsBack(codes: nat -> bool, nodes: seq<ProofNode>)
    requires Linked(nodes) && Coded(codes, nodes)
    ensures RecsOk(codes, RecsOf(nodes))
    ensures forall i :: 0 <= i < |nodes| ==>
              BareNode(RecsOf(nodes), i).parent == nodes[i].parent && RecsOf(nodes)[i].code == nodes[i].mv
  {
    var rs := RecsOf(nodes);
    forall i | 0 <= i < |nodes|
      ensures BareNode(rs, i).parent == nodes[i].parent && rs[i].code == nodes[i].mv && codes(rs[i].code)
      ensures i == 0 ==> rs[i] == Rec(ROOT_PARENT, NO_MOVE)
      ensures i > 0 ==> rs[i].parent < i
    {
      assert NodeLinked(nodes, i) && rs[i] == RecOf(nodes[i]);
    }
  }

  lemma {:induction false} OutcomesBack(codes: nat -> bool, nodes: seq<ProofNode>, i: nat)
    requires Linked(nodes) && Coded(codes, nodes) && Alternating(nodes) && i < |nodes|
    requires Backward(RecsOf(nodes), |nodes|)
    ensures nodes[i].outcome == Some(OutcomeAt(RecsOf(nodes), nodes[0].outcome.value, i))
    decreases i
  {
    assert NodeLinked(nodes, i);
    if i > 0 {
      assert FlipsParent(nodes, i);
      OutcomesBack(codes, nodes, nodes[i].parent.value);
    }
  }

  /** Decoding a regular tree's own records gives the tree back, hashes aside. */
  lemma {:induction false} RegularBack(codes: nat -> bool, nodes: seq<ProofNode>)
    requires Regular(nodes) && Coded(codes, nodes)
    ensures RecsOk(codes, RecsOf(nodes))
    ensures Decoded(RecsOf(nodes), nodes[0].outcome.value) == NoHashes(nodes)
  {
    hide Decoded, AllKids, Expected, RecsOf;
    var rs := RecsOf(nodes);
    var o := nodes[0].outcome.value;
    RecsBack(codes, nodes);
    var r := Decoded(rs, o);
    DecodedKids(rs, o);
    forall i | 0 <= i < |nodes|
      ensures r[i].parent == nodes[i].parent && r[i].mv == nodes[i].mv && r[i].hash == 0
              && r[i].outcome == nodes[i].outcome
      ensures r[i].depth == Expected(r, i)
    {
      DecodedFields(rs, o, i);
      OutcomesBack(codes, nodes, i);
    }
    LinksFromParents(nodes, r);
    forall i | 0 <= i < |nodes|
      ensures r[i] == NoHashes(nodes)[i]
    {
      ExpectedFrame(nodes, r, i);
    }
  }

  lemma {:induction false} RegularWithoutHashes(nodes: seq<ProofNode>)
    requires Linked(nodes) && Regular(NoHashes(nodes))
    ensures Regular(nodes)
  {
    var b := NoHashes(nodes);
    AllKidsFrame(b, nodes);
    forall i | 0 <= i < |nodes|
      ensures nodes[i].depth == Expected(nodes, i) && (i > 0 ==> FlipsParent(nodes, i))
    {
      ExpectedFrame(b, nodes, i);
      assert i > 0 ==> FlipsParent(b, i);
    }
  }

  /** Dump a realised tree and load it: the same tree comes back, hashes aside, exactly when
      the tree is regular and its FEN is one ASCII line. */
  method DumpThenLoad(t: ProofTree, codes: nat -> bool) returns (back: Option<ProofTree>)
    requires Linked(t.nodes) && Coded(codes, t.nodes) && forall i :: 0 <= i < |t.nodes| ==> t.nodes[i].outcome.Some?
    ensures back == Some(ProofTree(t.fen, NoHashes(t.nodes))) <==>
        Regular(t.nodes) && Ascii(t.fen) && !HasNewline(t.fen)
  {
    hide Regular, Decoded, RecsOf, TreeLayout, Utf8All, Latin;
    var out := WriteProofTree(t);
    ghost var file := FileOf(t);
    ghost var good := Regular(t.nodes) && Ascii(t.fen) && !HasNewline(t.fen);
    if good {
      GoodFile(codes, t);
    }
    ghost var f;
    back, f := ReadProofTree(out.value, codes);
    if good {
      assert Lays(codes, file, out.value);
      LayoutInjective(f.value, file);
      Utf8Longer(t.fen);
    } else if back == Some(ProofTree(t.fen, NoHashes(t.nodes))) {
      OnlyGood(codes, t, f.value);
    }
  }

  lemma {:induction false} GoodFile(codes: nat -> bool, t: ProofTree)
    requires Coded(codes, t.nodes) && Regular(t.nodes) && Ascii(t.fen) && !HasNewline(t.fen)
    ensures FileOk(codes, FileOf(t))
    ensures Decoded(FileOf(t).recs, FileOf(t).head.outcome) == NoHashes(t.nodes)
  {
    hide Decoded, AllKids, Expected, RecsOf, Utf8All, RecsOk, Backward;
    RegularBack(codes, t.nodes);
    Utf8Newline(t.fen);
    OkBackward(codes, RecsOf(t.nodes));
  }

  lemma {:induction false} OnlyGood(codes: nat -> bool, t: ProofTree, f: TreeFile)
    requires Linked(t.nodes) && Coded(codes, t.nodes) && t.nodes[0].outcome.Some? && FileOk(codes, f)
             && TreeLayout(FileOf(t)) == TreeLayout(f)
    requires t.fen == Latin(f.head.fen) && NoHashes(t.nodes) == Decoded(f.recs, f.head.outcome)
    ensures Regular(t.nodes) && Ascii(t.fen) && !HasNewline(t.fen)
  {
    hide Decoded, RecsOf, TreeLayout, Regular, Utf8All, Expected;
    DecodedRegular(f.recs, f.head.outcome);
    RegularWithoutHashes(t.nodes);
    assert !HasNewline(t.fen) by {
      assert forall i :: 0 <= i < |t.fen| ==> t.fen[i] == f.head.fen[i] && f.head.fen[i] in f.head.fen;
    }
    Utf8Newline(t.fen);
    LayoutInjective(FileOf(t), f);
    FenBack(t.fen);
  }

  // ----- trees that are regular -----

  /** What finalisation installs is regular. */
  lemma {:induction false} FinishedRegular(t: Raw)
    requires Ready(t) && t.nodes[0].outcome.Some? && Tidy(t.nodes) && forall i: nat :: Polar(t.nodes, i)
    ensures Regular(Finished(t))
  {
    hide Polar, Rebuilt, Faithful, Tidy, AllKids;
    Finalize.FinishedKeeps(t);
    FinishedDepths(t);
    FinishedLinks(t);
    RebuiltFaithful(t);
    var f := Finished(t);
    forall i | 0 < i < |f|
      ensures FlipsParent(f, i)
    {
      Alternates(t, Rebuilt(t), i);
      assert NodeLinked(f, i);
    }
    RootRealised(t);
  }

  lemma {:induction false} RootRealised(t: Raw)
    requires Ready(t) && Faithful(t, Rebuilt(t))
    ensures Rebuilt(t).nodes[0].outcome.Some?
  {
  }

  /** Validity reaches every attached node. */
  lemma {:induction false} CleanAt(g: Rules, nodes: seq<ProofNode>, root: Position, i: nat)
    returns (p: Position, onPath: set<nat>)
    requires Linked(nodes) && AllKids(nodes) && LeavesAreZero(nodes) && Clean(g, nodes, 0, root, {}) && i < |nodes|
    ensures Clean(g, nodes, i, p, onPath)
    decreases i
  {
    hide LocalOk, Shaped, Expected;
    if i == 0 {
      p, onPath := root, {};
    } else {
      assert NodeLinked(nodes, i) && IsKidOfParent(nodes, i);
      var above := nodes[i].parent.value;
      var q, hs := CleanAt(g, nodes, root, above);
      var kids := Children(nodes, above);
      var k :| 0 <= k < |kids| && kids[k] == i;
      assert kids != [];
      p := g.play(q, nodes[i].mv);
      onPath := hs + {g.hash(p)};
      assert KidsClean(g, nodes, kids, above + 1, q, hs);
    }
  }

  /** A validated tree is regular. */
  lemma {:induction false} CleanRegular(g: Rules, nodes: seq<ProofNode>, root: Position)
    requires Linked(nodes) && AllKids(nodes) && LeavesAreZero(nodes) && Clean(g, nodes, 0, root, {})
    ensures Regular(nodes) && nodes[0].outcome.Some? && nodes[0].outcome != Some(Draw)
  {
    forall i | 0 <= i < |nodes|
      ensures nodes[i].depth == Expected(nodes, i) && nodes[i].outcome.Some? && (i > 0 ==> FlipsParent(nodes, i))
    {
      CleanNode(g, nodes, root, i);
    }
  }

  lemma {:induction false} CleanNode(g: Rules, nodes: seq<ProofNode>, root: Position, i: nat)
    requires Linked(nodes) && AllKids(nodes) && LeavesAreZero(nodes) && Clean(g, nodes, 0, root, {}) && i < |nodes|
    ensures nodes[i].depth == Expected(nodes, i) && nodes[i].outcome.Some? && (i > 0 ==> FlipsParent(nodes, i))
  {
    hide Shaped, Expected, KidsClean;
    var p, onPath := CleanAt(g, nodes, root, i);
    LeavesAreZeroShaped(nodes, i);
    if i > 0 {
      assert NodeLinked(nodes, i) && IsKidOfParent(nodes, i);
      var above := nodes[i].parent.value;
      var q, hs := CleanAt(g, nodes, root, above);
      var kids := Children(nodes, above);
      var k :| 0 <= k < |kids| && kids[k] == i;
      assert kids != [] && LocalOk(g, nodes, above, q);
    }
  }

  // ----- validity survives a dump -----

  lemma {:induction false} ShapedWithoutHashes(a: seq<ProofNode>, b: seq<ProofNode>, id: nat)
    requires Linked(a) && Linked(b) && b == NoHashes(a) && id < |a|
    ensures Shaped(b, id) == Shaped(a, id)
    decreases |a| - id
  {
    SameLinksKids(a, b);
    var kids := Children(a, id);
    forall k | 0 <= k < |kids|
      ensures Shaped(b, kids[k]) == Shaped(a, kids[k])
    {
      ShapedWithoutHashes(a, b, kids[k]);
    }
  }

  lemma {:induction false} LocalWithoutHashes(g: Rules, a: seq<ProofNode>, b: seq<ProofNode>, id: nat, p: Position)
    requires Linked(a) && Linked(b) && b == NoHashes(a) && id < |a| && LocalOk(g, a, id, p)
             && Children(a, id) == Children(b, id)
    ensures LocalOk(g, b, id, p)
  {
    var kids := Children(a, id);
    hide Children, Linked;
    if a[id].depth > 0 && a[id].outcome == Some(Loss) {
      forall k | 0 <= k < |g.legal(p)|
        ensures Replied(b, kids, g.legal(p)[k])
      {
        assert Replied(a, kids, g.legal(p)[k]);
      }
    }
  }

  /** Without stored hashes there is only less to check. */
  lemma {:induction false} CleanWithoutHashes(g: Rules, a: seq<ProofNode>, b: seq<ProofNode>, id: nat, p: Position,
          onPath: set<nat>)
    requires Linked(a) && Linked(b) && b == NoHashes(a) && id < |a| && Clean(g, a, id, p, onPath)
    ensures Clean(g, b, id, p, onPath)
    decreases |a| - id
  {
    hide LocalOk, Shaped, Expected;
    SameLinksKids(a, b);
    ShapedWithoutHashes(a, b, id);
    ExpectedFrame(a, b, id);
    LocalWithoutHashes(g, a, b, id, p);
    var kids := Children(a, id);
    if a[id].depth > 0 {
      assert KidsClean(g, a, kids, id + 1, p, onPath);
      forall k | 0 <= k < |kids|
        ensures var q := g.play(p, b[kids[k]].mv);
                g.hash(q) !in onPath && Clean(g, b, kids[k], q, onPath + {g.hash(q)})
      {
        var q := g.play(p, a[kids[k]].mv);
        CleanWithoutHashes(g, a, b, kids[k], q, onPath + {g.hash(q)});
      }
      assert KidsClean(g, b, kids, id + 1, p, onPath);
    }
  }

  /** Dump a validated tree and load it: the validator still accepts it, its root outcome and
      depth are the same and depth 0 sits exactly at its leaves. */
  method DumpKeepsProof(g: Rules, root: Position, t: ProofTree, codes: nat -> bool) returns (back: Option<ProofTree>)
    requires Linked(t.nodes) && Coded(codes, t.nodes) && AllKids(t.nodes) && LeavesAreZero(t.nodes)
             && Clean(g, t.nodes, 0, root, {})
    requires Ascii(t.fen) && !HasNewline(t.fen)
    ensures back.Some? && back.value.fen == t.fen && Linked(back.value.nodes) && LeavesAreZero(back.value.nodes)
    ensures back.Some? && Clean(g, back.value.nodes, 0, root, {})
    ensures back.Some? && back.value.nodes[0].outcome == t.nodes[0].outcome
            && back.value.nodes[0].depth == t.nodes[0].depth
  {
    CleanRegular(g, t.nodes, root);
    hide Clean, AllKids, LeavesAreZero;
    RegularBack(codes, t.nodes);
    RegularLeaves(t.nodes);
    AllRealised(t.nodes);
    back := DumpThenLoad(t, codes);
    hide Regular;
    SameLinksKids(t.nodes, back.value.nodes);
    LeavesFrame(t.nodes, back.value.nodes);
    CleanWithoutHashes(g, t.nodes, back.value.nodes, 0, root, {});
  }

  lemma {:induction false} AllRealised(nodes: seq<ProofNode>)
    requires Linked(nodes) && Alternating(nodes)
    ensures forall i :: 0 <= i < |nodes| ==> nodes[i].outcome.Some?
  {
    forall i | 0 < i < |nodes|
      ensures nodes[i].outcome.Some?
    {
      assert FlipsParent(nodes, i);
    }
  }

  lemma {:induction false} LeavesFrame(a: seq<ProofNode>, b: seq<ProofNode>)
    requires Linked(a) && Linked(b) && LeavesAreZero(a) && b == NoHashes(a)
    ensures LeavesAreZero(b)
  {
    SameLinksKids(a, b);
  }
}
