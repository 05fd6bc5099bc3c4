/** From the worker's arena to the dumped file and back. */
module WorkerDump {
  import opened Game
  import opened Lists
  import opened Tree
  import opened Rebuild
  import opened RebuildFaithful
  import opened RebuildResult
  import opened Worker
  import opened WorkerInvariant
  import opened WorkerMachine
  import opened WorkerTidy
  import opened Finalize
  import opened ProofCodec
  import opened ProofReader
  import opened ProofRound
  import V = Validate

  /** The arena's moves have codes that the reader knows. */
  ghost predicate MovesCoded(codes: nat -> bool, nodes: seq<ProofNode>)
  {
    codes(NO_MOVE) && forall i :: 0 < i < |nodes| ==> nodes[i].mv < 0x1_0000 && codes(nodes[i].mv)
  }

  /** Every move of the rebuilt tree is one of the arena's. */
  lemma {:induction false} RebuiltCoded(codes: nat -> bool, t: Raw, b: Built)
    requires Ready(t) && Faithful(t, b) && MovesCoded(codes, t.nodes) && |b.nodes| <= U32_MAX
    ensures Coded(codes, b.nodes)
  {
    hide Faithful, Ready, Copies, Stands;
    forall n | 0 <= n < |b.nodes|
      ensures b.nodes[n].mv < 0x1_0000 && codes(b.nodes[n].mv)
    {
      if n > 0 {
        NodeCoded(codes, t, b, n);
      } else {
        RootCoded(t, b);
      }
    }
    RootCoded(t, b);
  }

  lemma {:induction false} RootCoded(t: Raw, b: Built)
    requires Ready(t) && Faithful(t, b)
    ensures |b.nodes| > 0 && b.nodes[0].mv == NO_MOVE
  {
  }

  lemma {:induction false} NodeCoded(codes: nat -> bool, t: Raw, b: Built, n: nat)
    requires Ready(t) && Faithful(t, b) && MovesCoded(codes, t.nodes) && 0 < n < |b.nodes|
    ensures b.nodes[n].mv < 0x1_0000 && codes(b.nodes[n].mv)
  {
    var p, k := ParentExpanded(t, b, n);
    RealKidHas(t.nodes, b.src[p], k);
  }

  lemma {:induction false} FinishedCoded(codes: nat -> bool, t: Raw)
    requires Ready(t) && t.nodes[0].outcome.Some? && MovesCoded(codes, t.nodes) && |Finished(t)| <= U32_MAX
    ensures Coded(codes, Finished(t))
  {
    hide MovesCoded;
    RebuiltFaithful(t);
    FinishedLinks(t);
    RebuiltCoded(codes, t, Rebuilt(t));
  }

  /** Finalise the worker's arena, dump what was installed, load the dump: the installed tree comes back,
      hashes aside, exactly when its FEN is one ASCII line, and it is still accepted if it was. */
  method FinaliseAndDump(w: ProofTreeWorker, g: Rules, root: Position, fen: seq<Scalar>, codes: nat -> bool)
    returns (r: Finalized, back: Option<ProofTree>)
    requires w.Valid() && Tidy(w.nodes) && g.Sane() && MovesCoded(codes, w.nodes)
    modifies w
    ensures w.Valid() && (r.RootUnrealised? <==> old(w.nodes)[0].outcome.None?)
    ensures r.Installed? ==> IsFinished(old(w.nodes), w.nodes)
    ensures r.Installed? && |w.nodes| <= U32_MAX ==>
              (back == Some(ProofTree(fen, NoHashes(w.nodes))) <==> Ascii(fen) && !HasNewline(fen))
    ensures r == Installed(0) && back == Some(ProofTree(fen, NoHashes(w.nodes))) ==>
              Linked(back.value.nodes) && V.Clean(g, back.value.nodes, 0, root, {})
  {
    back := None;
    ghost var was := w.nodes;
    WasPolar(w);
    hide Inv, Polar, IsFinished, Regular, Coded, Tidy, MovesCoded, Linked, V.Clean, V.Report, NoHashes, Ascii,
      HasNewline;
    r := FinalizeTree(w, g, root);
    if r.Installed? && |w.nodes| <= U32_MAX {
      InstalledRegular(was, w.nodes, codes);
      back := DumpThenLoad(ProofTree(fen, w.nodes), codes);
    }
    if r == Installed(0) {
      StillClean(g, w.nodes, root);
    }
  }

  /** A tree without defects stays one without its hashes. */
  lemma {:induction false} StillClean(g: Rules, nodes: seq<ProofNode>, root: Position)
    requires Linked(nodes) && |V.Report(g, nodes, 0, root, [], {})| == 0
    ensures Linked(NoHashes(nodes)) && V.Clean(g, NoHashes(nodes), 0, root, {})
  {
    V.ReportEmptyIffClean(g, nodes, 0, root, [], {});
    SameLinksKids(nodes, NoHashes(nodes));
    hide V.Clean, V.Report;
    CleanWithoutHashes(g, nodes, NoHashes(nodes), 0, root, {});
  }

  lemma {:induction false} WasPolar(w: ProofTreeWorker)
    requires w.Valid()
    ensures Linked(w.nodes) && forall i: nat :: Polar(w.nodes, i)
  {
    hide Polar;
  }

  lemma {:induction false} InstalledRegular(was: seq<ProofNode>, nodes: seq<ProofNode>, codes: nat -> bool)
    requires IsFinished(was, nodes) && was[0].outcome.Some? && MovesCoded(codes, was) && |nodes| <= U32_MAX
    requires forall i: nat :: Polar(was, i)
    ensures Linked(nodes) && Regular(nodes) && Coded(codes, nodes)
    ensures forall i :: 0 <= i < |nodes| ==> nodes[i].outcome.Some?
  {
    var canon: Canon :| IsCanon(was, canon);
    var t := Raw(was, canon);
    assert CanonTree(was, canon, nodes);
    FinishedRegular(t);
    FinishedCoded(codes, t);
    AllRealised(nodes);
  }
}
