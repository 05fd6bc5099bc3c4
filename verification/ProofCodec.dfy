/** The compact proof-tree dump.  Only parent links and moves are stored; sibling chains,
    outcomes and depths are derived again by the reader. */
module ProofCodec {
  import opened Game
  import opened Lists
  import opened Tree
  import opened Bytes
  import Snapshot
  import opened RebuildResult
  import opened Validate

  const MAGIC: seq<Byte> := [65, 84, 79, 77, 84, 82, 69, 69]
  const VERSION: Byte := 1
  const ROOT_PARENT: U32 := U32_MAX
  const RECORD := 6

  type Scalar = c: int | 0 <= c < 0x11_0000

  /** A tree with the FEN of its root. */
  datatype ProofTree = ProofTree(fen: seq<Scalar>, nodes: seq<ProofNode>)

  datatype Head = Head(fen: seq<Byte>, outcome: Outcome, depth: U32)

  datatype Rec = Rec(parent: U32, code: U16)

  datatype TreeFile = TreeFile(head: Head, recs: seq<Rec>)

  // ----- text -----

  function Utf8(c: Scalar): (b: seq<Byte>)
    ensures |b| >= 1 && (c < 0x80 ==> b == [c]) && (c >= 0x80 ==> |b| >= 2 && forall k :: 0 <= k < |b| ==> b[k] >= 0x80)
  {
    if c < 0x80 then [c]
    else if c < 0x800 then [0xC0 + c / 0x40, 0x80 + c % 0x40]
    else if c < 0x1_0000 then [0xE0 + c / 0x1000, 0x80 + c / 0x40 % 0x40, 0x80 + c % 0x40]
    else [0xF0 + c / 0x4_0000, 0x80 + c / 0x1000 % 0x40, 0x80 + c / 0x40 % 0x40, 0x80 + c % 0x40]
  }

  /** The writer's encoding of the FEN. */
  function Utf8All(s: seq<Scalar>): seq<Byte>
  {
    if s == [] then [] else Utf8All(s[..|s| - 1]) + Utf8(s[|s| - 1])
  }

  /** The reader takes every byte for a character of its own. */
  function Latin(b: seq<Byte>): (s: seq<Scalar>)
    ensures |s| == |b| && forall i :: 0 <= i < |b| ==> s[i] == b[i]
  {
    seq(|b|, i requires 0 <= i < |b| => b[i])
  }

  predicate Ascii(s: seq<Scalar>) { forall i :: 0 <= i < |s| ==> s[i] < 0x80 }

  predicate HasNewline(s: seq<Scalar>) { exists i :: 0 <= i < |s| && s[i] == NEWLINE }

  lemma {:induction false} Utf8Newline(s: seq<Scalar>)
    ensures NEWLINE in Utf8All(s) <==> HasNewline(s)
  {
    if s != [] {
      var front, last := s[..|s| - 1], s[|s| - 1];
      Utf8Newline(front);
      assert forall i :: 0 <= i < |front| ==> front[i] == s[i];
      assert NEWLINE in Utf8(last) <==> last == NEWLINE;
    }
  }

  lemma {:induction false} Utf8Longer(s: seq<Scalar>)
    ensures |Utf8All(s)| >= |s|
    ensures |Utf8All(s)| == |s| <==> Ascii(s)
    ensures Ascii(s) ==> Latin(Utf8All(s)) == s
  {
    if s != [] {
      var front, last := s[..|s| - 1], s[|s| - 1];
      Utf8Longer(front);
      assert s == front + [last];
      assert forall i :: 0 <= i < |front| ==> front[i] == s[i];
    }
  }

  /** A FEN comes back exactly when it is ASCII. */
  lemma {:induction false} FenBack(s: seq<Scalar>)
    ensures Latin(Utf8All(s)) == s <==> Ascii(s)
  {
    Utf8Longer(s);
  }

  // ----- layout -----

  function RecBytes(r: Rec): (b: seq<Byte>)
    ensures |b| == RECORD
  {
    Le32(r.parent) + Le16(r.code)
  }

  function AllRecs(rs: seq<Rec>, n: nat): (b: seq<Byte>)
    requires n <= |rs|
    ensures |b| == n * RECORD
  {
    if n == 0 then [] else AllRecs(rs, n - 1) + RecBytes(rs[n - 1])
  }

  function Opening(): (b: seq<Byte>)
    ensures |b| == 9
  {
    MAGIC + [VERSION]
  }

  function RootBytes(h: Head): (b: seq<Byte>)
    ensures |b| == 5
  {
    [Snapshot.OutcomeByte(h.outcome)] + Le32(h.depth)
  }

  function HeadBytes(h: Head): (b: seq<Byte>)
    ensures |b| == 15 + |h.fen|
  {
    Opening() + (h.fen + [NEWLINE]) + RootBytes(h)
  }

  function TreeLayout(f: TreeFile): seq<Byte>
  {
    HeadBytes(f.head) + AllRecs(f.recs, |f.recs|)
  }

  // ----- the tree a record list describes -----

  predicate Backward(rs: seq<Rec>, n: nat)
    requires n <= |rs|
  {
    forall i :: 0 < i < n ==> rs[i].parent < i
  }

  ghost predicate RecsOk(codes: nat -> bool, rs: seq<Rec>)
  {
    && 0 < |rs| <= U32_MAX && rs[0] == Rec(ROOT_PARENT, NO_MOVE) && Backward(rs, |rs|)
    && forall i :: 0 <= i < |rs| ==> codes(rs[i].code)
  }

  function BareNode(rs: seq<Rec>, i: nat): ProofNode
    requires i < |rs|
  {
    ProofNode(if i == 0 then None else Some(rs[i].parent as nat), None, None, rs[i].code, 0, Some(Draw), 0)
  }

  /** The first `n` nodes, each put in front of its siblings, with placeholder outcomes. */
  ghost function Added(rs: seq<Rec>, n: nat): (r: seq<ProofNode>)
    requires 0 < n <= |rs| && Backward(rs, n)
    ensures Linked(r) && |r| == n
  {
    if n == 1 then
      var root := [BareNode(rs, 0)];
      assert NodeLinked(root, 0);
      root
    else AddNode(Added(rs, n - 1), rs[n - 1].parent, rs[n - 1].code, 0, Some(Draw), 0)
  }

  lemma {:induction false} AddedFields(rs: seq<Rec>, n: nat)
    requires 0 < n <= |rs| && Backward(rs, n)
    ensures var r := Added(rs, n);
            AllKids(r) && forall i :: 0 <= i < n ==>
              r[i] == BareNode(rs, i).(firstChild := r[i].firstChild, nextSibling := r[i].nextSibling)
    decreases n
  {
    hide AllKids;
    if n > 1 {
      AddedFields(rs, n - 1);
      AddNodeAllKids(Added(rs, n - 1), rs[n - 1].parent, rs[n - 1].code, 0, Some(Draw), 0);
    } else {
      NoneToAttach(Added(rs, n));
    }
  }

  lemma {:induction false} NoneToAttach(nodes: seq<ProofNode>)
    requires Linked(nodes) && |nodes| == 1
    ensures AllKids(nodes)
  {
  }

  /** Outcomes alternate down from the root; below a drawn root all are draws. */
  ghost function OutcomeAt(rs: seq<Rec>, o: Outcome, i: nat): Outcome
    requires i < |rs| && Backward(rs, |rs|)
    decreases i
  {
    if i == 0 then o else OutcomeAt(rs, o, rs[i].parent).Flip()
  }

  ghost function WithOutcomes(rs: seq<Rec>, o: Outcome): (r: seq<ProofNode>)
    requires 0 < |rs| && Backward(rs, |rs|)
    ensures |r| == |rs| && Linked(r) && SameLinks(Added(rs, |rs|), r)
  {
    var added := Added(rs, |rs|);
    var r := seq(|rs|, i requires 0 <= i < |rs| => added[i].(outcome := Some(OutcomeAt(rs, o, i))));
    SameLinksKids(added, r);
    r
  }

  /** The tree a dump describes. */
  ghost function Decoded(rs: seq<Rec>, o: Outcome): (r: seq<ProofNode>)
    requires 0 < |rs| && Backward(rs, |rs|)
    ensures |r| == |rs| && Linked(r)
  {
    var bare := WithOutcomes(rs, o);
    SameLinksKids(bare, WithDepths(bare));
    WithDepths(bare)
  }

  ghost predicate FileOk(codes: nat -> bool, f: TreeFile)
  {
    NEWLINE !in f.head.fen && RecsOk(codes, f.recs) && Decoded(f.recs, f.head.outcome)[0].depth == f.head.depth
  }

  // ----- the layout determines the file -----

  lemma {:induction false} RecInjective(a: Rec, b: Rec)
    requires RecBytes(a) == RecBytes(b)
    ensures a == b
  {
    hide Le32, Le16;
    Split(Le32(a.parent), Le16(a.code), Le32(b.parent), Le16(b.code));
    Le32Injective(a.parent, b.parent);
    Le16Injective(a.code, b.code);
  }

  lemma {:induction false} RecsInjective(a: seq<Rec>, b: seq<Rec>, n: nat)
    requires n <= |a| && n <= |b| && AllRecs(a, n) == AllRecs(b, n)
    ensures a[..n] == b[..n]
  {
    hide RecBytes;
    if n > 0 {
      Split(AllRecs(a, n - 1), RecBytes(a[n - 1]), AllRecs(b, n - 1), RecBytes(b[n - 1]));
      RecsInjective(a, b, n - 1);
      RecInjective(a[n - 1], b[n - 1]);
      assert a[..n] == a[..n - 1] + [a[n - 1]] && b[..n] == b[..n - 1] + [b[n - 1]];
    }
  }

  lemma {:induction false} RootInjective(a: Head, b: Head)
    requires RootBytes(a) == RootBytes(b) && a.fen == b.fen
    ensures a == b
  {
    hide Le32, Snapshot.OutcomeByte;
    Split([Snapshot.OutcomeByte(a.outcome)], Le32(a.depth), [Snapshot.OutcomeByte(b.outcome)], Le32(b.depth));
    assert [Snapshot.OutcomeByte(a.outcome)][0] == [Snapshot.OutcomeByte(b.outcome)][0];
    Snapshot.OutcomeInjective(a.outcome, b.outcome);
    Le32Injective(a.depth, b.depth);
  }

  lemma {:induction false} HeadParts(h: Head, rest: seq<Byte>)
    ensures HeadBytes(h) + rest == Opening() + (h.fen + [NEWLINE] + (RootBytes(h) + rest))
  {
    hide RootBytes, Opening;
    Assoc(Opening() + (h.fen + [NEWLINE]), RootBytes(h), rest);
    Assoc(Opening(), h.fen + [NEWLINE], RootBytes(h) + rest);
  }

  /** Two dumps with the same bytes are the same dump. */
  lemma {:induction false} LayoutInjective(a: TreeFile, b: TreeFile)
    requires NEWLINE !in a.head.fen && NEWLINE !in b.head.fen && TreeLayout(a) == TreeLayout(b)
    ensures a == b
  {
    hide HeadBytes, Opening, RootBytes, AllRecs;
    var ra, rb := AllRecs(a.recs, |a.recs|), AllRecs(b.recs, |b.recs|);
    HeadParts(a.head, ra);
    HeadParts(b.head, rb);
    Split(Opening(), a.head.fen + [NEWLINE] + (RootBytes(a.head) + ra), Opening(),
        b.head.fen + [NEWLINE] + (RootBytes(b.head) + rb));
    LineUnique(a.head.fen, b.head.fen, RootBytes(a.head) + ra, RootBytes(b.head) + rb);
    Split(RootBytes(a.head), ra, RootBytes(b.head), rb);
    RootInjective(a.head, b.head);
    RecsInjective(a.recs, b.recs, |a.recs|);
    assert a.recs[..|a.recs|] == a.recs && b.recs[..|a.recs|] == b.recs;
  }

  // ----- writing -----

  /** The record of a node; move codes have 16 bits and ids 32. */
  function RecOf(n: ProofNode): Rec
  {
    Rec(if n.parent.Some? && n.parent.value < U32_MAX then n.parent.value else ROOT_PARENT, n.mv % 0x1_0000)
  }

  function RecsOf(nodes: seq<ProofNode>): (rs: seq<Rec>)
    ensures |rs| == |nodes| && forall i :: 0 <= i < |rs| ==> rs[i] == RecOf(nodes[i])
  {
    seq(|nodes|, i requires 0 <= i < |nodes| => RecOf(nodes[i]))
  }

  function FileOf(t: ProofTree): TreeFile
    requires t.nodes != [] && t.nodes[0].outcome.Some?
  {
    TreeFile(Head(Utf8All(t.fen), t.nodes[0].outcome.value, t.nodes[0].depth), RecsOf(t.nodes))
  }

  lemma {:induction false} RecsPrefix(a: seq<Rec>, b: seq<Rec>, n: nat)
    requires n <= |a| && n <= |b| && a[..n] == b[..n]
    ensures AllRecs(a, n) == AllRecs(b, n)
  {
    hide RecBytes;
    if n > 0 {
      assert a[..n - 1] == a[..n][..n - 1] && b[..n - 1] == b[..n][..n - 1];
      assert a[n - 1] == a[..n][n - 1] && b[n - 1] == b[..n][n - 1];
      RecsPrefix(a, b, n - 1);
    }
  }

  /** Dump a tree; a tree with an unrealised node is refused. */
  method WriteProofTree(t: ProofTree) returns (out: Option<seq<Byte>>)
    requires t.nodes != []
    ensures out.Some? <==> forall i :: 0 <= i < |t.nodes| ==> t.nodes[i].outcome.Some?
    ensures out.Some? ==> t.nodes[0].outcome.Some? && out.value == TreeLayout(FileOf(t))
  {
    hide Utf8All, Le32, Le16, Snapshot.OutcomeByte;
    var bytes := MAGIC + [VERSION];
    bytes := bytes + (Utf8All(t.fen) + [NEWLINE]);
    var root := t.nodes[0];
    if root.outcome.None? {
      return None;
    }
    bytes := bytes + ([Snapshot.OutcomeByte(root.outcome.value)] + Le32(root.depth));
    ghost var rs := RecsOf(t.nodes);
    ghost var head := bytes;
    assert head == HeadBytes(FileOf(t).head);
    for i := 0 to |t.nodes|
      invariant bytes == head + AllRecs(rs, i)
      invariant forall k :: 0 <= k < i ==> t.nodes[k].outcome.Some?
    {
      var n := t.nodes[i];
      if n.outcome.None? {
        return None;
      }
      var parent: U32 := if n.parent.Some? && n.parent.value < U32_MAX then n.parent.value else ROOT_PARENT;
      Assoc(head, AllRecs(rs, i), RecBytes(rs[i]));
      bytes := bytes + (Le32(parent) + Le16(n.mv % 0x1_0000));
    }
    out := Some(bytes);
  }
}
