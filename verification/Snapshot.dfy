/** The transposition-table snapshot format, version 1. */
module Snapshot {
  import opened Game
  import opened Lists
  import opened Bytes

  const MAGIC: seq<Byte> := [65, 84, 79, 77, 84, 84, 83, 78]
  const VERSION: Byte := 1
  const FLAGS: Byte := 0
  const NONE_CODE: U16 := 0xFFFF
  const SOLVED_BYTES := 15
  const UNSOLVED_BYTES := 42

  /** A table entry. */
  datatype Entry = Entry(key: U64, outcome: Option<Outcome>, depth: U32, remaining: U32, best: U16,
                         pn: U64, dn: U64, work: U64, generation: U32)

  /** Records as they lie in the file: moves are still codes. */
  datatype Solved = Solved(key: U64, outcome: Outcome, depth: U32, code: U16)

  datatype Unsolved = Unsolved(key: U64, pn: U64, dn: U64, depth: U32, remaining: U32, code: U16, work: U64)

  datatype Header = Header(fen: seq<Byte>, sizeMb: U32, generation: U32, solvedCount: U64, unsolvedCount: U64)

  datatype File = File(header: Header, solved: seq<Solved>, unsolved: seq<Unsolved>)

  function OutcomeByte(o: Outcome): Byte
  {
    match o
    case Draw => 0
    case Win => 1
    case Loss => 2
  }

  function OutcomeOf(b: Byte): (o: Option<Outcome>)
    ensures o.Some? <==> b < 3
    ensures o.Some? ==> OutcomeByte(o.value) == b
  {
    match b
    case 0 => Some(Draw)
    case 1 => Some(Win)
    case 2 => Some(Loss)
    case _ => None
  }

  /** `Move::NONE` has its own code in this format. */
  function MoveCode(mv: U16): U16 { if mv == NO_MOVE then NONE_CODE else mv }

  /** `codes` says which move codes are well formed. */
  function MoveOf(codes: nat -> bool, code: U16): Option<U16>
  {
    if code == NONE_CODE then Some(NO_MOVE) else if codes(code) then Some(code) else None
  }

  // ----- the layout -----

  function SolvedBytes(r: Solved): (b: seq<Byte>)
    ensures |b| == SOLVED_BYTES
  {
    Le64(r.key) + [OutcomeByte(r.outcome)] + Le32(r.depth) + Le16(r.code)
  }

  function UnsolvedBytes(r: Unsolved): (b: seq<Byte>)
    ensures |b| == UNSOLVED_BYTES
  {
    Le64(r.key) + Le64(r.pn) + Le64(r.dn) + Le32(r.depth) + Le32(r.remaining) + Le16(r.code) + Le64(r.work)
  }

  function AllSolved(rs: seq<Solved>, n: nat): (b: seq<Byte>)
    requires n <= |rs|
    ensures |b| == n * SOLVED_BYTES
  {
    if n == 0 then [] else AllSolved(rs, n - 1) + SolvedBytes(rs[n - 1])
  }

  function AllUnsolved(rs: seq<Unsolved>, n: nat): (b: seq<Byte>)
    requires n <= |rs|
    ensures |b| == n * UNSOLVED_BYTES
  {
    if n == 0 then [] else AllUnsolved(rs, n - 1) + UnsolvedBytes(rs[n - 1])
  }

  function Opening(): (b: seq<Byte>)
    ensures |b| == 10
  {
    MAGIC + [VERSION, FLAGS]
  }

  function Numbers(h: Header): (b: seq<Byte>)
    ensures |b| == 24
  {
    Le32(h.sizeMb) + Le32(h.generation) + Le64(h.solvedCount) + Le64(h.unsolvedCount)
  }

  function HeaderBytes(h: Header): (b: seq<Byte>)
    ensures |b| == 35 + |h.fen|
  {
    Opening() + (h.fen + [NEWLINE]) + Numbers(h)
  }

  function Layout(f: File): seq<Byte>
  {
    HeaderBytes(f.header) + AllSolved(f.solved, |f.solved|) + AllUnsolved(f.unsolved, |f.unsolved|)
  }

  /** A file whose counts are right and whose moves decode. */
  ghost predicate FileOk(codes: nat -> bool, utf8: seq<Byte> -> bool, f: File)
  {
    && NEWLINE !in f.header.fen && utf8(f.header.fen)
    && |f.solved| == f.header.solvedCount && |f.unsolved| == f.header.unsolvedCount
    && (forall i :: 0 <= i < |f.solved| ==> MoveOf(codes, f.solved[i].code).Some?)
    && (forall i :: 0 <= i < |f.unsolved| ==> MoveOf(codes, f.unsolved[i].code).Some?)
  }

  // ----- the layout determines the file -----

  lemma {:induction false} SolvedInjective(a: Solved, b: Solved)
    requires SolvedBytes(a) == SolvedBytes(b)
    ensures a == b
  {
    hide Le64, Le32, Le16, OutcomeByte;
    var a1, b1 := Le64(a.key) + [OutcomeByte(a.outcome)], Le64(b.key) + [OutcomeByte(b.outcome)];
    Split(a1 + Le32(a.depth), Le16(a.code), b1 + Le32(b.depth), Le16(b.code));
    Split(a1, Le32(a.depth), b1, Le32(b.depth));
    Split(Le64(a.key), [OutcomeByte(a.outcome)], Le64(b.key), [OutcomeByte(b.outcome)]);
    Le64Injective(a.key, b.key);
    Le32Injective(a.depth, b.depth);
    Le16Injective(a.code, b.code);
    assert [OutcomeByte(a.outcome)][0] == [OutcomeByte(b.outcome)][0];
    OutcomeInjective(a.outcome, b.outcome);
  }

  lemma {:induction false} OutcomeInjective(a: Outcome, b: Outcome)
    requires OutcomeByte(a) == OutcomeByte(b)
    ensures a == b
  {
  }

  lemma {:induction false} UnsolvedInjective(a: Unsolved, b: Unsolved)
    requires UnsolvedBytes(a) == UnsolvedBytes(b)
    ensures a == b
  {
    hide Le64, Le32, Le16;
    var a3, b3 := Le64(a.key) + Le64(a.pn) + Le64(a.dn), Le64(b.key) + Le64(b.pn) + Le64(b.dn);
    var a5, b5 := a3 + Le32(a.depth) + Le32(a.remaining), b3 + Le32(b.depth) + Le32(b.remaining);
    Split(a5 + Le16(a.code), Le64(a.work), b5 + Le16(b.code), Le64(b.work));
    Split(a5, Le16(a.code), b5, Le16(b.code));
    Split(a3 + Le32(a.depth), Le32(a.remaining), b3 + Le32(b.depth), Le32(b.remaining));
    Split(a3, Le32(a.depth), b3, Le32(b.depth));
    Split(Le64(a.key) + Le64(a.pn), Le64(a.dn), Le64(b.key) + Le64(b.pn), Le64(b.dn));
    Split(Le64(a.key), Le64(a.pn), Le64(b.key), Le64(b.pn));
    Le64Injective(a.key, b.key);
    Le64Injective(a.pn, b.pn);
    Le64Injective(a.dn, b.dn);
    Le32Injective(a.depth, b.depth);
    Le32Injective(a.remaining, b.remaining);
    Le16Injective(a.code, b.code);
    Le64Injective(a.work, b.work);
  }

  lemma {:induction false} NumbersInjective(a: Header, b: Header)
    requires Numbers(a) == Numbers(b) && a.fen == b.fen
    ensures a == b
  {
    hide Le64, Le32;
    var a2, b2 := Le32(a.sizeMb) + Le32(a.generation), Le32(b.sizeMb) + Le32(b.generation);
    Split(a2 + Le64(a.solvedCount), Le64(a.unsolvedCount), b2 + Le64(b.solvedCount), Le64(b.unsolvedCount));
    Split(a2, Le64(a.solvedCount), b2, Le64(b.solvedCount));
    Split(Le32(a.sizeMb), Le32(a.generation), Le32(b.sizeMb), Le32(b.generation));
    Le32Injective(a.sizeMb, b.sizeMb);
    Le32Injective(a.generation, b.generation);
    Le64Injective(a.solvedCount, b.solvedCount);
    Le64Injective(a.unsolvedCount, b.unsolvedCount);
  }

  lemma {:induction false} AllSolvedInjective(a: seq<Solved>, b: seq<Solved>, n: nat)
    requires n <= |a| && n <= |b| && AllSolved(a, n) == AllSolved(b, n)
    ensures a[..n] == b[..n]
  {
    hide SolvedBytes;
    if n > 0 {
      Split(AllSolved(a, n - 1), SolvedBytes(a[n - 1]), AllSolved(b, n - 1), SolvedBytes(b[n - 1]));
      AllSolvedInjective(a, b, n - 1);
      SolvedInjective(a[n - 1], b[n - 1]);
      assert a[..n] == a[..n - 1] + [a[n - 1]] && b[..n] == b[..n - 1] + [b[n - 1]];
    }
  }

  lemma {:induction false} AllUnsolvedInjective(a: seq<Unsolved>, b: seq<Unsolved>, n: nat)
    requires n <= |a| && n <= |b| && AllUnsolved(a, n) == AllUnsolved(b, n)
    ensures a[..n] == b[..n]
  {
    hide UnsolvedBytes;
    if n > 0 {
      Split(AllUnsolved(a, n - 1), UnsolvedBytes(a[n - 1]), AllUnsolved(b, n - 1), UnsolvedBytes(b[n - 1]));
      AllUnsolvedInjective(a, b, n - 1);
      UnsolvedInjective(a[n - 1], b[n - 1]);
      assert a[..n] == a[..n - 1] + [a[n - 1]] && b[..n] == b[..n - 1] + [b[n - 1]];
    }
  }

  /** Equal headers in front of equal streams. */
  lemma {:induction false} HeaderUnique(a: Header, b: Header, rest: seq<Byte>, more: seq<Byte>)
    requires NEWLINE !in a.fen && NEWLINE !in b.fen && HeaderBytes(a) + rest == HeaderBytes(b) + more
    ensures a == b && rest == more
  {
    HeaderParts(a, rest);
    HeaderParts(b, more);
    hide Numbers, Opening, HeaderBytes;
    Split(Opening(), a.fen + [NEWLINE] + (Numbers(a) + rest), Opening(), b.fen + [NEWLINE] + (Numbers(b) + more));
    LineUnique(a.fen, b.fen, Numbers(a) + rest, Numbers(b) + more);
    Split(Numbers(a), rest, Numbers(b), more);
    NumbersInjective(a, b);
  }

  lemma {:induction false} HeaderParts(h: Header, rest: seq<Byte>)
    ensures HeaderBytes(h) + rest == Opening() + (h.fen + [NEWLINE] + (Numbers(h) + rest))
  {
    hide Numbers, Opening;
    Assoc(Opening() + (h.fen + [NEWLINE]), Numbers(h), rest);
    Assoc(Opening(), h.fen + [NEWLINE], Numbers(h) + rest);
  }

  /** No written file is a prefix of another: counts are authoritative. */
  lemma {:induction false} PrefixFree(codes: nat -> bool, utf8: seq<Byte> -> bool, a: File, b: File, extra: seq<Byte>)
    requires FileOk(codes, utf8, a) && FileOk(codes, utf8, b) && Layout(a) + extra == Layout(b)
    ensures a == b && extra == []
  {
    hide HeaderBytes, AllSolved, AllUnsolved;
    var sa, ua := AllSolved(a.solved, |a.solved|), AllUnsolved(a.unsolved, |a.unsolved|);
    var sb, ub := AllSolved(b.solved, |b.solved|), AllUnsolved(b.unsolved, |b.unsolved|);
    Assoc(HeaderBytes(a.header) + sa, ua, extra);
    Assoc(HeaderBytes(a.header), sa, ua + extra);
    Assoc(HeaderBytes(b.header), sb, ub);
    HeaderUnique(a.header, b.header, sa + (ua + extra), sb + ub);
    Split(sa, ua + extra, sb, ub);
    assert |ua| == |ub|;
    assert extra == [];
    assert ua + extra == ua;
    AllSolvedInjective(a.solved, b.solved, |a.solved|);
    AllUnsolvedInjective(a.unsolved, b.unsolved, |a.unsolved|);
    assert a.solved[..|a.solved|] == a.solved && b.solved[..|b.solved|] == b.solved;
    assert a.unsolved[..|a.unsolved|] == a.unsolved && b.unsolved[..|b.unsolved|] == b.unsolved;
  }

  // ----- writing -----

  function SolvedOf(es: seq<Entry>, n: nat): seq<Solved>
    requires n <= |es|
  {
    if n == 0 then []
    else
      var e := es[n - 1];
      SolvedOf(es, n - 1) + if e.outcome.Some? then [Solved(e.key, e.outcome.value, e.depth, MoveCode(e.best))] else []
  }

  function UnsolvedOf(es: seq<Entry>, n: nat, generation: U32): seq<Unsolved>
    requires n <= |es|
  {
    if n == 0 then []
    else
      var e := es[n - 1];
      UnsolvedOf(es, n - 1, generation) +
      if e.outcome.None? && e.generation == generation
      then [Unsolved(e.key, e.pn, e.dn, e.depth, e.remaining, MoveCode(e.best), e.work)] else []
  }

  /** The file of a table: solved entries of all generations and unsolved ones of the current
      generation, in table order. */
  ghost predicate FileOf(es: seq<Entry>, fen: seq<Byte>, sizeMb: U32, generation: U32, f: File)
  {
    && f.solved == SolvedOf(es, |es|) && f.unsolved == UnsolvedOf(es, |es|, generation)
    && f.header.fen == fen && f.header.sizeMb == sizeMb && f.header.generation == generation
    && f.header.solvedCount == |f.solved| && f.header.unsolvedCount == |f.unsolved|
  }

  datatype Summary = Summary(solved: nat, unsolved: nat, bytes: nat)

  lemma {:induction false} CountsFit(es: seq<Entry>, n: nat, generation: U32)
    requires n <= |es|
    ensures |SolvedOf(es, n)| + |UnsolvedOf(es, n, generation)| <= n
  {
    if n > 0 {
      CountsFit(es, n - 1, generation);
    }
  }

  method CountEntries(es: seq<Entry>, generation: U32) returns (solved: nat, unsolved: nat)
    ensures solved == |SolvedOf(es, |es|)| && unsolved == |UnsolvedOf(es, |es|, generation)|
  {
    solved, unsolved := 0, 0;
    for i := 0 to |es|
      invariant solved == |SolvedOf(es, i)| && unsolved == |UnsolvedOf(es, i, generation)|
    {
      if es[i].outcome.Some? {
        solved := solved + 1;
      } else if es[i].generation == generation {
        unsolved := unsolved + 1;
      }
    }
  }

  method WriteSolved(es: seq<Entry>) returns (out: seq<Byte>, solved: nat)
    ensures var rs := SolvedOf(es, |es|); out == AllSolved(rs, |rs|) && solved == |rs|
  {
    hide Le64, Le32, Le16, OutcomeByte, MoveCode;
    out, solved := [], 0;
    ghost var rs: seq<Solved> := [];
    for i := 0 to |es|
      invariant rs == SolvedOf(es, i) && solved == |rs| && out == AllSolved(rs, |rs|)
    {
      var e := es[i];
      if e.outcome.Some? {
        ghost var r := Solved(e.key, e.outcome.value, e.depth, MoveCode(e.best));
        SolvedMore(rs, r);
        out := out + (Le64(e.key) + [OutcomeByte(e.outcome.value)] + Le32(e.depth) + Le16(MoveCode(e.best)));
        rs := rs + [r];
        solved := solved + 1;
      }
    }
  }

  method WriteUnsolved(es: seq<Entry>, generation: U32) returns (out: seq<Byte>, unsolved: nat)
    ensures var us := UnsolvedOf(es, |es|, generation); out == AllUnsolved(us, |us|) && unsolved == |us|
  {
    hide Le64, Le32, Le16, MoveCode;
    out, unsolved := [], 0;
    ghost var us: seq<Unsolved> := [];
    for i := 0 to |es|
      invariant us == UnsolvedOf(es, i, generation) && unsolved == |us| && out == AllUnsolved(us, |us|)
    {
      var e := es[i];
      if e.outcome.None? && e.generation == generation {
        ghost var r := Unsolved(e.key, e.pn, e.dn, e.depth, e.remaining, MoveCode(e.best), e.work);
        UnsolvedMore(us, r);
        out := out + (Le64(e.key) + Le64(e.pn) + Le64(e.dn) + Le32(e.depth) + Le32(e.remaining)
            + Le16(MoveCode(e.best)) + Le64(e.work));
        us := us + [r];
        unsolved := unsolved + 1;
      }
    }
  }

  /** Three passes over the table: count, solved, unsolved.  The summary counts every byte
      written. */
  method WriteSnapshot(es: seq<Entry>, fen: seq<Byte>, sizeMb: U32, generation: U32)
    returns (out: seq<Byte>, summary: Summary, ghost f: File)
    requires |es| < 0x1_0000_0000_0000_0000
    ensures FileOf(es, fen, sizeMb, generation, f) && out == Layout(f)
    ensures summary == Summary(|f.solved|, |f.unsolved|, |out|)
  {
    hide AllSolved, AllUnsolved, Numbers, SolvedOf, UnsolvedOf;
    var solvedCount, unsolvedCount := CountEntries(es, generation);
    CountsFit(es, |es|, generation);
    var h := Header(fen, sizeMb, generation, solvedCount, unsolvedCount);
    f := File(h, SolvedOf(es, |es|), UnsolvedOf(es, |es|, generation));
    out := Opening() + (fen + [NEWLINE]) + Numbers(h);
    var bytes, solved := WriteSolved(es);
    out := out + bytes;
    var more, unsolved := WriteUnsolved(es, generation);
    out := out + more;
    summary := Summary(solved, unsolved,
        8 + 1 + 1 + |fen| + 1 + 4 + 4 + 8 + 8 + solved * SOLVED_BYTES + unsolved * UNSOLVED_BYTES);
  }

  lemma {:induction false} SolvedPrefix(rs: seq<Solved>, r: Solved, n: nat)
    requires n <= |rs|
    ensures AllSolved(rs + [r], n) == AllSolved(rs, n)
  {
    hide SolvedBytes;
    if n > 0 {
      SolvedPrefix(rs, r, n - 1);
    }
  }

  lemma {:induction false} SolvedMore(rs: seq<Solved>, r: Solved)
    ensures AllSolved(rs + [r], |rs| + 1) == AllSolved(rs, |rs|) + SolvedBytes(r)
  {
    SolvedPrefix(rs, r, |rs|);
  }

  lemma {:induction false} UnsolvedPrefix(rs: seq<Unsolved>, r: Unsolved, n: nat)
    requires n <= |rs|
    ensures AllUnsolved(rs + [r], n) == AllUnsolved(rs, n)
  {
    hide UnsolvedBytes;
    if n > 0 {
      UnsolvedPrefix(rs, r, n - 1);
    }
  }

  lemma {:induction false} UnsolvedMore(rs: seq<Unsolved>, r: Unsolved)
    ensures AllUnsolved(rs + [r], |rs| + 1) == AllUnsolved(rs, |rs|) + UnsolvedBytes(r)
  {
    UnsolvedPrefix(rs, r, |rs|);
  }
}
