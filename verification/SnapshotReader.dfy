/** The strict snapshot reader. */
module SnapshotReader {
  import opened Game
  import opened Lists
  import opened Bytes
  import opened Snapshot

  datatype SolvedRecord = SolvedRecord(key: U64, outcome: Outcome, depth: U32, best: U16)

  datatype UnsolvedRecord = UnsolvedRecord(key: U64, pn: U64, dn: U64, depth: U32, remaining: U32, best: U16, work: U64)

  datatype Contents = Contents(header: Header, solved: seq<SolvedRecord>, unsolved: seq<UnsolvedRecord>)

  ghost predicate SolvedOk(codes: nat -> bool, r: Solved) { MoveOf(codes, r.code).Some? }

  ghost predicate UnsolvedOk(codes: nat -> bool, r: Unsolved) { MoveOf(codes, r.code).Some? }

  /** The stream continues with `b`. */
  ghost predicate Next(src: Source, b: seq<Byte>)
    reads src
  {
    src.Valid() && src.at + |b| <= |src.data| && src.data[src.at..src.at + |b|] == b
  }

  lemma {:induction false} NextParts(data: seq<Byte>, at: nat, a: seq<Byte>, b: seq<Byte>)
    requires at + |a + b| <= |data| && data[at..at + |a + b|] == a + b
    ensures data[at..at + |a|] == a && data[at + |a|..at + |a| + |b|] == b
  {
    var whole := data[at..at + |a + b|];
    assert whole[..|a|] == data[at..at + |a|] && whole[|a|..] == data[at + |a|..at + |a| + |b|];
    assert (a + b)[..|a|] == a && (a + b)[|a|..] == b;
  }

  /** Reading on: what was read so far followed by the next piece. */
  lemma {:induction false} ReadOn(data: seq<Byte>, from: nat, mid: nat, to: nat, a: seq<Byte>, b: seq<Byte>)
    requires from <= mid <= to <= |data| && data[from..mid] == a && data[mid..to] == b
    ensures data[from..to] == a + b
  {
  }

  /** A fixed-width number; `n` is what the stream holds there, if anything is known. */
  method Read64(src: Source, ghost n: Option<U64>) returns (r: Option<U64>)
    requires src.Valid() && (n.Some? ==> Next(src, Le64(n.value)))
    modifies src
    ensures src.Valid()
    ensures r.Some? ==> src.at == old(src.at) + 8 && src.data[old(src.at)..src.at] == Le64(r.value)
    ensures n.Some? ==> r == n
  {
    hide Le64;
    var b := src.Take(8);
    if b.None? {
      return None;
    }
    r := Some(Un64(b.value));
    if n.Some? {
      Le64Injective(r.value, n.value);
    }
  }

  method Read32(src: Source, ghost n: Option<U32>) returns (r: Option<U32>)
    requires src.Valid() && (n.Some? ==> Next(src, Le32(n.value)))
    modifies src
    ensures src.Valid()
    ensures r.Some? ==> src.at == old(src.at) + 4 && src.data[old(src.at)..src.at] == Le32(r.value)
    ensures n.Some? ==> r == n
  {
    hide Le32;
    var b := src.Take(4);
    if b.None? {
      return None;
    }
    r := Some(Un32(b.value));
    if n.Some? {
      Le32Injective(r.value, n.value);
    }
  }

  method Read16(src: Source, ghost n: Option<U16>) returns (r: Option<U16>)
    requires src.Valid() && (n.Some? ==> Next(src, Le16(n.value)))
    modifies src
    ensures src.Valid()
    ensures r.Some? ==> src.at == old(src.at) + 2 && src.data[old(src.at)..src.at] == Le16(r.value)
    ensures n.Some? ==> r == n
  {
    hide Le16;
    var b := src.Take(2);
    if b.None? {
      return None;
    }
    r := Some(Un16(b.value));
    if n.Some? {
      Le16Injective(r.value, n.value);
    }
  }

  lemma {:induction false} SolvedNext(data: seq<Byte>, at: nat, r: Solved)
    requires at + SOLVED_BYTES <= |data| && data[at..at + SOLVED_BYTES] == SolvedBytes(r)
    ensures data[at..at + 8] == Le64(r.key) && data[at + 8..at + 9] == [OutcomeByte(r.outcome)]
    ensures data[at + 9..at + 13] == Le32(r.depth) && data[at + 13..at + 15] == Le16(r.code)
  {
    hide Le64, Le32, Le16, OutcomeByte;
    var a1 := Le64(r.key) + [OutcomeByte(r.outcome)];
    NextParts(data, at, a1 + Le32(r.depth), Le16(r.code));
    NextParts(data, at, a1, Le32(r.depth));
    NextParts(data, at, Le64(r.key), [OutcomeByte(r.outcome)]);
  }

  lemma {:induction false} SolvedRead(data: seq<Byte>, at: nat, r: Solved)
    requires at + SOLVED_BYTES <= |data|
    requires data[at..at + 8] == Le64(r.key) && data[at + 8..at + 9] == [OutcomeByte(r.outcome)]
    requires data[at + 9..at + 13] == Le32(r.depth) && data[at + 13..at + 15] == Le16(r.code)
    ensures data[at..at + SOLVED_BYTES] == SolvedBytes(r)
  {
    hide Le64, Le32, Le16, OutcomeByte;
    ReadOn(data, at, at + 8, at + 9, Le64(r.key), [OutcomeByte(r.outcome)]);
    ReadOn(data, at, at + 9, at + 13, Le64(r.key) + [OutcomeByte(r.outcome)], Le32(r.depth));
    ReadOn(data, at, at + 13, at + 15, Le64(r.key) + [OutcomeByte(r.outcome)] + Le32(r.depth), Le16(r.code));
  }

  method ReadOutcome(src: Source, ghost o: Option<Outcome>) returns (r: Option<Outcome>)
    requires src.Valid() && (o.Some? ==> Next(src, [OutcomeByte(o.value)]))
    modifies src
    ensures src.Valid()
    ensures r.Some? ==> src.at == old(src.at) + 1 && src.data[old(src.at)..src.at] == [OutcomeByte(r.value)]
    ensures o.Some? ==> r == o
  {
    var one := src.Take(1);
    if one.None? {
      return None;
    }
    r := OutcomeOf(one.value[0]);
    if o.Some? {
      assert one.value == [OutcomeByte(o.value)];
      OutcomeInjective(r.value, o.value);
    }
  }

  /** One solved record; any malformed or missing byte refuses it. */
  method ReadSolved(src: Source, codes: nat -> bool, ghost want: Option<Solved>) returns (r: Option<Solved>)
    requires src.Valid() && (want.Some? ==> Next(src, SolvedBytes(want.value)) && SolvedOk(codes, want.value))
    modifies src
    ensures src.Valid()
    ensures r.Some? ==>
              && src.at == old(src.at) + SOLVED_BYTES && src.data[old(src.at)..src.at] == SolvedBytes(r.value)
              && SolvedOk(codes, r.value)
    ensures want.Some? ==> r == want
  {
    hide SolvedBytes, Le64, Le32, Le16, OutcomeByte;
    ghost var from := src.at;
    if want.Some? {
      SolvedNext(src.data, from, want.value);
    }
    var key := Read64(src, if want.Some? then Some(want.value.key) else None);
    if key.None? {
      return None;
    }
    var outcome := ReadOutcome(src, if want.Some? then Some(want.value.outcome) else None);
    if outcome.None? {
      return None;
    }
    var depth := Read32(src, if want.Some? then Some(want.value.depth) else None);
    if depth.None? {
      return None;
    }
    var code := Read16(src, if want.Some? then Some(want.value.code) else None);
    if code.None? || MoveOf(codes, code.value).None? {
      return None;
    }
    r := Some(Solved(key.value, outcome.value, depth.value, code.value));
    SolvedRead(src.data, from, r.value);
  }

  lemma {:induction false} UnsolvedNext(data: seq<Byte>, at: nat, r: Unsolved)
    requires at + UNSOLVED_BYTES <= |data| && data[at..at + UNSOLVED_BYTES] == UnsolvedBytes(r)
    ensures data[at..at + 8] == Le64(r.key) && data[at + 8..at + 16] == Le64(r.pn)
            && data[at + 16..at + 24] == Le64(r.dn)
    ensures data[at + 24..at + 28] == Le32(r.depth) && data[at + 28..at + 32] == Le32(r.remaining)
    ensures data[at + 32..at + 34] == Le16(r.code) && data[at + 34..at + 42] == Le64(r.work)
  {
    hide Le64, Le32, Le16;
    var a3 := Le64(r.key) + Le64(r.pn) + Le64(r.dn);
    var a5 := a3 + Le32(r.depth) + Le32(r.remaining);
    NextParts(data, at, a5 + Le16(r.code), Le64(r.work));
    NextParts(data, at, a5, Le16(r.code));
    NextParts(data, at, a3 + Le32(r.depth), Le32(r.remaining));
    NextParts(data, at, a3, Le32(r.depth));
    NextParts(data, at, Le64(r.key) + Le64(r.pn), Le64(r.dn));
    NextParts(data, at, Le64(r.key), Le64(r.pn));
  }

  lemma {:induction false} UnsolvedRead(data: seq<Byte>, at: nat, r: Unsolved)
    requires at + UNSOLVED_BYTES <= |data|
    requires data[at..at + 8] == Le64(r.key) && data[at + 8..at + 16] == Le64(r.pn)
             && data[at + 16..at + 24] == Le64(r.dn)
    requires data[at + 24..at + 28] == Le32(r.depth) && data[at + 28..at + 32] == Le32(r.remaining)
    requires data[at + 32..at + 34] == Le16(r.code) && data[at + 34..at + 42] == Le64(r.work)
    ensures data[at..at + UNSOLVED_BYTES] == UnsolvedBytes(r)
  {
    hide Le64, Le32, Le16;
    var a2 := Le64(r.key) + Le64(r.pn);
    var a3 := a2 + Le64(r.dn);
    ReadOn(data, at, at + 8, at + 16, Le64(r.key), Le64(r.pn));
    ReadOn(data, at, at + 16, at + 24, a2, Le64(r.dn));
    ReadOn(data, at, at + 24, at + 28, a3, Le32(r.depth));
    ReadOn(data, at, at + 28, at + 32, a3 + Le32(r.depth), Le32(r.remaining));
    ReadOn(data, at, at + 32, at + 34, a3 + Le32(r.depth) + Le32(r.remaining), Le16(r.code));
    ReadOn(data, at, at + 34, at + 42, a3 + Le32(r.depth) + Le32(r.remaining) + Le16(r.code), Le64(r.work));
  }

  method ReadUnsolved(src: Source, codes: nat -> bool, ghost want: Option<Unsolved>) returns (r: Option<Unsolved>)
    requires src.Valid() && (want.Some? ==> Next(src, UnsolvedBytes(want.value)) && UnsolvedOk(codes, want.value))
    modifies src
    ensures src.Valid()
    ensures r.Some? ==>
              && src.at == old(src.at) + UNSOLVED_BYTES && src.data[old(src.at)..src.at] == UnsolvedBytes(r.value)
              && UnsolvedOk(codes, r.value)
    ensures want.Some? ==> r == want
  {
    hide UnsolvedBytes, Le64, Le32, Le16;
    ghost var from := src.at;
    if want.Some? {
      UnsolvedNext(src.data, from, want.value);
    }
    var key := Read64(src, if want.Some? then Some(want.value.key) else None);
    if key.None? { return None; }
    var pn := Read64(src, if want.Some? then Some(want.value.pn) else None);
    if pn.None? { return None; }
    var dn := Read64(src, if want.Some? then Some(want.value.dn) else None);
    if dn.None? { return None; }
    var depth := Read32(src, if want.Some? then Some(want.value.depth) else None);
    if depth.None? { return None; }
    var remaining := Read32(src, if want.Some? then Some(want.value.remaining) else None);
    if remaining.None? { return None; }
    var code := Read16(src, if want.Some? then Some(want.value.code) else None);
    if code.None? || MoveOf(codes, code.value).None? { return None; }
    var work := Read64(src, if want.Some? then Some(want.value.work) else None);
    if work.None? { return None; }
    r := Some(Unsolved(key.value, pn.value, dn.value, depth.value, remaining.value, code.value, work.value));
    UnsolvedRead(src.data, from, r.value);
  }

  // ----- the record sections -----

  lemma {:induction false} SolvedPiece(rs: seq<Solved>, n: nat, i: nat)
    requires i < n <= |rs|
    ensures AllSolved(rs, n)[i * SOLVED_BYTES..(i + 1) * SOLVED_BYTES] == SolvedBytes(rs[i])
    decreases n
  {
    hide SolvedBytes;
    if i < n - 1 {
      SolvedPiece(rs, n - 1, i);
      var front := AllSolved(rs, n - 1);
      assert AllSolved(rs,
          n)[i * SOLVED_BYTES..(i + 1) * SOLVED_BYTES] == front[i * SOLVED_BYTES..(i + 1) * SOLVED_BYTES];
    }
  }

  lemma {:induction false} UnsolvedPiece(rs: seq<Unsolved>, n: nat, i: nat)
    requires i < n <= |rs|
    ensures AllUnsolved(rs, n)[i * UNSOLVED_BYTES..(i + 1) * UNSOLVED_BYTES] == UnsolvedBytes(rs[i])
    decreases n
  {
    hide UnsolvedBytes;
    if i < n - 1 {
      UnsolvedPiece(rs, n - 1, i);
      var front := AllUnsolved(rs, n - 1);
      assert AllUnsolved(rs,
          n)[i * UNSOLVED_BYTES..(i + 1) * UNSOLVED_BYTES] == front[i * UNSOLVED_BYTES..(i + 1) * UNSOLVED_BYTES];
    }
  }

  lemma {:induction false} PieceAt(data: seq<Byte>, from: nat, all: seq<Byte>, a: nat, b: nat)
    requires from + |all| <= |data| && data[from..from + |all|] == all && a <= b <= |all|
    ensures data[from + a..from + b] == all[a..b]
  {
    forall i | 0 <= i < b - a
      ensures data[from + a..from + b][i] == all[a..b][i]
    {
      assert data[from..from + |all|][a + i] == all[a + i];
    }
  }

  method ReadAllSolved(src: Source, codes: nat -> bool, count: nat, ghost want: Option<seq<Solved>>)
    returns (r: Option<seq<Solved>>)
    requires src.Valid()
    requires want.Some? ==>
        && |want.value| == count && Next(src, AllSolved(want.value, count))
        && forall i :: 0 <= i < count ==> SolvedOk(codes, want.value[i])
    modifies src
    ensures src.Valid()
    ensures r.Some? ==>
              && |r.value| == count && src.at == old(src.at) + count * SOLVED_BYTES
              && src.data[old(src.at)..src.at] == AllSolved(r.value, count)
                        && forall i :: 0 <= i < count ==> SolvedOk(codes, r.value[i])
    ensures want.Some? ==> r == want
  {
    hide SolvedBytes, AllSolved;
    ghost var from := src.at;
    var rs: seq<Solved> := [];
    NoSolved();
    for i := 0 to count
      invariant src.Valid() && |rs| == i && src.at == from + i * SOLVED_BYTES
                && src.data[from..src.at] == AllSolved(rs, i)
      invariant forall k :: 0 <= k < i ==> SolvedOk(codes, rs[k])
      invariant want.Some? ==> rs == want.value[..i]
    {
      ghost var at := src.at;
      if want.Some? {
        SolvedPiece(want.value, count, i);
        PieceAt(src.data, from, AllSolved(want.value, count), i * SOLVED_BYTES, (i + 1) * SOLVED_BYTES);
      }
      var one := ReadSolved(src, codes, if want.Some? then Some(want.value[i]) else None);
      if one.None? {
        return None;
      }
      SolvedMore(rs, one.value);
      ReadOn(src.data, from, at, src.at, AllSolved(rs, i), SolvedBytes(one.value));
      rs := rs + [one.value];
    }
    assert want.Some? ==> want.value[..count] == want.value;
    r := Some(rs);
  }

  lemma {:induction false} NoSolved()
    ensures AllSolved([], 0) == [] && AllUnsolved([], 0) == []
  {
  }

  method ReadAllUnsolved(src: Source, codes: nat -> bool, count: nat, ghost want: Option<seq<Unsolved>>)
    returns (r: Option<seq<Unsolved>>)
    requires src.Valid()
    requires want.Some? ==>
        && |want.value| == count && Next(src, AllUnsolved(want.value, count))
        && forall i :: 0 <= i < count ==> UnsolvedOk(codes, want.value[i])
    modifies src
    ensures src.Valid()
    ensures r.Some? ==>
              && |r.value| == count && src.at == old(src.at) + count * UNSOLVED_BYTES
              && src.data[old(src.at)..src.at] == AllUnsolved(r.value, count)
                        && forall i :: 0 <= i < count ==> UnsolvedOk(codes, r.value[i])
    ensures want.Some? ==> r == want
  {
    hide UnsolvedBytes, AllUnsolved;
    ghost var from := src.at;
    var rs: seq<Unsolved> := [];
    NoSolved();
    for i := 0 to count
      invariant src.Valid() && |rs| == i && src.at == from + i * UNSOLVED_BYTES
                && src.data[from..src.at] == AllUnsolved(rs, i)
      invariant forall k :: 0 <= k < i ==> UnsolvedOk(codes, rs[k])
      invariant want.Some? ==> rs == want.value[..i]
    {
      ghost var at := src.at;
      if want.Some? {
        UnsolvedPiece(want.value, count, i);
        PieceAt(src.data, from, AllUnsolved(want.value, count), i * UNSOLVED_BYTES, (i + 1) * UNSOLVED_BYTES);
      }
      var one := ReadUnsolved(src, codes, if want.Some? then Some(want.value[i]) else None);
      if one.None? {
        return None;
      }
      UnsolvedMore(rs, one.value);
      ReadOn(src.data, from, at, src.at, AllUnsolved(rs, i), UnsolvedBytes(one.value));
      rs := rs + [one.value];
    }
    assert want.Some? ==> want.value[..count] == want.value;
    r := Some(rs);
  }

  // ----- the header -----

  lemma {:induction false} NumbersNext(data: seq<Byte>, at: nat, h: Header)
    requires at + 24 <= |data| && data[at..at + 24] == Numbers(h)
    ensures data[at..at + 4] == Le32(h.sizeMb) && data[at + 4..at + 8] == Le32(h.generation)
    ensures data[at + 8..at + 16] == Le64(h.solvedCount) && data[at + 16..at + 24] == Le64(h.unsolvedCount)
  {
    hide Le64, Le32;
    var a2 := Le32(h.sizeMb) + Le32(h.generation);
    NextParts(data, at, a2 + Le64(h.solvedCount), Le64(h.unsolvedCount));
    NextParts(data, at, a2, Le64(h.solvedCount));
    NextParts(data, at, Le32(h.sizeMb), Le32(h.generation));
  }

  lemma {:induction false} NumbersRead(data: seq<Byte>, at: nat, h: Header)
    requires at + 24 <= |data|
    requires data[at..at + 4] == Le32(h.sizeMb) && data[at + 4..at + 8] == Le32(h.generation)
    requires data[at + 8..at + 16] == Le64(h.solvedCount) && data[at + 16..at + 24] == Le64(h.unsolvedCount)
    ensures data[at..at + 24] == Numbers(h)
  {
    hide Le64, Le32;
    ReadOn(data, at, at + 4, at + 8, Le32(h.sizeMb), Le32(h.generation));
    ReadOn(data, at, at + 8, at + 16, Le32(h.sizeMb) + Le32(h.generation), Le64(h.solvedCount));
    ReadOn(data, at, at + 16, at + 24, Le32(h.sizeMb) + Le32(h.generation) + Le64(h.solvedCount),
        Le64(h.unsolvedCount));
  }

  method ReadNumbers(src: Source, fen: seq<Byte>, ghost want: Option<Header>) returns (r: Option<Header>)
    requires src.Valid() && (want.Some? ==> Next(src, Numbers(want.value)) && want.value.fen == fen)
    modifies src
    ensures src.Valid()
    ensures r.Some? ==>
              src.at == old(src.at) + 24 && src.data[old(src.at)..src.at] == Numbers(r.value) && r.value.fen == fen
    ensures want.Some? ==> r == want
  {
    hide Numbers, Le64, Le32;
    ghost var from := src.at;
    if want.Some? {
      NumbersNext(src.data, from, want.value);
    }
    var sizeMb := Read32(src, if want.Some? then Some(want.value.sizeMb) else None);
    if sizeMb.None? { return None; }
    var generation := Read32(src, if want.Some? then Some(want.value.generation) else None);
    if generation.None? { return None; }
    var solvedCount := Read64(src, if want.Some? then Some(want.value.solvedCount) else None);
    if solvedCount.None? { return None; }
    var unsolvedCount := Read64(src, if want.Some? then Some(want.value.unsolvedCount) else None);
    if unsolvedCount.None? { return None; }
    r := Some(Header(fen, sizeMb.value, generation.value, solvedCount.value, unsolvedCount.value));
    NumbersRead(src.data, from, r.value);
  }

  /** Magic, version, flags, FEN line and numbers. */
  method ReadHeader(src: Source, utf8: seq<Byte> -> bool, ghost want: Option<Header>) returns (r: Option<Header>)
    requires src.Valid() && src.at == 0
    requires want.Some? ==> Next(src, HeaderBytes(want.value)) && NEWLINE !in want.value.fen && utf8(want.value.fen)
    modifies src
    ensures src.Valid()
    ensures r.Some? ==>
              && src.at == |HeaderBytes(r.value)| && src.data[..src.at] == HeaderBytes(r.value)
              && NEWLINE !in r.value.fen && utf8(r.value.fen)
    ensures want.Some? ==> r == want
  {
    hide Numbers, HeaderBytes;
    if want.Some? {
      HeaderNext(src.data, want.value);
    }
    var magic := src.Take(8);
    if magic.None? || magic.value != MAGIC { return None; }
    var version := src.Take(1);
    if version.None? || version.value[0] != VERSION { return None; }
    var flags := src.Take(1);
    if flags.None? || flags.value[0] != FLAGS { return None; }
    assert src.data[..10] == Opening();
    if want.Some? {
      var fen := want.value.fen;
      assert src.data[10..11 + |fen|] == fen + [NEWLINE];
      assert src.data[10 + |fen|] == src.data[10..11 + |fen|][|fen|];
      assert src.data[10..][|fen|] == NEWLINE;
    }
    var line := src.TakeLine();
    if line.None? { return None; }
    if want.Some? {
      FirstLine(src.data, 10, want.value.fen, line.value);
    }
    if !utf8(line.value) { return None; }
    ghost var at := src.at;
    r := ReadNumbers(src, line.value, want);
    if r.Some? {
      HeaderRead(src.data, r.value);
    }
  }

  lemma {:induction false} HeaderNext(data: seq<Byte>, h: Header)
    requires |HeaderBytes(h)| <= |data| && data[..|HeaderBytes(h)|] == HeaderBytes(h)
    ensures |data| >= 35 + |h.fen| && data[..8] == MAGIC && data[8] == VERSION && data[9] == FLAGS
    ensures data[10..11 + |h.fen|] == h.fen + [NEWLINE]
    ensures data[11 + |h.fen|..35 + |h.fen|] == Numbers(h)
  {
    hide Numbers;
    NextParts(data, 0, Opening() + (h.fen + [NEWLINE]), Numbers(h));
    NextParts(data, 0, Opening(), h.fen + [NEWLINE]);
    assert data[..10] == MAGIC + [VERSION, FLAGS];
    assert data[..10][..8] == data[..8] && data[..10][8] == data[8] && data[..10][9] == data[9];
  }

  lemma {:induction false} HeaderRead(data: seq<Byte>, h: Header)
    requires |data| >= 35 + |h.fen| && data[..10] == Opening() && data[10..11 + |h.fen|] == h.fen + [NEWLINE]
    requires data[11 + |h.fen|..35 + |h.fen|] == Numbers(h)
    ensures data[..|HeaderBytes(h)|] == HeaderBytes(h)
  {
    hide Numbers, Opening;
    ReadOn(data, 0, 10, 11 + |h.fen|, Opening(), h.fen + [NEWLINE]);
    ReadOn(data, 0, 11 + |h.fen|, 35 + |h.fen|, Opening() + (h.fen + [NEWLINE]), Numbers(h));
  }

  /** The line read is the line written. */
  lemma {:induction false} FirstLine(data: seq<Byte>, at: nat, a: seq<Byte>, b: seq<Byte>)
    requires at + |a| + 1 <= |data| && at + |b| + 1 <= |data| && NEWLINE !in a && NEWLINE !in b
    requires data[at..at + |a| + 1] == a + [NEWLINE] && data[at..at + |b| + 1] == b + [NEWLINE]
    ensures a == b
  {
    ReadOn(data, at, at + |a| + 1, |data|, a + [NEWLINE], data[at + |a| + 1..]);
    ReadOn(data, at, at + |b| + 1, |data|, b + [NEWLINE], data[at + |b| + 1..]);
    LineUnique(a, b, data[at + |a| + 1..], data[at + |b| + 1..]);
  }

  // ----- the whole file -----

  function DecodeSolved(codes: nat -> bool, r: Solved): SolvedRecord
  {
    var mv := MoveOf(codes, r.code);
    SolvedRecord(r.key, r.outcome, r.depth, if mv.Some? then mv.value else NO_MOVE)
  }

  function DecodeUnsolved(codes: nat -> bool, r: Unsolved): UnsolvedRecord
  {
    var mv := MoveOf(codes, r.code);
    UnsolvedRecord(r.key, r.pn, r.dn, r.depth, r.remaining, if mv.Some? then mv.value else NO_MOVE, r.work)
  }

  function Decode(codes: nat -> bool, f: File): Contents
  {
    Contents(f.header, seq(|f.solved|, i requires 0 <= i < |f.solved| => DecodeSolved(codes, f.solved[i])),
             seq(|f.unsolved|, i requires 0 <= i < |f.unsolved| => DecodeUnsolved(codes, f.unsolved[i])))
  }

  ghost function Records(solved: seq<Solved>, unsolved: seq<Unsolved>): seq<Byte>
  {
    AllSolved(solved, |solved|) + AllUnsolved(unsolved, |unsolved|)
  }

  ghost predicate RecordsOk(codes: nat -> bool, h: Header, solved: seq<Solved>, unsolved: seq<Unsolved>)
  {
    && |solved| == h.solvedCount && |unsolved| == h.unsolvedCount
    && (forall i :: 0 <= i < |solved| ==> SolvedOk(codes, solved[i]))
    && (forall i :: 0 <= i < |unsolved| ==> UnsolvedOk(codes, unsolved[i]))
  }

  /** Both record sections. */
  method ReadSections(src: Source, codes: nat -> bool, h: Header, ghost want: Option<File>)
    returns (r: Option<(seq<Solved>, seq<Unsolved>)>)
    requires src.Valid()
    requires want.Some? ==>
        && Next(src, Records(want.value.solved, want.value.unsolved))
        && RecordsOk(codes, h, want.value.solved, want.value.unsolved)
    modifies src
    ensures src.Valid()
    ensures r.Some? ==>
              && RecordsOk(codes, h, r.value.0, r.value.1) && old(src.at) <= src.at
              && src.data[old(src.at)..src.at] == Records(r.value.0, r.value.1)
    ensures want.Some? ==>
        && r == Some((want.value.solved, want.value.unsolved))
        && src.at == old(src.at) + |Records(want.value.solved, want.value.unsolved)|
  {
    hide AllSolved, AllUnsolved, SolvedOk, UnsolvedOk;
    ghost var from := src.at;
    if want.Some? {
      NextParts(src.data, from, AllSolved(want.value.solved, |want.value.solved|),
          AllUnsolved(want.value.unsolved, |want.value.unsolved|));
    }
    var solved := ReadAllSolved(src, codes, h.solvedCount, if want.Some? then Some(want.value.solved) else None);
    if solved.None? {
      return None;
    }
    ghost var mid := src.at;
    var unsolved := ReadAllUnsolved(src, codes, h.unsolvedCount,
        if want.Some? then Some(want.value.unsolved) else None);
    if unsolved.None? {
      return None;
    }
    ReadOn(src.data, from, mid, src.at, AllSolved(solved.value, h.solvedCount),
        AllUnsolved(unsolved.value, h.unsolvedCount));
    r := Some((solved.value, unsolved.value));
  }

  /** Everything but the check that nothing follows. */
  method ReadFile(src: Source, codes: nat -> bool, utf8: seq<Byte> -> bool, ghost want: Option<File>)
    returns (r: Option<File>)
    requires src.Valid() && src.at == 0
             && (want.Some? ==> FileOk(codes, utf8, want.value) && src.data == Layout(want.value))
    modifies src
    ensures src.Valid()
    ensures r.Some? ==> FileOk(codes, utf8, r.value) && src.data[..src.at] == Layout(r.value)
    ensures want.Some? ==> r == want && src.at == |src.data|
  {
    hide HeaderBytes, Records, RecordsOk, Layout, FileOk;
    if want.Some? {
      LayoutParts(src.data, want.value);
      FilePartsOk(codes, utf8, want.value);
    }
    var h := ReadHeader(src, utf8, if want.Some? then Some(want.value.header) else None);
    if h.None? {
      return None;
    }
    ghost var a := src.at;
    var records := ReadSections(src, codes, h.value, want);
    if records.None? {
      return None;
    }
    r := Some(File(h.value, records.value.0, records.value.1));
    WholeLayout(src.data[..src.at], a, r.value);
    FilePartsOk(codes, utf8, r.value);
  }

  /** `data` is the written form of the well-formed file `f`. */
  ghost predicate Lays(codes: nat -> bool, utf8: seq<Byte> -> bool, f: File, data: seq<Byte>)
  {
    FileOk(codes, utf8, f) && data == Layout(f)
  }

  /** Read a file and look for trailing bytes; `want` is the file the bytes lay out, if there
      is one. */
  method ReadWhole(data: seq<Byte>, codes: nat -> bool, utf8: seq<Byte> -> bool, ghost want: Option<File>)
    returns (r: Option<File>)
    requires want.Some? ==> Lays(codes, utf8, want.value, data)
    ensures r.Some? ==> Lays(codes, utf8, r.value, data)
    ensures want.Some? ==> r == want
  {
    hide Layout, FileOk;
    var src := new Source(data);
    var file := ReadFile(src, codes, utf8, want);
    if file.None? {
      return None;
    }
    ghost var end := src.at;
    var trailing := src.Take(1);
    if trailing.Some? {
      return None;
    }
    assert data[..end] == data;
    r := file;
  }

  /** Read a whole snapshot: exactly the layouts of well-formed files are accepted, with nothing
      after the last record. */
  method ReadSnapshot(data: seq<Byte>, codes: nat -> bool, utf8: seq<Byte> -> bool)
    returns (r: Option<Contents>, ghost f: Option<File>)
    ensures r.Some? <==> exists x: File :: Lays(codes, utf8, x, data)
    ensures r.Some? <==> f.Some?
    ensures r.Some? ==> Lays(codes, utf8, f.value, data) && r.value == Decode(codes, f.value)
  {
    hide Lays, Decode;
    ghost var want: Option<File> := None;
    if exists x: File :: Lays(codes, utf8, x, data) {
      var x: File :| Lays(codes, utf8, x, data);
      want := Some(x);
    }
    var file := ReadWhole(data, codes, utf8, want);
    if file.None? {
      return None, None;
    }
    r, f := Some(Decode(codes, file.value)), file;
  }

  lemma {:induction false} FilePartsOk(codes: nat -> bool, utf8: seq<Byte> -> bool, f: File)
    ensures FileOk(codes, utf8, f) <==>
              NEWLINE !in f.header.fen && utf8(f.header.fen) && RecordsOk(codes, f.header, f.solved, f.unsolved)
  {
    hide MoveOf;
  }

  lemma {:induction false} LayoutParts(data: seq<Byte>, f: File)
    requires data == Layout(f)
    ensures var hb, rb := HeaderBytes(f.header), Records(f.solved, f.unsolved);
            |data| == |hb| + |rb| && data[..|hb|] == hb && data[|hb|..|hb| + |rb|] == rb
  {
    hide HeaderBytes, AllSolved, AllUnsolved;
    var hb, sb, ub := HeaderBytes(f.header), AllSolved(f.solved, |f.solved|), AllUnsolved(f.unsolved, |f.unsolved|);
    Assoc(hb, sb, ub);
    assert data[0..0 + |hb + (sb + ub)|] == data;
    NextParts(data, 0, hb, sb + ub);
  }

  lemma {:induction false} WholeLayout(data: seq<Byte>, a: nat, f: File)
    requires a <= |data| && data[..a] == HeaderBytes(f.header) && data[a..|data|] == Records(f.solved, f.unsolved)
    ensures data == Layout(f)
  {
    hide HeaderBytes, AllSolved, AllUnsolved;
    ReadOn(data, 0, a, |data|, HeaderBytes(f.header), Records(f.solved, f.unsolved));
    Assoc(HeaderBytes(f.header), AllSolved(f.solved, |f.solved|), AllUnsolved(f.unsolved, |f.unsolved|));
    assert data[0..|data|] == data;
  }

  // ----- what the format promises -----

  /** The records a table's snapshot reads back as: every solved entry of any generation and
      every unsolved one of the current generation, in table order, with its own move. */
  function Expected(es: seq<Entry>, n: nat): seq<SolvedRecord>
    requires n <= |es|
  {
    if n == 0 then []
    else
      var e := es[n - 1];
      Expected(es, n - 1) + if e.outcome.Some? then [SolvedRecord(e.key, e.outcome.value, e.depth, e.best)] else []
  }

  function ExpectedOpen(es: seq<Entry>, n: nat, generation: U32): seq<UnsolvedRecord>
    requires n <= |es|
  {
    if n == 0 then []
    else
      var e := es[n - 1];
      ExpectedOpen(es, n - 1, generation) +
      if e.outcome.None? && e.generation == generation
      then [UnsolvedRecord(e.key, e.pn, e.dn, e.depth, e.remaining, e.best, e.work)] else []
  }

  /** Moves stored in a table are well formed, and the sentinel is not one of them. */
  ghost predicate MovesOk(codes: nat -> bool, es: seq<Entry>)
  {
    forall i :: 0 <= i < |es| ==> es[i].best == NO_MOVE || (codes(es[i].best) && es[i].best != NONE_CODE)
  }

  lemma {:induction false} MoveBack(codes: nat -> bool, mv: U16)
    requires mv == NO_MOVE || (codes(mv) && mv != NONE_CODE)
    ensures MoveOf(codes, MoveCode(mv)) == Some(mv)
  {
  }

  lemma {:induction false} SolvedBack(codes: nat -> bool, es: seq<Entry>, n: nat)
    requires n <= |es| && MovesOk(codes, es)
    ensures var rs := SolvedOf(es, n);
            && (forall i :: 0 <= i < |rs| ==> SolvedOk(codes, rs[i]))
            && seq(|rs|, i requires 0 <= i < |rs| => DecodeSolved(codes, rs[i])) == Expected(es, n)
  {
    hide MoveOf, MoveCode;
    if n > 0 {
      SolvedBack(codes, es, n - 1);
      MoveBack(codes, es[n - 1].best);
    }
  }

  lemma {:induction false} UnsolvedBack(codes: nat -> bool, es: seq<Entry>, n: nat, generation: U32)
    requires n <= |es| && MovesOk(codes, es)
    ensures var rs := UnsolvedOf(es, n, generation);
            && (forall i :: 0 <= i < |rs| ==> UnsolvedOk(codes, rs[i]))
            && seq(|rs|, i requires 0 <= i < |rs| => DecodeUnsolved(codes, rs[i])) == ExpectedOpen(es, n, generation)
  {
    hide MoveOf, MoveCode;
    if n > 0 {
      UnsolvedBack(codes, es, n - 1, generation);
      MoveBack(codes, es[n - 1].best);
    }
  }

  /** The file of a table decodes to the table's own records. */
  lemma {:induction false} TableBack(es: seq<Entry>, fen: seq<Byte>, sizeMb: U32, generation: U32, codes: nat -> bool,
                                     utf8: seq<Byte> -> bool, file: File)
    requires MovesOk(codes, es) && NEWLINE !in fen && utf8(fen) && FileOf(es, fen, sizeMb, generation, file)
    ensures FileOk(codes, utf8, file) && |Layout(file)| > 0
    ensures var c := Decode(codes, file);
            && c.header.fen == fen && c.header.sizeMb == sizeMb && c.header.generation == generation
            && c.solved == Expected(es, |es|) && c.unsolved == ExpectedOpen(es, |es|, generation)
  {
    hide SolvedOf, UnsolvedOf, DecodeSolved, DecodeUnsolved, Expected, ExpectedOpen, MoveOf;
    SolvedBack(codes, es, |es|);
    UnsolvedBack(codes, es, |es|, generation);
    FilePartsOk(codes, utf8, file);
  }

  /** Write a table, cut or extend the bytes, read them: the unchanged bytes give back exactly
      the table's records, every proper prefix and every extension is refused. */
  method WriteThenRead(es: seq<Entry>, fen: seq<Byte>, sizeMb: U32, generation: U32, codes: nat -> bool,
          utf8: seq<Byte> -> bool, cut: nat, extra: seq<Byte>)
    returns (whole: Option<Contents>, shorter: Option<Contents>, longer: Option<Contents>)
    requires |es| < 0x1_0000_0000_0000_0000 && MovesOk(codes, es) && NEWLINE !in fen && utf8(fen) && extra != []
    ensures whole.Some? && whole.value.header.fen == fen && whole.value.header.sizeMb == sizeMb
            && whole.value.header.generation == generation
    ensures whole.Some? && whole.value.solved == Expected(es, |es|)
            && whole.value.unsolved == ExpectedOpen(es, |es|, generation)
    ensures shorter.None? && longer.None?
  {
    hide HeaderBytes, Layout, FileOk, FileOf, Decode, MovesOk, Expected, ExpectedOpen, SolvedOf, UnsolvedOf;
    var out, summary, file := WriteSnapshot(es, fen, sizeMb, generation);
    TableBack(es, fen, sizeMb, generation, codes, utf8, file);
    whole := ReadBack(out, codes, utf8, file);
    shorter := ReadOther(out, out[..if cut < |out| then cut else |out| - 1], codes, utf8, file);
    longer := ReadOther(out, out + extra, codes, utf8, file);
  }

  /** A written file is read back as itself. */
  method ReadBack(out: seq<Byte>, codes: nat -> bool, utf8: seq<Byte> -> bool, ghost file: File)
    returns (r: Option<Contents>)
    requires FileOk(codes, utf8, file) && out == Layout(file)
    ensures r == Some(Decode(codes, file))
  {
    hide *;
    LaysIntro(codes, utf8, file, out);
    ghost var f;
    r, f := ReadSnapshot(out, codes, utf8);
    LaysParts(codes, utf8, f.value, out);
    assert Layout(f.value) + [] == Layout(file);
    PrefixFree(codes, utf8, f.value, file, []);
  }

  lemma {:induction false} LaysIntro(codes: nat -> bool, utf8: seq<Byte> -> bool, f: File, data: seq<Byte>)
    requires FileOk(codes, utf8, f) && data == Layout(f)
    ensures Lays(codes, utf8, f, data)
  {
  }

  lemma {:induction false} LaysParts(codes: nat -> bool, utf8: seq<Byte> -> bool, f: File, data: seq<Byte>)
    requires Lays(codes, utf8, f, data)
    ensures FileOk(codes, utf8, f) && data == Layout(f)
  {
  }

  /** A proper prefix or extension of a written file is refused. */
  method ReadOther(out: seq<Byte>, other: seq<Byte>, codes: nat -> bool, utf8: seq<Byte> -> bool, ghost file: File)
    returns (r: Option<Contents>)
    requires FileOk(codes, utf8, file) && out == Layout(file) && (other < out || out < other)
    ensures r.None?
  {
    hide *;
    ghost var f;
    r, f := ReadSnapshot(other, codes, utf8);
    if r.Some? {
      LaysParts(codes, utf8, f.value, other);
      if other < out {
        assert other + out[|other|..] == out;
        PrefixFree(codes, utf8, f.value, file, out[|other|..]);
      } else {
        assert out + other[|out|..] == other;
        PrefixFree(codes, utf8, file, f.value, other[|out|..]);
      }
    }
  }

  // ----- what the reader forgets -----

  /** The file a writer makes of what was read. */
  function Encoded(c: Contents): File
  {
    File(c.header, seq(|c.solved|, i requires 0 <= i < |c.solved| => EncodeSolved(c.solved[i])),
         seq(|c.unsolved|, i requires 0 <= i < |c.unsolved| => EncodeUnsolved(c.unsolved[i])))
  }

  function EncodeSolved(r: SolvedRecord): Solved { Solved(r.key, r.outcome, r.depth, MoveCode(r.best)) }

  function EncodeUnsolved(r: UnsolvedRecord): Unsolved
  {
    Unsolved(r.key, r.pn, r.dn, r.depth, r.remaining, MoveCode(r.best), r.work)
  }

  /** No record spells the null move by its ordinary code. */
  predicate NoZeroCode(f: File)
  {
    && (forall i :: 0 <= i < |f.solved| ==> f.solved[i].code != NO_MOVE)
    && (forall i :: 0 <= i < |f.unsolved| ==> f.unsolved[i].code != NO_MOVE)
  }

  /** A code comes back from its move unless it is 0. */
  lemma {:induction false} CodeBackIff(codes: nat -> bool, code: U16)
    requires MoveOf(codes, code).Some?
    ensures MoveOf(codes, MoveCode(MoveOf(codes, code).value)).Some?
    ensures MoveCode(MoveOf(codes, code).value) == code <==> code != NO_MOVE
  {
  }

  lemma {:induction false} EncodedParts(codes: nat -> bool, utf8: seq<Byte> -> bool, f: File)
    requires FileOk(codes, utf8, f)
    ensures FileOk(codes, utf8, Encoded(Decode(codes, f))) && (Encoded(Decode(codes, f)) == f <==> NoZeroCode(f))
  {
    var e := Encoded(Decode(codes, f));
    forall i | 0 <= i < |f.solved|
      ensures MoveOf(codes, e.solved[i].code).Some? && (e.solved[i] == f.solved[i] <==> f.solved[i].code != NO_MOVE)
    {
      CodeBackIff(codes, f.solved[i].code);
    }
    forall i | 0 <= i < |f.unsolved|
      ensures MoveOf(codes, e.unsolved[i].code).Some?
      ensures e.unsolved[i] == f.unsolved[i] <==> f.unsolved[i].code != NO_MOVE
    {
      CodeBackIff(codes, f.unsolved[i].code);
    }
    hide MoveOf, MoveCode;
    if NoZeroCode(f) {
      assert e.solved == f.solved && e.unsolved == f.unsolved;
    }
  }

  /** Writing what was read gives the same bytes if and only if no record has code 0. */
  lemma {:induction false} RewriteIff(codes: nat -> bool, utf8: seq<Byte> -> bool, f: File)
    requires FileOk(codes, utf8, f)
    ensures Layout(Encoded(Decode(codes, f))) == Layout(f) <==> NoZeroCode(f)
  {
    var e := Encoded(Decode(codes, f));
    EncodedParts(codes, utf8, f);
    hide FileOk, Layout, Encoded, Decode, NoZeroCode;
    if Layout(e) == Layout(f) {
      assert Layout(e) + [] == Layout(f);
      PrefixFree(codes, utf8, e, f, []);
    }
  }

  /** Some record holds the null move. */
  predicate HasNull(f: File)
  {
    || (exists i :: 0 <= i < |f.solved| && (f.solved[i].code == NO_MOVE || f.solved[i].code == NONE_CODE))
    || (exists i :: 0 <= i < |f.unsolved| && (f.unsolved[i].code == NO_MOVE || f.unsolved[i].code == NONE_CODE))
  }

  ghost predicate Twins(codes: nat -> bool, utf8: seq<Byte> -> bool, f: File, g: File)
  {
    FileOk(codes, utf8, g) && g != f && Decode(codes, g) == Decode(codes, f)
  }

  function Respelt(code: U16): U16 { if code == NO_MOVE then NONE_CODE else NO_MOVE }

  lemma {:induction false} RespeltTwin(codes: nat -> bool, utf8: seq<Byte> -> bool, f: File) returns (g: File)
    requires FileOk(codes, utf8, f) && codes(NO_MOVE) && HasNull(f)
    ensures Twins(codes, utf8, f, g)
  {
    if i :| 0 <= i < |f.solved| && (f.solved[i].code == NO_MOVE || f.solved[i].code == NONE_CODE) {
      var r := f.solved[i].(code := Respelt(f.solved[i].code));
      g := f.(solved := f.solved[i := r]);
      assert g.solved[i] != f.solved[i] && DecodeSolved(codes, r) == DecodeSolved(codes, f.solved[i]);
      assert Decode(codes, g).solved == Decode(codes, f).solved;
    } else {
      var i :| 0 <= i < |f.unsolved| && (f.unsolved[i].code == NO_MOVE || f.unsolved[i].code == NONE_CODE);
      var r := f.unsolved[i].(code := Respelt(f.unsolved[i].code));
      g := f.(unsolved := f.unsolved[i := r]);
      assert g.unsolved[i] != f.unsolved[i] && DecodeUnsolved(codes, r) == DecodeUnsolved(codes, f.unsolved[i]);
      assert Decode(codes, g).unsolved == Decode(codes, f).unsolved;
    }
  }

  lemma {:induction false} TwinNull(codes: nat -> bool, utf8: seq<Byte> -> bool, f: File, g: File)
    requires FileOk(codes, utf8, f) && Twins(codes, utf8, f, g)
    ensures codes(NO_MOVE) && HasNull(f)
  {
    var a, b := Decode(codes, f), Decode(codes, g);
    assert f.header == g.header;
    forall i | 0 <= i < |f.solved|
      ensures DecodeSolved(codes, f.solved[i]) == DecodeSolved(codes, g.solved[i])
    {
      assert a.solved[i] == b.solved[i];
    }
    forall i | 0 <= i < |f.unsolved|
      ensures DecodeUnsolved(codes, f.unsolved[i]) == DecodeUnsolved(codes, g.unsolved[i])
    {
      assert a.unsolved[i] == b.unsolved[i];
    }
    if f.solved != g.solved {
      var i :| 0 <= i < |f.solved| && f.solved[i] != g.solved[i];
    } else {
      var i :| 0 <= i < |f.unsolved| && f.unsolved[i] != g.unsolved[i];
    }
  }

  /** Another file reads as the same contents if and only if some record holds the null move and code 0 is
      a well-formed code. */
  lemma {:induction false} TwinIff(codes: nat -> bool, utf8: seq<Byte> -> bool, f: File)
    requires FileOk(codes, utf8, f)
    ensures (exists g :: Twins(codes, utf8, f, g)) <==> codes(NO_MOVE) && HasNull(f)
  {
    hide FileOk, Twins, HasNull;
    if codes(NO_MOVE) && HasNull(f) {
      var g := RespeltTwin(codes, utf8, f);
    }
    if g :| Twins(codes, utf8, f, g) {
      TwinNull(codes, utf8, f, g);
    }
  }
}
