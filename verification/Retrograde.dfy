/** The three-man endgame table: packed child references in compressed rows, and the in-place
    value iteration to a fixpoint. */
module Retrograde {
  import opened Game

  /** Value codes of the table bytes. */
  type Code = c: int | 0 <= c <= 4
  const UNKNOWN: Code := 0
  const LOSS: Code := 1
  const DRAW: Code := 2
  const WIN: Code := 3
  const INVALID: Code := 4

  // ----- entry indices -----

  const ENTRIES := 2 * 2 * 64 * 64 * 64

  function Index(strong: nat, stm: nat, sk: nat, wk: nat, xs: nat): nat
  {
    (((strong * 2 + stm) * 64 + sk) * 64 + wk) * 64 + xs
  }

  function DecodeIndex(i: nat): (nat, nat, nat, nat, nat)
  {
    (i / 262_144 / 2, i / 262_144 % 2, i / 4096 % 64, i / 64 % 64, i % 64)
  }

  predicate InRange(strong: nat, stm: nat, sk: nat, wk: nat, xs: nat)
  {
    strong < 2 && stm < 2 && sk < 64 && wk < 64 && xs < 64
  }

  lemma {:induction false} DigitOut(a: nat, x: nat)
    requires x < 64
    ensures (a * 64 + x) / 64 == a && (a * 64 + x) % 64 == x
  {
  }

  lemma {:induction false} NestedDigits(i: nat)
    ensures i / 4096 == i / 64 / 64 && i / 262_144 == i / 64 / 64 / 64
  {
  }

  /** A placement comes back from its index. */
  lemma {:induction false} IndexDecodes(strong: nat, stm: nat, sk: nat, wk: nat, xs: nat)
    requires InRange(strong, stm, sk, wk, xs)
    ensures Index(strong, stm, sk, wk, xs) < ENTRIES
    ensures DecodeIndex(Index(strong, stm, sk, wk, xs)) == (strong, stm, sk, wk, xs)
  {
    var a := strong * 2 + stm;
    var b := a * 64 + sk;
    var c := b * 64 + wk;
    var i := c * 64 + xs;
    DigitOut(c, xs);
    DigitOut(b, wk);
    DigitOut(a, sk);
    NestedDigits(i);
    assert a / 2 == strong && a % 2 == stm;
  }

  lemma {:induction false} DecodeIndexes(i: nat)
    requires i < ENTRIES
    ensures var (strong, stm, sk, wk, xs) := DecodeIndex(i);
            InRange(strong, stm, sk, wk, xs) && Index(strong, stm, sk, wk, xs) == i
  {
    NestedDigits(i);
  }

  /** Indices and placements are in bijection: a number is the index of a placement exactly when the
      placement is what it decodes to. */
  lemma {:induction false} IndexBijection(i: nat, strong: nat, stm: nat, sk: nat, wk: nat, xs: nat)
    requires i < ENTRIES && InRange(strong, stm, sk, wk, xs)
    ensures Index(strong, stm, sk, wk, xs) < ENTRIES
    ensures Index(strong, stm, sk, wk, xs) == i <==> DecodeIndex(i) == (strong, stm, sk, wk, xs)
  {
    IndexDecodes(strong, stm, sk, wk, xs);
    DecodeIndexes(i);
    hide Index, DecodeIndex;
  }

  // ----- packed child references -----

  const TAG_CONST := 0x8000_0000
  const TAG_CROSS := 0x4000_0000
  const CLASS_UNIT := 0x1000_0000

  datatype Ref = Const(v: int) | Cross(class_: int, at: int) | Same(at: int)

  /** The two tag bits, then the class bits, then the entry. */
  function Unpack(r: U32): Ref
  {
    if r / TAG_CONST % 2 != 0 then Const(r % 256)
    else if r / TAG_CROSS % 2 != 0 then Cross(r / CLASS_UNIT % 4, r % CLASS_UNIT)
    else Same(r)
  }

  function PackConst(v: Code): U32 { TAG_CONST + v }

  /** `TAG_CROSS | class << 28 | at`, where class 4 would fall on the tag bit itself. */
  function PackCross(class_: nat, at: nat): U32
    requires class_ <= 4 && at < CLASS_UNIT
  {
    (if class_ == 4 then TAG_CROSS else TAG_CROSS + class_ * CLASS_UNIT) + at
  }

  lemma {:induction false} ConstUnpacks(v: Code)
    ensures Unpack(PackConst(v)) == Const(v)
  {
  }

  lemma {:induction false} SameUnpacks(at: nat)
    requires at < ENTRIES
    ensures Unpack(at) == Same(at)
  {
  }

  /** Cross references come back exactly for the four classes a pawn can promote to; the pawn
      class itself has no code. */
  lemma {:induction false} CrossUnpacks(class_: nat, at: nat)
    requires class_ <= 4 && at < CLASS_UNIT
    ensures Unpack(PackCross(class_, at)) == Cross(class_, at) <==> class_ < 4
  {
    if class_ < 4 {
      var r := PackCross(class_, at);
      assert r == (4 + class_) * CLASS_UNIT + at;
      assert r / CLASS_UNIT == 4 + class_ && r % CLASS_UNIT == at;
      assert r / TAG_CROSS == 1;
    } else {
      assert PackCross(class_, at) / CLASS_UNIT == 4;
    }
  }

  // ----- rows -----

  /** Compressed rows: entry `i` owns `children[off[i]..off[i + 1]]`. */
  datatype Rows = Rows(off: seq<nat>, children: seq<U32>)
  {
    ghost predicate Ok(n: nat)
    {
      |off| == n + 1 && forall i :: 0 <= i < n ==> Has(i)
    }

    predicate Has(i: nat) { i + 1 < |off| && off[i] <= off[i + 1] <= |children| }

    function Of(i: nat): seq<U32>
      requires Has(i)
    {
      children[off[i]..off[i + 1]]
    }
  }

  /** The children of the first `n` entries, one list after the other. */
  function Laid(value: seq<Code>, lists: seq<seq<U32>>, n: nat): seq<U32>
    requires n <= |value| == |lists|
  {
    if n == 0 then [] else Laid(value, lists, n - 1) + if value[n - 1] == UNKNOWN then lists[n - 1] else []
  }

  lemma {:induction false} LaidPrefix(value: seq<Code>, lists: seq<seq<U32>>, i: nat, n: nat)
    requires i <= n <= |value| == |lists|
    ensures Laid(value, lists, i) <= Laid(value, lists, n)
  {
    if i < n {
      LaidPrefix(value, lists, i, n - 1);
    }
  }

  lemma {:induction false} RowsLaid(value: seq<Code>, lists: seq<seq<U32>>, rows: Rows)
    requires |value| == |lists| && |rows.off| == |value| + 1 && rows.children == Laid(value, lists, |value|)
    requires forall j :: 0 <= j <= |value| ==> rows.off[j] == |Laid(value, lists, j)|
    ensures rows.Ok(|value|)
    ensures forall i :: 0 <= i < |value| ==> rows.Of(i) == if value[i] == UNKNOWN then lists[i] else []
  {
    forall i: nat | i < |value|
      ensures rows.Has(i) && rows.Of(i) == if value[i] == UNKNOWN then lists[i] else []
    {
      LaidRow(value, lists, rows, i);
    }
  }

  lemma {:induction false} LaidRow(value: seq<Code>, lists: seq<seq<U32>>, rows: Rows, i: nat)
    requires |value| == |lists| && |rows.off| == |value| + 1 && i < |value|
             && rows.children == Laid(value, lists, |value|)
    requires rows.off[i] == |Laid(value, lists, i)| && rows.off[i + 1] == |Laid(value, lists, i + 1)|
    ensures rows.Has(i) && rows.Of(i) == if value[i] == UNKNOWN then lists[i] else []
  {
    var own := if value[i] == UNKNOWN then lists[i] else [];
    LaidPrefix(value, lists, i + 1, |value|);
    var upTo := Laid(value, lists, i + 1);
    assert upTo == Laid(value, lists, i) + own;
    assert rows.children[..|upTo|] == upTo;
    assert rows.Of(i) == upTo[|Laid(value, lists, i)|..];
  }

  // ----- what the table is about -----

  /** One finished table's byte per entry. */
  type Finished = seq<Code>

  /** The value a reference has while the table stands at `value`. */
  function RefValue(r: U32, value: seq<Code>, deps: seq<Finished>): Code
  {
    match Unpack(r)
    case Const(v) => if v <= 4 then v else INVALID
    case Cross(c, at) => if c < |deps| && at < |deps[c]| then deps[c][at] else INVALID
    case Same(at) => if at < |value| then value[at] else INVALID
  }

  predicate Decides(v: Code, o: Outcome) { (v == WIN && o == Win) || (v == LOSS && o == Loss) }

  /** Reference `r` stands for position `q`: another entry of this table, or a byte that is
      the finished value of `q`. */
  ghost predicate Names(g: Rules, pos: nat -> Position, base: seq<Code>, deps: seq<Finished>, r: U32, q: Position)
  {
    if Unpack(r).Same? then Unpack(r).at < |base| && base[Unpack(r).at] != INVALID && pos(Unpack(r).at) == q
    else
      forall o: Outcome :: o != Draw ==> (Decides(RefValue(r, [], deps), o) <==> Holds(g, q, o))
  }

  /** Row `i` lists the positions after every legal move. */
  ghost predicate RowOk(g: Rules, pos: nat -> Position, base: seq<Code>, deps: seq<Finished>, row: seq<U32>, i: nat)
  {
    && |row| == |g.legal(pos(i))|
    && forall k :: 0 <= k < |row| ==> Names(g, pos, base, deps, row[k], g.play(pos(i), g.legal(pos(i))[k]))
  }

  /** The table starts out right: terminal entries carry their static value, open entries are
      unknown and their rows list their replies. */
  ghost predicate TableOk(g: Rules, pos: nat -> Position, base: seq<Code>, deps: seq<Finished>, rows: Rows)
  {
    && rows.Ok(|base|)
    && forall i :: 0 <= i < |base| && base[i] != INVALID ==> EntryOk(g, pos, base, deps, rows, i)
  }

  ghost predicate EntryOk(g: Rules, pos: nat -> Position, base: seq<Code>, deps: seq<Finished>, rows: Rows, i: nat)
    requires rows.Ok(|base|) && i < |base|
  {
    && (base[i] == UNKNOWN <==> g.terminal(pos(i)).None?)
    && (base[i] == WIN <==> g.terminal(pos(i)) == Some(Win))
    && (base[i] == LOSS <==> g.terminal(pos(i)) == Some(Loss))
    && (base[i] == UNKNOWN ==> RowOk(g, pos, base, deps, rows.Of(i), i))
  }

  // ----- the sweep's invariant -----

  /** Decided entries never change, and only unknown ones get decided. */
  ghost predicate Extends(base: seq<Code>, value: seq<Code>)
  {
    && |value| == |base|
    && forall i :: 0 <= i < |base| ==>
         (base[i] != UNKNOWN ==> value[i] == base[i]) && (base[i] == UNKNOWN ==> value[i] in {UNKNOWN, WIN, LOSS})
  }

  ghost predicate SoundAt(g: Rules, pos: nat -> Position, value: seq<Code>, i: nat)
    requires i < |value|
  {
    forall o: Outcome :: Decides(value[i], o) ==> Holds(g, pos(i), o)
  }

  /** Every decision made so far is true. */
  ghost predicate Sound(g: Rules, pos: nat -> Position, base: seq<Code>, value: seq<Code>)
  {
    |value| == |base| && forall i :: 0 <= i < |base| && base[i] != INVALID ==> SoundAt(g, pos, value, i)
  }

  /** Entry `i` is decided if its result is forced within `n` plies. */
  ghost predicate DecidedWithin(g: Rules, pos: nat -> Position, value: seq<Code>, i: nat, n: nat)
    requires i < |value|
  {
    forall o: Outcome :: Forced(g, pos(i), o, n) ==> Decides(value[i], o)
  }

  ghost predicate Complete(g: Rules, pos: nat -> Position, base: seq<Code>, value: seq<Code>, n: nat)
  {
    |value| == |base| && forall i :: 0 <= i < |base| && base[i] != INVALID ==> DecidedWithin(g, pos, value, i, n)
  }

  /** What one entry's row says: a loss to move to, or nothing but wins. */
  function RowVerdict(row: seq<U32>, value: seq<Code>, deps: seq<Finished>): (v: Code)
  {
    if row == [] then UNKNOWN
    else if exists k :: 0 <= k < |row| && RefValue(row[k], value, deps) == LOSS then WIN
    else if forall k :: 0 <= k < |row| ==> RefValue(row[k], value, deps) == WIN then LOSS
    else UNKNOWN
  }

  /** A reference's value is true, and known once its position is decided within `n`. */
  lemma {:induction false} RefTrue(g: Rules, pos: nat -> Position, base: seq<Code>, value: seq<Code>,
          deps: seq<Finished>, r: U32, q: Position, o: Outcome)
    requires Names(g, pos, base, deps, r, q) && Sound(g, pos, base, value) && Decides(RefValue(r, value, deps), o)
    ensures Holds(g, q, o)
  {
    if Unpack(r).Same? {
      assert SoundAt(g, pos, value, Unpack(r).at);
    }
  }

  lemma {:induction false} RefKnown(g: Rules, pos: nat -> Position, base: seq<Code>, value: seq<Code>,
          deps: seq<Finished>, r: U32, q: Position, o: Outcome, n: nat)
    requires Names(g, pos, base, deps, r, q) && Complete(g, pos, base, value, n) && Forced(g, q, o, n)
    ensures Decides(RefValue(r, value, deps), o)
  {
    if Unpack(r).Same? {
      assert DecidedWithin(g, pos, value, Unpack(r).at, n);
    } else {
      ForcedDecisive(g, q, o, n);
      assert Holds(g, q, o);
    }
  }

  lemma {:induction false} ForcedDecisive(g: Rules, p: Position, o: Outcome, n: nat)
    requires Forced(g, p, o, n)
    ensures o != Draw
  {
  }

  /** A verdict is true. */
  lemma {:induction false} VerdictSound(g: Rules, pos: nat -> Position, base: seq<Code>, value: seq<Code>,
          deps: seq<Finished>, row: seq<U32>, i: nat, o: Outcome)
    requires g.terminal(pos(i)).None? && RowOk(g, pos, base, deps, row, i) && Sound(g, pos, base, value)
    requires Decides(RowVerdict(row, value, deps), o)
    ensures Holds(g, pos(i), o)
  {
    var p := pos(i);
    if o == Win {
      var k :| 0 <= k < |row| && RefValue(row[k], value, deps) == LOSS;
      RefTrue(g, pos, base, value, deps, row[k], g.play(p, g.legal(p)[k]), Loss);
      WinByReply(g, p, g.legal(p)[k]);
    } else {
      forall k | 0 <= k < |row|
        ensures Holds(g, g.play(p, g.legal(p)[k]), Win)
      {
        RefTrue(g, pos, base, value, deps, row[k], g.play(p, g.legal(p)[k]), Win);
      }
      LossByReplies(g, p);
    }
  }

  /** What is forced within one ply more than the table is complete for, the verdict finds. */
  lemma {:induction false} VerdictComplete(g: Rules, pos: nat -> Position, base: seq<Code>, value: seq<Code>,
          deps: seq<Finished>, row: seq<U32>, i: nat, o: Outcome, n: nat)
    requires g.terminal(pos(i)).None? && RowOk(g, pos, base, deps, row, i) && Complete(g, pos, base, value, n)
    requires Forced(g, pos(i), o, n + 1)
    ensures Decides(RowVerdict(row, value, deps), o)
  {
    var p := pos(i);
    if o == Win {
      var m :| m in g.legal(p) && Forced(g, g.play(p, m), Loss, n);
      var k :| 0 <= k < |row| && g.legal(p)[k] == m;
      RefKnown(g, pos, base, value, deps, row[k], g.play(p, m), Loss, n);
    } else {
      forall k | 0 <= k < |row|
        ensures RefValue(row[k], value, deps) == WIN
      {
        RefKnown(g, pos, base, value, deps, row[k], g.play(p, g.legal(p)[k]), Win, n);
      }
    }
  }
}
