/** Generating the tables: base values, packed rows, and the five classes in order. */
module RetrogradeBuild {
  import opened Game
  import opened Retrograde
  import opened RetrogradeSweep

  /** Where a child board belongs: it has ended, or it is a placement of some class. */
  datatype Spot = Ended(v: Code) | Placed(class_: nat, stm: nat, sk: nat, wk: nat, xs: nat)

  /** The boards: a position for every class and placement, which placements are representable, and how a
      child board is read off. */
  datatype World = World(g: Rules, place: (nat, nat, nat, nat, nat, nat) -> Position,
                         valid: (nat, nat, nat, nat) -> bool, look: (nat, Position) -> Spot)

  const CLASSES := 5
  const PAWN := 4

  type Placement = (nat, nat, nat, nat, nat)

  function Place(w: World, class_: nat, d: Placement): Position { w.place(class_, d.0, d.1, d.2, d.3, d.4) }

  function PosOf(w: World, class_: nat, i: nat): Position { Place(w, class_, DecodeIndex(i)) }

  function StrongOf(i: nat): nat { DecodeIndex(i).0 }

  function CodeOf(o: Outcome): Code
  {
    match o
    case Win => WIN
    case Loss => LOSS
    case Draw => DRAW
  }

  /** What a placement starts with. */
  function StartCode(w: World, class_: nat, d: Placement): Code
  {
    if !w.valid(class_, d.2, d.3, d.4) then INVALID
    else match w.g.terminal(Place(w, class_, d))
      case Some(o) => CodeOf(o)
      case None => UNKNOWN
  }

  function BaseCode(w: World, class_: nat, i: nat): Code { StartCode(w, class_, DecodeIndex(i)) }

  /** A child is read off correctly: it has ended as said, or is the placement named, of the same class or,
      for pawns, of one of the four classes before. */
  ghost predicate LookOk(w: World, class_: nat, strong: nat, q: Position)
  {
    match w.look(strong, q)
    case Ended(v) => w.g.terminal(q).Some? && v == CodeOf(w.g.terminal(q).value)
    case Placed(cid, stm, sk, wk, xs) =>
      && InRange(strong, stm, sk, wk, xs) && w.valid(cid, sk, wk, xs) && w.place(cid, strong, stm, sk, wk, xs) == q
      && (cid == class_ || (class_ == PAWN && cid < PAWN))
  }

  ghost predicate EntryLooks(w: World, class_: nat, i: nat)
  {
    var p := PosOf(w, class_, i);
    forall k :: 0 <= k < |w.g.legal(p)| ==> LookOk(w, class_, StrongOf(i), w.g.play(p, w.g.legal(p)[k]))
  }

  ghost predicate WorldOk(w: World)
  {
    w.g.Sane()
    && forall class_: nat, i: nat :: class_ < CLASSES && i < ENTRIES && BaseCode(w, class_, i) == UNKNOWN ==>
         EntryLooks(w, class_, i)
  }

  /** The packed reference of one child. */
  function Resolve(w: World, class_: nat, strong: nat, q: Position): U32
    requires class_ < CLASSES && LookOk(w, class_, strong, q)
  {
    match w.look(strong, q)
    case Ended(v) => PackConst(v)
    case Placed(cid, stm, sk, wk, xs) =>
      IndexDecodes(strong, stm, sk, wk, xs);
      var at := Index(strong, stm, sk, wk, xs);
      if cid == class_ then at else PackCross(cid, at)
  }

  /** The references of an open entry, in move order. */
  function Refs(w: World, class_: nat, i: nat): (r: seq<U32>)
    requires class_ < CLASSES && EntryLooks(w, class_, i)
    ensures |r| == |w.g.legal(PosOf(w, class_, i))|
  {
    var p := PosOf(w, class_, i);
    seq(|w.g.legal(p)|, k requires 0 <= k < |w.g.legal(p)| =>
      Resolve(w, class_, StrongOf(i), w.g.play(p, w.g.legal(p)[k])))
  }

  // ----- the nested loops count through the indices -----

  lemma {:induction false} NextIndex(strong: nat, stm: nat, sk: nat, wk: nat, xs: nat)
    ensures Index(strong, stm, sk, wk, xs + 1) == Index(strong, stm, sk, wk, xs) + 1
    ensures Index(strong, stm, sk, wk + 1, 0) == Index(strong, stm, sk, wk, 64)
    ensures Index(strong, stm, sk + 1, 0, 0) == Index(strong, stm, sk, 64, 0)
    ensures Index(strong, stm + 1, 0, 0, 0) == Index(strong, stm, 64, 0, 0)
    ensures Index(strong + 1, 0, 0, 0, 0) == Index(strong, 2, 0, 0, 0)
    ensures Index(0, 0, 0, 0, 0) == 0 && Index(2, 0, 0, 0, 0) == ENTRIES
  {
  }

  /** The entries below `n` have their base code, the others are untouched. */
  ghost predicate BaseUpTo(w: World, class_: nat, value: array<Code>, n: nat)
    reads value
  {
    value.Length == ENTRIES
    && forall j :: 0 <= j < ENTRIES ==> value[j] == if j < n then BaseCode(w, class_, j) else UNKNOWN
  }

  /** One entry of phase 0. */
  method SetBase(w: World, class_: nat, value: array<Code>, d: Placement, i: nat)
    requires BaseUpTo(w, class_, value, i) && i < ENTRIES && DecodeIndex(i) == d
    modifies value
    ensures BaseUpTo(w, class_, value, i + 1)
  {
    hide DecodeIndex, CodeOf;
    if !w.valid(class_, d.2, d.3, d.4) {
      value[i] := INVALID;
    } else {
      var t := w.g.terminal(Place(w, class_, d));
      if t.Some? {
        value[i] := CodeOf(t.value);
      }
    }
  }

  /** The placements with one square for the strong king. */
  method BaseKing(w: World, class_: nat, value: array<Code>, strong: nat, stm: nat, sk: nat)
    requires strong < 2 && stm < 2 && sk < 64 && BaseUpTo(w, class_, value, Index(strong, stm, sk, 0, 0))
    modifies value
    ensures BaseUpTo(w, class_, value, Index(strong, stm, sk + 1, 0, 0))
  {
    hide Index, BaseUpTo, DecodeIndex;
    for wk := 0 to 64
      invariant BaseUpTo(w, class_, value, Index(strong, stm, sk, wk, 0))
    {
      for xs := 0 to 64
        invariant BaseUpTo(w, class_, value, Index(strong, stm, sk, wk, xs))
      {
        IndexDecodes(strong, stm, sk, wk, xs);
        SetBase(w, class_, value, (strong, stm, sk, wk, xs), Index(strong, stm, sk, wk, xs));
        NextIndex(strong, stm, sk, wk, xs);
      }
      NextIndex(strong, stm, sk, wk, 0);
    }
    NextIndex(strong, stm, sk, 0, 0);
  }

  /** The placements with one strong side. */
  method BaseStrong(w: World, class_: nat, value: array<Code>, strong: nat)
    requires strong < 2 && BaseUpTo(w, class_, value, Index(strong, 0, 0, 0, 0))
    modifies value
    ensures BaseUpTo(w, class_, value, Index(strong + 1, 0, 0, 0, 0))
  {
    hide Index, BaseUpTo, DecodeIndex;
    for stm := 0 to 2
      invariant BaseUpTo(w, class_, value, Index(strong, stm, 0, 0, 0))
    {
      for sk := 0 to 64
        invariant BaseUpTo(w, class_, value, Index(strong, stm, sk, 0, 0))
      {
        BaseKing(w, class_, value, strong, stm, sk);
      }
      NextIndex(strong, stm, 0, 0, 0);
    }
    NextIndex(strong, 0, 0, 0, 0);
  }

  method Blank(w: World, class_: nat) returns (value: array<Code>)
    ensures fresh(value) && BaseUpTo(w, class_, value, 0)
  {
    hide BaseCode;
    value := new Code[ENTRIES](_ => UNKNOWN);
  }

  /** Phase 0: every placement, in index order. */
  method BuildBase(w: World, class_: nat) returns (value: array<Code>)
    ensures fresh(value) && BaseUpTo(w, class_, value, ENTRIES)
  {
    hide Index, BaseUpTo, DecodeIndex;
    NextIndex(0, 0, 0, 0, 0);
    value := Blank(w, class_);
    for strong := 0 to 2
      invariant BaseUpTo(w, class_, value, Index(strong, 0, 0, 0, 0))
    {
      BaseStrong(w, class_, value, strong);
    }
  }

  // ----- phase 1: the rows -----

  /** The list of every entry. */
  function Lists(w: World, class_: nat): (r: seq<seq<U32>>)
    requires WorldOk(w) && class_ < CLASSES
    ensures |r| == ENTRIES
  {
    seq(ENTRIES, i requires 0 <= i < ENTRIES => if BaseCode(w, class_, i) == UNKNOWN then Refs(w, class_, i) else [])
  }

  lemma {:induction false} ListAt(w: World, class_: nat, i: nat)
    requires WorldOk(w) && class_ < CLASSES && i < ENTRIES && BaseCode(w, class_, i) == UNKNOWN
    ensures EntryLooks(w, class_, i) && Lists(w, class_)[i] == Refs(w, class_, i)
  {
    hide BaseCode, EntryLooks, Refs;
  }

  ghost predicate BaseTable(w: World, class_: nat, base: seq<Code>)
  {
    |base| == ENTRIES && forall j :: 0 <= j < ENTRIES ==> base[j] == BaseCode(w, class_, j)
  }

  /** The rows of the first `n` entries are laid out. */
  ghost predicate RowsUpTo(w: World, class_: nat, base: seq<Code>, rows: Rows, n: nat)
    requires WorldOk(w) && class_ < CLASSES && |base| == ENTRIES && n <= ENTRIES
  {
    && |rows.off| == n && rows.children == Laid(base, Lists(w, class_), n)
    && forall j :: 0 <= j < n ==> rows.off[j] == |Laid(base, Lists(w, class_), j)|
  }

  /** The children of one board, in move order. */
  method ResolveAll(w: World, class_: nat, i: nat, d: Placement) returns (refs: seq<U32>)
    requires class_ < CLASSES && i < ENTRIES && DecodeIndex(i) == d && EntryLooks(w, class_, i)
    ensures refs == Refs(w, class_, i)
  {
    hide DecodeIndex, Resolve, LookOk;
    var p := Place(w, class_, d);
    var moves := w.g.legal(p);
    refs := [];
    for mi := 0 to |moves|
      invariant |refs| == mi && forall k :: 0 <= k < mi ==> refs[k] == Refs(w, class_, i)[k]
    {
      assert LookOk(w, class_, StrongOf(i), w.g.play(PosOf(w, class_, i), moves[mi]));
      refs := refs + [Resolve(w, class_, d.0, w.g.play(p, moves[mi]))];
    }
  }

  lemma {:induction false} NextRow(w: World, class_: nat, base: seq<Code>, rows: Rows, i: nat, own: seq<U32>)
    requires WorldOk(w) && class_ < CLASSES && |base| == ENTRIES && i < ENTRIES && RowsUpTo(w, class_, base, rows, i)
    requires own == if base[i] == UNKNOWN then Lists(w, class_)[i] else []
    ensures RowsUpTo(w, class_, base, Rows(rows.off + [|rows.children|], rows.children + own), i + 1)
  {
    hide Lists, WorldOk;
  }

  /** One entry of phase 1. */
  method AddRow(w: World, class_: nat, base: seq<Code>, rows: Rows, d: Placement, i: nat) returns (r: Rows)
    requires WorldOk(w) && class_ < CLASSES && BaseTable(w, class_, base) && i < ENTRIES && DecodeIndex(i) == d
    requires RowsUpTo(w, class_, base, rows, i)
    ensures RowsUpTo(w, class_, base, r, i + 1)
  {
    assert base[i] == BaseCode(w, class_, i);
    hide DecodeIndex, BaseCode, RowsUpTo, WorldOk, BaseTable, Lists, Refs, EntryLooks;
    var own: seq<U32> := [];
    if base[i] == UNKNOWN {
      ListAt(w, class_, i);
      own := ResolveAll(w, class_, i, d);
    }
    NextRow(w, class_, base, rows, i, own);
    r := Rows(rows.off + [|rows.children|], rows.children + own);
  }

  method RowsKing(w: World, class_: nat, base: seq<Code>, rows: Rows, strong: nat, stm: nat, sk: nat)
    returns (r: Rows)
    requires WorldOk(w) && class_ < CLASSES && BaseTable(w, class_, base) && strong < 2 && stm < 2 && sk < 64
    requires RowsFrom(w, class_, base, rows, Index(strong, stm, sk, 0, 0))
    ensures RowsFrom(w, class_, base, r, Index(strong, stm, sk + 1, 0, 0))
  {
    hide Index, BaseTable, DecodeIndex, WorldOk, RowsUpTo;
    r := rows;
    for wk := 0 to 64
      invariant RowsFrom(w, class_, base, r, Index(strong, stm, sk, wk, 0))
    {
      for xs := 0 to 64
        invariant RowsFrom(w, class_, base, r, Index(strong, stm, sk, wk, xs))
      {
        IndexDecodes(strong, stm, sk, wk, xs);
        r := AddRow(w, class_, base, r, (strong, stm, sk, wk, xs), Index(strong, stm, sk, wk, xs));
        NextIndex(strong, stm, sk, wk, xs);
      }
      NextIndex(strong, stm, sk, wk, 0);
    }
    NextIndex(strong, stm, sk, 0, 0);
  }

  ghost predicate RowsFrom(w: World, class_: nat, base: seq<Code>, rows: Rows, n: nat)
    requires WorldOk(w) && class_ < CLASSES
  {
    |base| == ENTRIES && n <= ENTRIES && RowsUpTo(w, class_, base, rows, n)
  }

  /** The rows of one strong side. */
  method RowsStrong(w: World, class_: nat, base: seq<Code>, rows: Rows, strong: nat) returns (r: Rows)
    requires WorldOk(w) && class_ < CLASSES && BaseTable(w, class_, base) && strong < 2
    requires RowsFrom(w, class_, base, rows, Index(strong, 0, 0, 0, 0))
    ensures RowsFrom(w, class_, base, r, Index(strong + 1, 0, 0, 0, 0))
  {
    hide Index, BaseTable, WorldOk, RowsFrom;
    r := rows;
    for stm := 0 to 2
      invariant RowsFrom(w, class_, base, r, Index(strong, stm, 0, 0, 0))
    {
      for sk := 0 to 64
        invariant RowsFrom(w, class_, base, r, Index(strong, stm, sk, 0, 0))
      {
        r := RowsKing(w, class_, base, r, strong, stm, sk);
      }
      NextIndex(strong, stm, 0, 0, 0);
    }
    NextIndex(strong, 0, 0, 0, 0);
  }

  /** All entries, in index order. */
  method LayRows(w: World, class_: nat, base: seq<Code>) returns (rows: Rows)
    requires WorldOk(w) && class_ < CLASSES && BaseTable(w, class_, base)
    ensures RowsFrom(w, class_, base, rows, Index(2, 0, 0, 0, 0))
  {
    hide *;
    rows := Start(w, class_, base);
    for strong := 0 to 2
      invariant RowsFrom(w, class_, base, rows, Index(strong, 0, 0, 0, 0))
    {
      rows := RowsStrong(w, class_, base, rows, strong);
    }
  }

  method Start(w: World, class_: nat, base: seq<Code>) returns (rows: Rows)
    requires WorldOk(w) && class_ < CLASSES && BaseTable(w, class_, base)
    ensures RowsFrom(w, class_, base, rows, Index(0, 0, 0, 0, 0))
  {
    rows := Rows([], []);
    NoRows(w, class_, base, rows, Index(0, 0, 0, 0, 0));
  }

  lemma {:induction false} NoRows(w: World, class_: nat, base: seq<Code>, rows: Rows, n: nat)
    requires WorldOk(w) && class_ < CLASSES && BaseTable(w, class_, base) && rows == Rows([], []) && n == 0
    ensures RowsFrom(w, class_, base, rows, n)
  {
    hide WorldOk, Lists, BaseCode;
  }

  /** Phase 1: the rows of every entry, in index order. */
  method BuildRows(w: World, class_: nat, base: seq<Code>) returns (rows: Rows)
    requires WorldOk(w) && class_ < CLASSES && BaseTable(w, class_, base)
    ensures RowsAre(w, class_, base, rows)
  {
    hide *;
    var laid := LayRows(w, class_, base);
    FirstIndex();
    AllLaid(w, class_, base, laid);
    rows := Closed(laid);
  }

  lemma {:induction false} FirstIndex()
    ensures Index(0, 0, 0, 0, 0) == 0 && Index(2, 0, 0, 0, 0) == ENTRIES
  {
  }

  /** The last offset. */
  function Closed(rows: Rows): Rows { Rows(rows.off + [|rows.children|], rows.children) }

  /** Every open entry has its own list, every other entry an empty row. */
  ghost predicate RowsAre(w: World, class_: nat, base: seq<Code>, rows: Rows)
    requires WorldOk(w) && class_ < CLASSES
  {
    && |base| == ENTRIES && rows.Ok(ENTRIES)
    && forall i :: 0 <= i < ENTRIES ==> rows.Of(i) == if base[i] == UNKNOWN then Lists(w, class_)[i] else []
  }

  lemma {:induction false} AllLaid(w: World, class_: nat, base: seq<Code>, laid: Rows)
    requires WorldOk(w) && class_ < CLASSES && RowsFrom(w, class_, base, laid, ENTRIES)
    ensures RowsAre(w, class_, base, Closed(laid))
  {
    hide Lists, WorldOk, Laid;
    RowsLaid(base, Lists(w, class_), Closed(laid));
  }

  // ----- the table is right from the start -----

  /** A finished table of one class. */
  ghost predicate DepRight(w: World, class_: nat, d: Finished)
  {
    |d| == ENTRIES && forall i :: 0 <= i < ENTRIES && BaseCode(w, class_, i) != INVALID ==> DepAt(w, class_, d, i)
  }

  ghost predicate DepAt(w: World, class_: nat, d: Finished, i: nat)
    requires i < |d|
  {
    && (d[i] == WIN <==> Holds(w.g, PosOf(w, class_, i), Win)) && (d[i] == LOSS <==>
         Holds(w.g, PosOf(w, class_, i), Loss))
    && (d[i] == WIN || d[i] == LOSS || d[i] == DRAW)
  }

  ghost predicate DepsRight(w: World, class_: nat, deps: seq<Finished>)
  {
    class_ == PAWN ==> |deps| == PAWN && forall c :: 0 <= c < PAWN ==> DepRight(w, c, deps[c])
  }

  ghost function PosFn(w: World, class_: nat): nat -> Position { (i: nat) => PosOf(w, class_, i) }

  lemma {:induction false} EndedHolds(g: Rules, p: Position, o: Outcome)
    requires g.terminal(p).Some? && o != Draw
    ensures Holds(g, p, o) <==> g.terminal(p).value == o
  {
    if g.terminal(p).value == o {
      assert Forced(g, p, o, 0);
    }
  }

  /** A packed reference names its child. */
  lemma {:induction false} ResolveNames(w: World, class_: nat, strong: nat, q: Position, base: seq<Code>,
          deps: seq<Finished>)
    requires
      && class_ < CLASSES && LookOk(w, class_, strong, q) && BaseTable(w, class_, base) && DepsRight(w, class_, deps)
    ensures Names(w.g, PosFn(w, class_), base, deps, Resolve(w, class_, strong, q), q)
  {
    match w.look(strong, q)
    case Ended(v) =>
      ConstUnpacks(v);
      forall o: Outcome | o != Draw
        ensures Decides(v, o) <==> Holds(w.g, q, o)
      {
        EndedHolds(w.g, q, o);
      }
    case Placed(cid, stm, sk, wk, xs) =>
      PlacedNames(w, class_, strong, q, base, deps, cid, (strong, stm, sk, wk, xs));
  }

  lemma {:induction false} PlacedNames(w: World, class_: nat, strong: nat, q: Position, base: seq<Code>,
          deps: seq<Finished>, cid: nat, d: Placement)
    requires class_ < CLASSES && BaseTable(w, class_, base) && DepsRight(w, class_, deps)
    requires InRange(d.0, d.1, d.2, d.3, d.4) && w.valid(cid, d.2, d.3, d.4) && Place(w, cid, d) == q
    requires cid == class_ || (class_ == PAWN && cid < PAWN)
    ensures var at := Index(d.0, d.1, d.2, d.3, d.4);
            at < ENTRIES
            && Names(w.g, PosFn(w, class_), base, deps, if cid == class_ then at else PackCross(cid, at), q)
  {
    var at := Index(d.0, d.1, d.2, d.3, d.4);
    IndexDecodes(d.0, d.1, d.2, d.3, d.4);
    hide Index, DecodeIndex, Unpack, PackCross;
    if cid == class_ {
      SameUnpacks(at);
      assert base[at] == BaseCode(w, class_, at);
    } else {
      CrossUnpacks(cid, at);
      assert DepRight(w, cid, deps[cid]) && BaseCode(w, cid, at) != INVALID;
      assert DepAt(w, cid, deps[cid], at);
    }
  }

  /** An open entry's row lists its replies. */
  lemma {:induction false} RowNames(w: World, class_: nat, base: seq<Code>, deps: seq<Finished>, i: nat)
    requires WorldOk(w) && class_ < CLASSES && BaseTable(w, class_, base) && DepsRight(w, class_, deps)
    requires i < ENTRIES && base[i] == UNKNOWN
    ensures RowOk(w.g, PosFn(w, class_), base, deps, Lists(w, class_)[i], i)
  {
    ListAt(w, class_, i);
    hide WorldOk, BaseTable, DepsRight, Names, Resolve, LookOk, Lists;
    var p := PosOf(w, class_, i);
    forall k | 0 <= k < |w.g.legal(p)|
      ensures Names(w.g, PosFn(w, class_), base, deps, Refs(w, class_, i)[k], w.g.play(p, w.g.legal(p)[k]))
    {
      assert LookOk(w, class_, StrongOf(i), w.g.play(p, w.g.legal(p)[k]));
      ResolveNames(w, class_, StrongOf(i), w.g.play(p, w.g.legal(p)[k]), base, deps);
    }
  }

  lemma {:induction false} StartCodeIs(w: World, class_: nat, i: nat)
    requires BaseCode(w, class_, i) != INVALID
    ensures var t := w.g.terminal(PosFn(w, class_)(i));
            (BaseCode(w, class_, i) == UNKNOWN <==> t.None?) && (BaseCode(w, class_, i) == WIN <==> t == Some(Win))
            && (BaseCode(w, class_, i) == LOSS <==> t == Some(Loss))
  {
    hide DecodeIndex;
  }

  lemma {:induction false} EntryRight(w: World, class_: nat, base: seq<Code>, deps: seq<Finished>, rows: Rows, i: nat)
    requires WorldOk(w) && class_ < CLASSES && BaseTable(w, class_, base) && DepsRight(w, class_, deps)
    requires RowsAre(w, class_, base, rows) && i < |base| && base[i] != INVALID
    ensures rows.Ok(|base|) && EntryOk(w.g, PosFn(w, class_), base, deps, rows, i)
  {
    assert base[i] == BaseCode(w, class_, i) && |base| == ENTRIES;
    StartCodeIs(w, class_, i);
    if base[i] == UNKNOWN {
      RowNames(w, class_, base, deps, i);
    }
    hide WorldOk, DepsRight, Lists, RowOk, DecodeIndex, BaseCode, BaseTable, PosFn;
  }

  lemma {:induction false} StartsRight(w: World, class_: nat, base: seq<Code>, deps: seq<Finished>, rows: Rows)
    requires WorldOk(w) && class_ < CLASSES && BaseTable(w, class_, base) && DepsRight(w, class_, deps)
    requires RowsAre(w, class_, base, rows)
    ensures TableOk(w.g, PosFn(w, class_), base, deps, rows)
  {
    RowsFit(w, class_, base, rows);
    hide WorldOk, BaseTable, DepsRight, RowsAre, EntryOk;
    forall i | 0 <= i < |base| && base[i] != INVALID
      ensures EntryOk(w.g, PosFn(w, class_), base, deps, rows, i)
    {
      EntryRight(w, class_, base, deps, rows, i);
    }
  }

  lemma {:induction false} RowsFit(w: World, class_: nat, base: seq<Code>, rows: Rows)
    requires WorldOk(w) && class_ < CLASSES && RowsAre(w, class_, base, rows)
    ensures rows.Ok(|base|)
  {
  }

  /** Build the table of one class and iterate it: its wins and losses are exactly the positions that have
      these values. */
  method BuildTable(w: World, class_: nat, deps: seq<Finished>) returns (table: Finished)
    requires WorldOk(w) && class_ < CLASSES && DepsRight(w, class_, deps)
    ensures DepRight(w, class_, table)
    ensures |table| == ENTRIES && forall i :: 0 <= i < ENTRIES ==>
              (table[i] == INVALID <==> BaseCode(w, class_, i) == INVALID)
  {
    hide WorldOk, BaseCode, RowsAre, TableOk, DepsRight, DistancesOk, Recorded, DepRight;
    var value := BuildBase(w, class_);
    ghost var base := value[..];
    assert BaseTable(w, class_, base);
    var rows := BuildRows(w, class_, value[..]);
    StartsRight(w, class_, base, deps, rows);
    var dtm := new nat[ENTRIES](_ => 0);
    var passes := Iterate(w.g, PosFn(w, class_), deps, rows, value, dtm);
    ghost var exact := value[..];
    var left := CloseDraws(value);
    table := value[..];
    Finish(w, class_, base, exact, table);
  }

  lemma {:induction false} Finish(w: World, class_: nat, base: seq<Code>, exact: seq<Code>, table: seq<Code>)
    requires BaseTable(w, class_, base) && Extends(base, exact) && Exact(w.g, PosFn(w, class_), base, exact)
    requires |table| == |exact| && forall i :: 0 <= i < |table| ==>
               table[i] == if exact[i] == UNKNOWN then DRAW else exact[i]
    ensures DepRight(w, class_, table)
    ensures |table| == ENTRIES && forall i :: 0 <= i < ENTRIES ==>
              (table[i] == INVALID <==> BaseCode(w, class_, i) == INVALID)
  {
    forall i | 0 <= i < ENTRIES
      ensures table[i] == INVALID <==> BaseCode(w, class_, i) == INVALID
      ensures BaseCode(w, class_, i) != INVALID ==> DepAt(w, class_, table, i)
    {
      assert base[i] == BaseCode(w, class_, i);
      hide BaseCode;
      if base[i] != INVALID {
        assert ExactAt(w.g, PosFn(w, class_), exact, i);
      }
    }
  }

  /** Generate the five classes in order, the pawns last: in every table a placement is a win or a loss
      exactly when its position is, and everything else that is representable is a draw. */
  method Generate(w: World) returns (tables: seq<Finished>)
    requires WorldOk(w)
    ensures |tables| == CLASSES && forall c :: 0 <= c < CLASSES ==> DepRight(w, c, tables[c])
  {
    hide WorldOk, DepRight;
    tables := [];
    for c := 0 to CLASSES
      invariant |tables| == c && forall b :: 0 <= b < c ==> DepRight(w, b, tables[b])
    {
      var table := BuildTable(w, c, if c == PAWN then tables else []);
      tables := tables + [table];
    }
  }
}
