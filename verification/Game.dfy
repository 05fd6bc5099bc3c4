/** The abstract game every component is judged against.

    A position code includes the halfmove clock, so two positions that differ only in
    their clock are different positions.  `terminal` is the static classification for the
    side to move; `legal` is the move generator.  The two are deliberately independent:
    some rule draws happen in positions that still have legal moves.
  */
module Game {

  datatype Option<+T> = None | Some(value: T)

  datatype Result<+T, +E> = Ok(value: T) | Err(error: E)

  datatype Outcome = Loss | Draw | Win {
    function Flip(): (o: Outcome)
    {
      match this
      case Win => Loss
      case Loss => Win
      case Draw => Draw
    }

    predicate Decisive() { this != Draw }
  }

  type Position = int

  /** A 16-bit move code; code 0 is the null move and never legal. */
  type Move = nat
  const NO_MOVE: Move := 0

  type U32 = n: int | 0 <= n < 0x1_0000_0000
  const U32_MAX: U32 := 0xFFFF_FFFF
  const U64_MAX: nat := 0xFFFF_FFFF_FFFF_FFFF

  /** `saturating_add(1)` on a `u32`. */
  function SatInc(d: U32): U32 { if d == U32_MAX then d else d + 1 }

  function Max(a: int, b: int): int { if a < b then b else a }

  datatype Rules = Rules(
    legal: Position -> seq<Move>,
    play: (Position, Move) -> Position,
    terminal: Position -> Option<Outcome>,
    hash: Position -> nat)
  {
    /** What every move generator and static classification satisfies. */
    ghost predicate Sane()
    {
      && (forall p: Position :: NO_MOVE !in legal(p))
      && (forall p: Position :: terminal(p).None? ==> legal(p) != [])
      && (forall p: Position, i, j :: 0 <= i < j < |legal(p)| ==> legal(p)[i] != legal(p)[j])
    }

    /** A hash names one position. */
    ghost predicate Injective()
    {
      forall p: Position, q: Position :: hash(p) == hash(q) ==> p == q
    }

    /** The halfmove clock and the irreversible moves left make play finite. */
    ghost predicate Ranked(rank: Position -> nat)
    {
      forall p: Position, m: Move :: m in legal(p) ==> rank(play(p, m)) < rank(p)
    }
  }

  lemma {:induction false} RankDown(g: Rules, rank: Position -> nat, p: Position, m: Move)
    requires g.Ranked(rank) && m in g.legal(p)
    ensures rank(g.play(p, m)) < rank(p)
  {
  }

  /** The side to move at `p` has the decisive result `o` within `n` plies, whatever the
      opponent does. */
  ghost predicate Forced(g: Rules, p: Position, o: Outcome, n: nat)
    decreases n
  {
    match g.terminal(p)
    case Some(t) => t == o && o != Draw
    case None =>
      n > 0 &&
      match o
      case Win => exists m :: m in g.legal(p) && Forced(g, g.play(p, m), Loss, n - 1)
      case Loss => g.legal(p) != [] && forall m :: m in g.legal(p) ==> Forced(g, g.play(p, m), Win, n - 1)
      case Draw => false
  }

  /** `o` is the true decisive value of `p`. */
  ghost predicate Holds(g: Rules, p: Position, o: Outcome)
  {
    exists n: nat :: Forced(g, p, o, n)
  }

  lemma {:induction false} ForcedMonotone(g: Rules, p: Position, o: Outcome, n: nat, k: nat)
    requires Forced(g, p, o, n) && n <= k
    ensures Forced(g, p, o, k)
    decreases n
  {
    if g.terminal(p).None? {
      if o == Win {
        var m :| m in g.legal(p) && Forced(g, g.play(p, m), Loss, n - 1);
        ForcedMonotone(g, g.play(p, m), Loss, n - 1, k - 1);
      } else {
        forall m | m in g.legal(p)
          ensures Forced(g, g.play(p, m), Win, k - 1)
        {
          ForcedMonotone(g, g.play(p, m), Win, n - 1, k - 1);
        }
      }
    }
  }

  /** Both sides cannot force a decision: a position has at most one decisive value. */
  lemma {:induction false} Determined(g: Rules, p: Position, o: Outcome, n: nat, o': Outcome, k: nat)
    requires Forced(g, p, o, n) && Forced(g, p, o', k)
    ensures o == o'
    decreases n
  {
    if g.terminal(p).None? && o != o' {
      if o == Win {
        var m :| m in g.legal(p) && Forced(g, g.play(p, m), Loss, n - 1);
        Determined(g, g.play(p, m), Loss, n - 1, Win, k - 1);
      } else {
        var m :| m in g.legal(p) && Forced(g, g.play(p, m), Loss, k - 1);
        Determined(g, g.play(p, m), Win, n - 1, Loss, k - 1);
      }
    }
  }

  lemma {:induction false} HoldsUnique(g: Rules, p: Position, o: Outcome, o': Outcome)
    requires Holds(g, p, o) && Holds(g, p, o')
    ensures o == o'
  {
    var n: nat :| Forced(g, p, o, n);
    var k: nat :| Forced(g, p, o', k);
    Determined(g, p, o, n, o', k);
  }

  /** One losing reply decides an open position. */
  lemma {:induction false} WinByReply(g: Rules, p: Position, m: Move)
    requires g.terminal(p).None? && m in g.legal(p)
    requires Holds(g, g.play(p, m), Loss)
    ensures Holds(g, p, Win)
  {
    var n: nat :| Forced(g, g.play(p, m), Loss, n);
    assert Forced(g, p, Win, n + 1);
  }

  /** Won replies to every move of a list are won within a common number of plies. */
  lemma {:induction false} CommonBound(g: Rules, p: Position, ms: seq<Move>) returns (n: nat)
    requires forall m :: m in ms ==> Holds(g, g.play(p, m), Win)
    ensures forall m :: m in ms ==> Forced(g, g.play(p, m), Win, n)
  {
    if ms == [] {
      n := 0;
    } else {
      var last := ms[|ms| - 1];
      var rest := ms[..|ms| - 1];
      var n0 := CommonBound(g, p, rest);
      assert last in ms;
      var n1: nat :| Forced(g, g.play(p, last), Win, n1);
      n := n0 + n1;
      forall m | m in ms
        ensures Forced(g, g.play(p, m), Win, n)
      {
        if m in rest {
          ForcedMonotone(g, g.play(p, m), Win, n0, n);
        } else {
          ForcedMonotone(g, g.play(p, last), Win, n1, n);
        }
      }
    }
  }

  /** All replies won decide an open position against the side to move. */
  lemma {:induction false} LossByReplies(g: Rules, p: Position)
    requires g.terminal(p).None? && g.legal(p) != []
    requires forall m :: m in g.legal(p) ==> Holds(g, g.play(p, m), Win)
    ensures Holds(g, p, Loss)
  {
    var n := CommonBound(g, p, g.legal(p));
    assert Forced(g, p, Loss, n + 1);
  }

  /** The value of an open position is exactly what its replies make it. */
  lemma {:induction false} HoldsIff(g: Rules, p: Position)
    requires g.terminal(p).None?
    ensures Holds(g, p, Win) <==> exists m :: m in g.legal(p) && Holds(g, g.play(p, m), Loss)
    ensures Holds(g, p, Loss) <==>
            g.legal(p) != [] && forall m :: m in g.legal(p) ==> Holds(g, g.play(p, m), Win)
  {
    if Holds(g, p, Win) {
      var n: nat :| Forced(g, p, Win, n);
      var m :| m in g.legal(p) && Forced(g, g.play(p, m), Loss, n - 1);
      assert Holds(g, g.play(p, m), Loss);
    }
    if m :| m in g.legal(p) && Holds(g, g.play(p, m), Loss) {
      WinByReply(g, p, m);
    }
    if Holds(g, p, Loss) {
      var n: nat :| Forced(g, p, Loss, n);
      assert forall m :: m in g.legal(p) ==> Forced(g, g.play(p, m), Win, n - 1);
    }
    if g.legal(p) != [] && forall m :: m in g.legal(p) ==> Holds(g, g.play(p, m), Win) {
      LossByReplies(g, p);
    }
  }

  /** The position after a list of moves. */
  function Replay(g: Rules, p: Position, path: seq<Move>): Position
  {
    if path == [] then p else g.play(Replay(g, p, path[..|path| - 1]), path[|path| - 1])
  }

  lemma {:induction false} ReplaySnoc(g: Rules, p: Position, path: seq<Move>, m: Move)
    ensures Replay(g, p, path + [m]) == g.play(Replay(g, p, path), m)
  {
    assert (path + [m])[..|path|] == path;
  }

  /** The board a component replays moves on: `DoMove` plays in place, `UndoMove` takes the
      last move back. */
  class Board {
    const g: Rules
    var cur: Position
    var undo: seq<Position>

    constructor (g: Rules, p: Position)
      ensures this.g == g && cur == p && undo == []
    {
      this.g, cur, undo := g, p, [];
    }

    method DoMove(m: Move)
      modifies this
      ensures cur == g.play(old(cur), m) && undo == old(undo) + [old(cur)]
    {
      undo := undo + [cur];
      cur := g.play(cur, m);
    }

    method UndoMove()
      requires undo != []
      modifies this
      ensures cur == old(undo)[|old(undo)| - 1] && undo == old(undo)[..|old(undo)| - 1]
    {
      cur := undo[|undo| - 1];
      undo := undo[..|undo| - 1];
    }
  }

  /** Every move of the path is legal where it is played. */
  predicate PathLegal(g: Rules, p: Position, path: seq<Move>)
  {
    forall k :: 0 <= k < |path| ==> path[k] in g.legal(Replay(g, p, path[..k]))
  }

  /** The first `n` moves are legal where they are played. */
  ghost predicate LegalSoFar(g: Rules, p: Position, path: seq<Move>, n: nat)
    requires n <= |path|
  {
    forall k :: 0 <= k < n ==> path[k] in g.legal(Replay(g, p, path[..k]))
  }

  lemma {:induction false} ReplayNext(g: Rules, p: Position, path: seq<Move>, n: nat)
    requires n < |path|
    ensures Replay(g, p, path[..n + 1]) == g.play(Replay(g, p, path[..n]), path[n])
  {
    assert path[..n + 1] == path[..n] + [path[n]];
    ReplaySnoc(g, p, path[..n], path[n]);
  }

  method ReplayPath(g: Rules, p: Position, path: seq<Move>) returns (at: Option<Position>)
    ensures at.Some? <==> PathLegal(g, p, path)
    ensures at.Some? ==> at.value == Replay(g, p, path)
  {
    var board := new Board(g, p);
    assert Replay(g, p, path[..0]) == p;
    hide Replay;
    for k := 0 to |path|
      invariant board.g == g && board.cur == Replay(g, p, path[..k]) && LegalSoFar(g, p, path, k)
    {
      if path[k] !in g.legal(board.cur) {
        return None;
      }
      ReplayNext(g, p, path, k);
      board.DoMove(path[k]);
    }
    assert path[..|path|] == path;
    at := Some(board.cur);
  }
}
