/** What the "exact" mark of a claim is worth: exactly when it means that the bound is minimal. */
module FlipExact {
  import opened Game
  import opened Flip
  import FlipFixpoint

  /** `n` plies are needed, and enough. */
  ghost predicate Minimal(g: Rules, p: Position, o: Outcome, n: nat)
  {
    Forced(g, p, o, n) && forall k: nat :: k < n ==> !Forced(g, p, o, k)
  }

  /** Some proof of the outcome has depth exactly `n`: any winning move, every losing reply. */
  ghost predicate Recorded(g: Rules, p: Position, o: Outcome, n: nat)
    decreases n
  {
    match g.terminal(p)
    case Some(t) => t == o && o != Draw && n == 0
    case None =>
      n > 0 &&
      match o
      case Win => exists m :: m in g.legal(p) && Recorded(g, g.play(p, m), Loss, n - 1)
      case Loss =>
        && (forall m :: m in g.legal(p) ==> exists k :: 0 <= k < n && Recorded(g, g.play(p, m), Win, k))
        && exists m :: m in g.legal(p) && Recorded(g, g.play(p, m), Win, n - 1)
      case Draw => false
  }

  lemma {:induction false} RecordedForced(g: Rules, p: Position, o: Outcome, n: nat)
    requires Recorded(g, p, o, n)
    ensures Forced(g, p, o, n)
    decreases n
  {
    if g.terminal(p).None? {
      if o == Win {
        var m :| m in g.legal(p) && Recorded(g, g.play(p, m), Loss, n - 1);
        RecordedForced(g, g.play(p, m), Loss, n - 1);
      } else {
        forall m | m in g.legal(p)
          ensures Forced(g, g.play(p, m), Win, n - 1)
        {
          var k :| 0 <= k < n && Recorded(g, g.play(p, m), Win, k);
          RecordedForced(g, g.play(p, m), Win, k);
          ForcedMonotone(g, g.play(p, m), Win, k, n - 1);
        }
      }
    }
  }

  /** A loss within one ply leaves no room for a deeper proof. */
  lemma {:induction false} ShortLoss(g: Rules, p: Position, n: nat, k: nat)
    requires Recorded(g, p, Loss, n) && Forced(g, p, Loss, k) && k <= 1
    ensures n <= k
  {
    if g.terminal(p).None? {
      var m :| m in g.legal(p) && Recorded(g, g.play(p, m), Win, n - 1);
      assert Forced(g, g.play(p, m), Win, 0);
    }
  }

  /** What a stored row or a derived claim can say of a reply: some proof has that depth, and an
      exact one is minimal.  A finished position is always stored exact. */
  ghost predicate Real(g: Rules, p: Position, s: Status)
  {
    s.Resolved? ==>
      var o := if s.loss then Loss else Win;
      && Recorded(g, p, o, s.bound)
      && (s.exact ==> Minimal(g, p, o, s.bound))
      && (g.terminal(p).Some? ==> s.exact)
  }

  ghost predicate AllReal(g: Rules, p: Position, ss: seq<Status>)
  {
    && g.Sane() && g.terminal(p).None? && |ss| == |g.legal(p)|
    && forall i :: 0 <= i < |ss| ==> Real(g, g.play(p, g.legal(p)[i]), ss[i])
  }

  predicate AllWitnessesExact(ss: seq<Status>)
  {
    forall i :: 0 <= i < |ss| && LossAt(ss, i) ==> ss[i].exact
  }

  /** The increment did not saturate. */
  predicate Unsaturated(ss: seq<Status>, c: Claim)
  {
    if c.stmWin then exists i :: 0 <= i < |ss| && LossAt(ss, i) && ss[i].bound < U32_MAX
    else forall i :: 0 <= i < |ss| && ss[i].Resolved? ==> ss[i].bound < U32_MAX
  }

  /** An exact claim can be trusted to be minimal. */
  predicate Trustworthy(ss: seq<Status>, c: Claim)
  {
    Unsaturated(ss, c) && (c.stmWin ==> AllWitnessesExact(ss) || c.bound <= 3)
  }

  // ----- trustworthy claims are minimal -----

  lemma {:induction false} ReplyOf(g: Rules, p: Position, ss: seq<Status>, m: Move) returns (i: nat)
    requires |ss| == |g.legal(p)| && m in g.legal(p)
    ensures i < |ss| && g.legal(p)[i] == m
  {
    var x :| 0 <= x < |g.legal(p)| && g.legal(p)[x] == m;
    i := x;
  }

  /** What a win claim's shortest witness and exact mark mean. */
  ghost predicate WinFacts(ss: seq<Status>, c: Claim, w: nat)
  {
    && LossAt(ss, w) && c.bound == SatInc(ss[w].bound)
    && (forall i :: 0 <= i < |ss| && LossAt(ss, i) ==> ss[w].bound <= ss[i].bound)
    && (c.exact ==>
          && (forall i :: 0 <= i < |ss| ==> ss[i].Resolved?)
          && forall i :: 0 <= i < |ss| && LossAt(ss, i) && ss[i].bound == ss[w].bound ==> ss[i].exact)
  }

  lemma {:induction false} WinWitness(ss: seq<Status>) returns (w: nat)
    requires Summarise(ss).Some? && Summarise(ss).value.stmWin
    ensures WinFacts(ss, Summarise(ss).value, w)
  {
    var n := |ss|;
    CountFacts(ss, n);
    var census := Count(ss, n);
    var m := MinWitness(census.witnesses);
    var v :| 0 <= v < |census.witnesses| && census.witnesses[v].0 == m;
    w := WitnessFrom(ss, n, v);
    forall i | 0 <= i < |ss| && LossAt(ss, i)
      ensures m <= ss[i].bound && (MinExact(census.witnesses, m) && ss[i].bound == m ==> ss[i].exact)
    {
      var x := WitnessOf(ss, n, i);
    }
  }

  lemma {:induction false} WinLower(g: Rules, p: Position, ss: seq<Status>, c: Claim, w: nat, k: nat)
    requires AllReal(g, p, ss) && WinFacts(ss, c, w) && c.stmWin && c.exact && Forced(g, p, Win, k)
    requires AllWitnessesExact(ss) || ss[w].bound <= 2
    ensures ss[w].bound < k
  {
    var m :| m in g.legal(p) && Forced(g, g.play(p, m), Loss, k - 1);
    var i := ReplyOf(g, p, ss, m);
    var q := g.play(p, m);
    assert Real(g, q, ss[i]);
    RecordedForced(g, q, if ss[i].loss then Loss else Win, ss[i].bound);
    Determined(g, q, if ss[i].loss then Loss else Win, ss[i].bound, Loss, k - 1);
    assert LossAt(ss, i);
    if k - 1 <= 1 {
      ShortLoss(g, q, ss[i].bound, k - 1);
    }
  }

  lemma {:induction false} WinUpper(g: Rules, p: Position, ss: seq<Status>, w: nat)
    requires AllReal(g, p, ss) && LossAt(ss, w)
    ensures Forced(g, p, Win, ss[w].bound + 1)
  {
    var m := g.legal(p)[w];
    assert Real(g, g.play(p, m), ss[w]) && m in g.legal(p);
    RecordedForced(g, g.play(p, m), Loss, ss[w].bound);
  }

  /** What a loss claim and its exact mark mean. */
  lemma {:induction false} LossFacts(ss: seq<Status>)
    requires Summarise(ss).Some? && !Summarise(ss).value.stmWin
    ensures LossMeans(ss, Summarise(ss).value)
    ensures Summarise(ss).value.exact ==> forall i :: 0 <= i < |ss| ==> ss[i].exact
  {
    ClaimIff(ss);
    CountFacts(ss, |ss|);
  }

  lemma {:induction false} LossLower(g: Rules, p: Position, ss: seq<Status>, i: nat, k: nat)
    requires AllReal(g, p, ss) && i < |ss| && ss[i].Resolved? && !ss[i].loss && ss[i].exact && Forced(g, p, Loss, k)
    ensures ss[i].bound < k
  {
    var m := g.legal(p)[i];
    assert Real(g, g.play(p, m), ss[i]) && m in g.legal(p);
    assert Forced(g, g.play(p, m), Win, k - 1);
  }

  lemma {:induction false} LossUpper(g: Rules, p: Position, ss: seq<Status>, n: nat)
    requires AllReal(g, p, ss) && ss != []
             && forall i :: 0 <= i < |ss| ==> ss[i].Resolved? && !ss[i].loss && ss[i].bound < n
    ensures Forced(g, p, Loss, n)
  {
    assert ss[0].bound < n;
    forall m | m in g.legal(p)
      ensures Forced(g, g.play(p, m), Win, n - 1)
    {
      var i := ReplyOf(g, p, ss, m);
      assert Real(g, g.play(p, m), ss[i]);
      RecordedForced(g, g.play(p, m), Win, ss[i].bound);
      ForcedMonotone(g, g.play(p, m), Win, ss[i].bound, n - 1);
    }
  }

  lemma {:induction false} TrustedWin(g: Rules, p: Position, ss: seq<Status>, c: Claim)
    requires AllReal(g, p, ss) && Summarise(ss) == Some(c) && c.stmWin && c.exact && Trustworthy(ss, c)
    ensures Minimal(g, p, Win, c.bound)
  {
    hide Summarise;
    var w := WinWitness(ss);
    WinUpper(g, p, ss, w);
    forall k: nat | Forced(g, p, Win, k)
      ensures c.bound <= k
    {
      WinLower(g, p, ss, c, w, k);
    }
  }

  lemma {:induction false} TrustedLoss(g: Rules, p: Position, ss: seq<Status>, c: Claim)
    requires AllReal(g, p, ss) && Summarise(ss) == Some(c) && !c.stmWin && c.exact && Trustworthy(ss, c)
    ensures Minimal(g, p, Loss, c.bound)
  {
    hide Summarise;
    LossFacts(ss);
    var i :| 0 <= i < |ss| && c.bound == SatInc(ss[i].bound);
    LossUpper(g, p, ss, c.bound);
    forall k: nat | Forced(g, p, Loss, k)
      ensures c.bound <= k
    {
      LossLower(g, p, ss, i, k);
    }
  }

  /** In every game a trustworthy exact claim is minimal. */
  lemma {:induction false} ExactIsMinimal(g: Rules, p: Position, ss: seq<Status>, c: Claim)
    requires AllReal(g, p, ss) && Summarise(ss) == Some(c) && c.exact && Trustworthy(ss, c)
    ensures Minimal(g, p, c.Value(), c.bound)
  {
    if c.stmWin {
      TrustedWin(g, p, ss, c);
    } else {
      TrustedLoss(g, p, ss, c);
    }
  }

  // ----- a game for every list of statuses -----

  /** Only unfinished positions can be stored inexact. */
  predicate Plausible(ss: seq<Status>)
  {
    forall i :: 0 <= i < |ss| && ss[i].Resolved? ==> ss[i].exact || ss[i].bound > 0
  }

  /** No game reports an implausible list. */
  lemma {:induction false} RealIsPlausible(g: Rules, p: Position, ss: seq<Status>)
    requires AllReal(g, p, ss)
    ensures Plausible(ss)
  {
    forall i | 0 <= i < |ss| && ss[i].Resolved?
      ensures ss[i].exact || ss[i].bound > 0
    {
      assert Real(g, g.play(p, g.legal(p)[i]), ss[i]);
    }
  }

  const ROOT: Position := -1

  /** The chain position that reaches its end after `n` forced moves, `won` or lost for whoever
      is to move there. */
  function Chain(n: nat, won: bool): Position { 2 * n + if won then 1 else 0 }

  /** A chain that is a loss, or a win, in `n`. */
  function LineFor(loss: bool, n: nat): Position { Chain(n, (n % 2 == 0) != loss) }

  /** A lost position whose only reply can be answered at once or slowly: lost in two, with a
      proof of depth `b`. */
  function Fork(b: nat): Position { -2 * b }

  predicate IsFork(p: Position) { p <= -8 && p % 2 == 0 }

  predicate IsAnswer(p: Position) { p <= -9 && p % 2 != 0 }

  function Target(s: Status): Position
  {
    match s
    case Unresolved => Chain(0, false)
    case Resolved(loss, b, exact) => if loss && !exact && b >= 4 then Fork(b) else LineFor(loss, b)
  }

  function Numbers(n: nat): (ms: seq<Move>)
    ensures |ms| == n && forall i :: 0 <= i < n ==> ms[i] == i + 1
  {
    seq(n, i => i + 1)
  }

  function MovesAt(ss: seq<Status>, p: Position): seq<Move>
  {
    if p == ROOT then Numbers(|ss|)
    else if p > 1 || IsFork(p) then [1]
    else if IsAnswer(p) then [1, 2]
    else []
  }

  function After(ss: seq<Status>, p: Position, m: Move): Position
  {
    if p == ROOT then (if 1 <= m <= |ss| then Target(ss[m - 1]) else 0)
    else if p > 1 then p - 2
    else if IsFork(p) then p - 1
    else if IsAnswer(p) then (if m == 1 then Chain(0, false) else LineFor(true, (-p - 1) / 2 - 2))
    else p
  }

  function EndAt(p: Position): Option<Outcome>
  {
    if p == 0 then Some(Loss) else if p == 1 then Some(Win)
    else if p == ROOT || p > 1 || IsFork(p) || IsAnswer(p) then None
    else Some(Draw)
  }

  function Witness(ss: seq<Status>): Rules
  {
    Rules((p: Position) => MovesAt(ss, p), (p: Position, m: Move) => After(ss, p, m), (p: Position) => EndAt(p),
          (p: Position) => if p < 0 then -2 * p else 2 * p + 1)
  }

  lemma {:induction false} WitnessSane(ss: seq<Status>)
    requires ss != []
    ensures Witness(ss).Sane() && Witness(ss).Injective()
  {
  }

  lemma {:induction false} WinsBy(g: Rules, p: Position, m: Move, q: Position, n: nat)
    requires g.terminal(p).None? && m in g.legal(p) && g.play(p, m) == q
    ensures Forced(g, q, Loss, n) ==> Forced(g, p, Win, n + 1)
    ensures Recorded(g, q, Loss, n) ==> Recorded(g, p, Win, n + 1)
  {
  }

  lemma {:induction false} LosesBy(g: Rules, p: Position, q: Position, n: nat)
    requires g.terminal(p).None? && g.legal(p) == [1] && g.play(p, 1) == q
    ensures Forced(g, q, Win, n) ==> Forced(g, p, Loss, n + 1)
    ensures Recorded(g, q, Win, n) ==> Recorded(g, p, Loss, n + 1)
  {
    assert [1][0] in g.legal(p);
  }

  /** With a single move, values pass back ply by ply. */
  lemma {:induction false} OneMove(g: Rules, p: Position, q: Position, o: Outcome, n: nat)
    requires g.terminal(p).None? && g.legal(p) == [1] && g.play(p, 1) == q && (o == Win || o == Loss)
    requires Recorded(g, q, o.Flip(), n) && Minimal(g, q, o.Flip(), n)
    ensures Recorded(g, p, o, n + 1) && Minimal(g, p, o, n + 1)
  {
    assert [1][0] in g.legal(p);
    if o == Win {
      WinsBy(g, p, 1, q, n);
    } else {
      LosesBy(g, p, q, n);
    }
    forall k: nat | k < n + 1
      ensures !Forced(g, p, o, k)
    {
      assert k > 0 ==> !Forced(g, q, o.Flip(), k - 1);
    }
  }

  lemma {:induction false} ChainEnd(ss: seq<Status>, loss: bool)
    ensures var o := if loss then Loss else Win;
            Recorded(Witness(ss), LineFor(loss, 0), o, 0) && Minimal(Witness(ss), LineFor(loss, 0), o, 0)
  {
  }

  lemma {:induction false} ChainStep(ss: seq<Status>, loss: bool, n: nat)
    requires n > 0
    ensures var g := Witness(ss);
            var p := LineFor(loss, n);
            g.terminal(p).None? && g.legal(p) == [1] && g.play(p, 1) == LineFor(!loss, n - 1)
  {
  }

  /** A chain has its value in exactly its length, and no shorter. */
  lemma {:induction false} ChainValue(ss: seq<Status>, loss: bool, n: nat)
    ensures var o := if loss then Loss else Win;
            && Recorded(Witness(ss), LineFor(loss, n), o, n)
            && Minimal(Witness(ss), LineFor(loss, n), o, n)
    decreases n
  {
    hide Recorded, Minimal, LineFor, Witness;
    if n > 0 {
      ChainStep(ss, loss, n);
      ChainValue(ss, !loss, n - 1);
      OneMove(Witness(ss), LineFor(loss, n), LineFor(!loss, n - 1), if loss then Loss else Win, n - 1);
    } else {
      ChainEnd(ss, loss);
    }
  }

  lemma {:induction false} ForkCode(b: nat)
    requires b >= 4
    ensures IsFork(Fork(b)) && IsAnswer(Fork(b) - 1) && (-(Fork(b) - 1) - 1) / 2 - 2 == b - 2
    ensures Fork(b) < -1
  {
  }

  lemma {:induction false} ForkShape(ss: seq<Status>, b: nat)
    requires b >= 4
    ensures var g := Witness(ss);
            var p, w := Fork(b), Fork(b) - 1;
            && g.terminal(p).None? && g.legal(p) == [1] && g.play(p, 1) == w
            && g.terminal(w).None? && 1 in g.legal(w) && 2 in g.legal(w)
            && g.play(w, 1) == LineFor(true, 0) && g.play(w, 2) == LineFor(true, b - 2)
  {
    ForkCode(b);
    assert LineFor(true, 0) == Chain(0, false);
    hide IsFork, IsAnswer, Fork, LineFor, Target, Numbers;
    var g := Witness(ss);
    var w := Fork(b) - 1;
    assert !IsFork(w) by {
      NotBoth(w);
    }
    assert g.legal(w) == [1, 2];
    assert [1, 2][0] in g.legal(w) && [1, 2][1] in g.legal(w);
  }

  lemma {:induction false} NotBoth(p: Position)
    ensures !(IsFork(p) && IsAnswer(p))
  {
  }

  /** A fork is lost in two although its recorded proof is longer. */
  lemma {:induction false} ForkValue(ss: seq<Status>, b: nat)
    requires b >= 4
    ensures Forced(Witness(ss), Fork(b), Loss, 2) && Recorded(Witness(ss), Fork(b), Loss, b)
  {
    hide Recorded, Forced, Fork, LineFor, Witness;
    var g := Witness(ss);
    var p, w := Fork(b), Fork(b) - 1;
    ForkShape(ss, b);
    ChainValue(ss, true, 0);
    ChainValue(ss, true, b - 2);
    WinsBy(g, w, 1, LineFor(true, 0), 0);
    WinsBy(g, w, 2, LineFor(true, b - 2), b - 2);
    LosesBy(g, p, w, 1);
    LosesBy(g, p, w, b - 1);
  }

  /** Every plausible list of statuses is real somewhere. */
  lemma {:induction false} WitnessReal(ss: seq<Status>)
    requires ss != [] && Plausible(ss)
    ensures AllReal(Witness(ss), ROOT, ss)
  {
    var g := Witness(ss);
    WitnessSane(ss);
    forall i | 0 <= i < |ss|
      ensures Real(g, g.play(ROOT, g.legal(ROOT)[i]), ss[i])
    {
      assert g.play(ROOT, g.legal(ROOT)[i]) == Target(ss[i]);
      TargetReal(ss, ss[i]);
    }
  }

  lemma {:induction false} TargetReal(ss: seq<Status>, s: Status)
    requires s.Resolved? ==> s.exact || s.bound > 0
    ensures Real(Witness(ss), Target(s), s)
  {
    if s.Resolved? {
      ChainValue(ss, s.loss, s.bound);
      if s.loss && !s.exact && s.bound >= 4 {
        ForkValue(ss, s.bound);
      }
    }
  }

  // ----- untrustworthy claims can be wrong -----

  lemma {:induction false} UntrustedWin(ss: seq<Status>, c: Claim)
    requires ss != [] && Plausible(ss) && Summarise(ss) == Some(c) && c.stmWin && c.exact && !Trustworthy(ss, c)
    ensures !Minimal(Witness(ss), ROOT, Win, c.bound)
  {
    hide Summarise, Forced, Recorded;
    WitnessReal(ss);
    var w := WinWitness(ss);
    var g := Witness(ss);
    if !Unsaturated(ss, c) {
      if Forced(g, ROOT, Win, c.bound) {
        WinLower(g, ROOT, ss, c, w, c.bound);
      }
    } else {
      var i :| 0 <= i < |ss| && LossAt(ss, i) && !ss[i].exact;
      ForkWins(ss, i);
    }
  }

  lemma {:induction false} RootShape(ss: seq<Status>, i: nat)
    requires i < |ss|
    ensures var g := Witness(ss);
            g.terminal(ROOT).None? && (i + 1) in g.legal(ROOT) && g.play(ROOT, i + 1) == Target(ss[i])
  {
    hide Target, IsFork, IsAnswer, LineFor;
    assert Numbers(|ss|)[i] == i + 1;
  }

  lemma {:induction false} ForkWins(ss: seq<Status>, i: nat)
    requires i < |ss| && LossAt(ss, i) && !ss[i].exact && ss[i].bound >= 4
    ensures Forced(Witness(ss), ROOT, Win, 3)
  {
    RootShape(ss, i);
    hide Forced, Fork, Witness, Recorded;
    ForkValue(ss, ss[i].bound);
    WinsBy(Witness(ss), ROOT, i + 1, Fork(ss[i].bound), 2);
  }

  lemma {:induction false} UntrustedLoss(ss: seq<Status>, c: Claim)
    requires ss != [] && Plausible(ss) && Summarise(ss) == Some(c) && !c.stmWin && c.exact && !Trustworthy(ss, c)
    ensures !Minimal(Witness(ss), ROOT, Loss, c.bound)
  {
    hide Summarise, Forced, Recorded;
    WitnessReal(ss);
    LossFacts(ss);
    var g := Witness(ss);
    var i :| 0 <= i < |ss| && ss[i].Resolved? && ss[i].bound >= U32_MAX;
    if Forced(g, ROOT, Loss, c.bound) {
      LossLower(g, ROOT, ss, i, c.bound);
    }
  }

  /** The exact mark means "minimal" in every game exactly for trustworthy claims. */
  lemma {:induction false} ExactMeansMinimal(ss: seq<Status>, c: Claim)
    requires Summarise(ss) == Some(c) && c.exact && Plausible(ss)
    ensures Trustworthy(ss, c) <==>
            forall g: Rules, p: Position :: AllReal(g, p, ss) ==> Minimal(g, p, c.Value(), c.bound)
  {
    hide Minimal, AllReal, Trustworthy;
    assert ss != [];
    if Trustworthy(ss, c) {
      forall g: Rules, p: Position | AllReal(g, p, ss)
        ensures Minimal(g, p, c.Value(), c.bound)
      {
        ExactIsMinimal(g, p, ss, c);
      }
    } else {
      WitnessReal(ss);
      if c.stmWin {
        UntrustedWin(ss, c);
      } else {
        UntrustedLoss(ss, c);
      }
    }
  }
}
