/** Implied flips: what the stored facts of a database already imply for its open rows.  This
    part is the reply census and the claim it yields. */
module Flip {
  import opened Game
  import opened Tree

  type Path = seq<Move>

  datatype Row = Row(path: Path, outcome: Option<Outcome>, bound: Option<U32>, exact: bool)

  /** The rows and the path index over them. */
  datatype Store = Store(rows: seq<Row>, byPath: map<Path, nat>)
  {
    ghost predicate Indexed()
    {
      && (forall i :: 0 <= i < |rows| ==> rows[i].path in byPath && byPath[rows[i].path] == i)
      && (forall p :: p in byPath ==> byPath[p] < |rows| && rows[byPath[p]].path == p)
    }

    predicate HasOpen(p: Path)
    {
      p in byPath && byPath[p] < |rows| && rows[byPath[p]].outcome.None?
    }
  }

  datatype Claim = Claim(stmWin: bool, bound: U32, complete: bool, exact: bool, lossWitnesses: nat, unresolved: nat)
  {
    function Value(): Outcome { if stmWin then Win else Loss }
  }

  type Claims = map<Path, Claim>

  /** A reply's status in its own side-to-move terms. */
  datatype Status = Resolved(loss: bool, bound: U32, exact: bool) | Unresolved

  function Bound(r: Row): U32 { if r.bound.Some? then r.bound.value else 0 }

  /** A proven row, else an implied claim, else nothing. */
  function ReplyStatus(s: Store, key: Path, claims: Claims): Status
  {
    if key in s.byPath && s.byPath[key] < |s.rows| && s.rows[s.byPath[key]].outcome.Some? then
      var r := s.rows[s.byPath[key]];
      Resolved(r.outcome == Some(Loss), Bound(r), r.exact)
    else if key in claims then Resolved(!claims[key].stmWin, claims[key].bound, claims[key].exact)
    else Unresolved
  }

  function Statuses(s: Store, path: Path, moves: seq<Move>, claims: Claims): (ss: seq<Status>)
    ensures |ss| == |moves|
  {
    seq(|moves|, i requires 0 <= i < |moves| => ReplyStatus(s, path + [moves[i]], claims))
  }

  // ----- the census -----

  datatype Census = Census(witnesses: seq<(U32, bool)>, maxBound: U32, allExact: bool, unresolved: nat)

  function Count(ss: seq<Status>, n: nat): Census
    requires n <= |ss|
  {
    if n == 0 then Census([], 0, true, 0)
    else
      var c := Count(ss, n - 1);
      match ss[n - 1]
      case Resolved(loss, bound, exact) =>
        c.(maxBound := Max(c.maxBound, bound), allExact := c.allExact && exact,
           witnesses := c.witnesses + if loss then [(bound, exact)] else [])
      case Unresolved => c.(unresolved := c.unresolved + 1)
  }

  function MinWitness(ws: seq<(U32, bool)>): (m: U32)
    requires ws != []
    ensures forall i :: 0 <= i < |ws| ==> m <= ws[i].0
    ensures exists i :: 0 <= i < |ws| && ws[i].0 == m
  {
    if |ws| == 1 then ws[0].0
    else
      var m := MinWitness(ws[..|ws| - 1]);
      if ws[|ws| - 1].0 < m then ws[|ws| - 1].0 else m
  }

  predicate MinExact(ws: seq<(U32, bool)>, m: U32)
  {
    forall i :: 0 <= i < |ws| && ws[i].0 == m ==> ws[i].1
  }

  /** The claim of a census: a win from one resolved loss, a loss when every reply is resolved
      and none is a loss. */
  function Conclude(c: Census): Option<Claim>
  {
    if c.witnesses != [] then
      var m := MinWitness(c.witnesses);
      Some(Claim(true, SatInc(m), c.unresolved == 0, c.unresolved == 0 && MinExact(c.witnesses, m), |c.witnesses|,
              c.unresolved))
    else if c.unresolved == 0 then Some(Claim(false, SatInc(c.maxBound), true, c.allExact, 0, 0))
    else None
  }

  function Summarise(ss: seq<Status>): Option<Claim>
  {
    if ss == [] then None else Conclude(Count(ss, |ss|))
  }

  // ----- what a census says -----

  predicate LossAt(ss: seq<Status>, i: nat) { i < |ss| && ss[i].Resolved? && ss[i].loss }

  lemma {:induction false} CountFacts(ss: seq<Status>, n: nat)
    requires n <= |ss|
    ensures var c := Count(ss, n);
            && (c.unresolved == 0 <==> forall i :: 0 <= i < n ==> ss[i].Resolved?)
            && (c.witnesses == [] <==> forall i :: 0 <= i < n ==> !LossAt(ss, i))
            && (forall i :: 0 <= i < n && ss[i].Resolved? ==> ss[i].bound <= c.maxBound)
            && (c.maxBound == 0 || exists i :: 0 <= i < n && ss[i].Resolved? && ss[i].bound == c.maxBound)
            && (c.allExact <==> forall i :: 0 <= i < n && ss[i].Resolved? ==> ss[i].exact)
  {
    if n > 0 {
      CountFacts(ss, n - 1);
      assert LossAt(ss, n - 1) <==> ss[n - 1].Resolved? && ss[n - 1].loss;
    }
  }

  /** The witnesses are exactly the resolved losses. */
  lemma {:induction false} WitnessFrom(ss: seq<Status>, n: nat, w: nat) returns (i: nat)
    requires n <= |ss| && w < |Count(ss, n).witnesses|
    ensures i < n && LossAt(ss, i) && (ss[i].bound, ss[i].exact) == Count(ss, n).witnesses[w]
    decreases n
  {
    if w < |Count(ss, n - 1).witnesses| {
      i := WitnessFrom(ss, n - 1, w);
    } else {
      i := n - 1;
    }
  }

  lemma {:induction false} WitnessOf(ss: seq<Status>, n: nat, i: nat) returns (w: nat)
    requires i < n <= |ss| && LossAt(ss, i)
    ensures w < |Count(ss, n).witnesses| && Count(ss, n).witnesses[w] == (ss[i].bound, ss[i].exact)
    decreases n
  {
    if i == n - 1 {
      w := |Count(ss, n - 1).witnesses|;
    } else {
      w := WitnessOf(ss, n - 1, i);
    }
  }

  /** A win claim binds one more than the smallest loss bound; it exists exactly when some
      reply is a resolved loss. */
  ghost predicate WinMeans(ss: seq<Status>, c: Claim)
  {
    && (exists i :: 0 <= i < |ss| && LossAt(ss, i) && c.bound == SatInc(ss[i].bound))
    && (forall i :: 0 <= i < |ss| && LossAt(ss, i) ==> c.bound <= SatInc(ss[i].bound))
  }

  /** A loss claim binds one more than the largest bound and needs every reply. */
  ghost predicate LossMeans(ss: seq<Status>, c: Claim)
  {
    && ss != []
    && (forall i :: 0 <= i < |ss| ==> ss[i].Resolved? && !ss[i].loss && SatInc(ss[i].bound) <= c.bound)
    && exists i :: 0 <= i < |ss| && c.bound == SatInc(ss[i].bound)
  }

  lemma {:induction false} WinClaim(ss: seq<Status>)
    requires exists i :: 0 <= i < |ss| && LossAt(ss, i)
    ensures Summarise(ss).Some? && Summarise(ss).value.stmWin && WinMeans(ss, Summarise(ss).value)
  {
    var n := |ss|;
    CountFacts(ss, n);
    var c := Count(ss, n);
    var m := MinWitness(c.witnesses);
    var w :| 0 <= w < |c.witnesses| && c.witnesses[w].0 == m;
    var i := WitnessFrom(ss, n, w);
    forall j | 0 <= j < n && LossAt(ss, j)
      ensures m <= ss[j].bound
    {
      var v := WitnessOf(ss, n, j);
    }
  }

  lemma {:induction false} LossClaim(ss: seq<Status>)
    requires ss != [] && forall i :: 0 <= i < |ss| ==> ss[i].Resolved? && !ss[i].loss
    ensures Summarise(ss).Some? && !Summarise(ss).value.stmWin && LossMeans(ss, Summarise(ss).value)
  {
    CountFacts(ss, |ss|);
    var c := Count(ss, |ss|);
    if c.maxBound == 0 {
      assert ss[0].bound == 0;
    } else {
      var i :| 0 <= i < |ss| && ss[i].Resolved? && ss[i].bound == c.maxBound;
      assert SatInc(ss[i].bound) == SatInc(c.maxBound);
    }
  }

  /** A claim is made exactly on a resolved loss, or when all replies are resolved. */
  lemma {:induction false} ClaimIff(ss: seq<Status>)
    ensures Summarise(ss).Some? <==>
              (exists i :: 0 <= i < |ss| && LossAt(ss, i)) || (ss != [] && forall i :: 0 <= i < |ss| ==>
                ss[i].Resolved?)
    ensures Summarise(ss).Some? ==> (Summarise(ss).value.stmWin <==> exists i :: 0 <= i < |ss| && LossAt(ss, i))
    ensures Summarise(ss).Some? && Summarise(ss).value.stmWin ==> WinMeans(ss, Summarise(ss).value)
    ensures Summarise(ss).Some? && !Summarise(ss).value.stmWin ==> LossMeans(ss, Summarise(ss).value)
  {
    CountFacts(ss, |ss|);
    if exists i :: 0 <= i < |ss| && LossAt(ss, i) {
      WinClaim(ss);
    } else if ss != [] && forall i :: 0 <= i < |ss| ==> ss[i].Resolved? {
      forall i | 0 <= i < |ss|
        ensures !ss[i].loss
      {
        assert !LossAt(ss, i);
      }
      LossClaim(ss);
    }
  }

  // ----- refinement -----

  /** `b` knows at least what `a` knows, with bounds no larger. */
  predicate Sharper(a: Status, b: Status)
  {
    a.Resolved? ==> b.Resolved? && b.loss == a.loss && b.bound <= a.bound
  }

  predicate SharperClaim(a: Option<Claim>, b: Option<Claim>)
  {
    a.Some? ==> b.Some? && b.value.stmWin == a.value.stmWin && b.value.bound <= a.value.bound
  }

  /** Sharper replies give a sharper claim: polarity never changes, bounds never grow. */
  lemma {:induction false} SummariseMonotone(a: seq<Status>, b: seq<Status>)
    requires |a| == |b| && forall i :: 0 <= i < |a| ==> Sharper(a[i], b[i])
    ensures SharperClaim(Summarise(a), Summarise(b))
  {
    hide Summarise, SatInc;
    ClaimIff(a);
    ClaimIff(b);
    if Summarise(a).Some? {
      if Summarise(a).value.stmWin {
        var i :| 0 <= i < |a| && LossAt(a, i) && Summarise(a).value.bound == SatInc(a[i].bound);
        assert Sharper(a[i], b[i]) && LossAt(b, i);
        SatMonotone(b[i].bound, a[i].bound);
      } else {
        LossSharper(a, b, Summarise(a).value);
        var i :| 0 <= i < |b| && Summarise(b).value.bound == SatInc(b[i].bound);
        assert Sharper(a[i], b[i]);
        SatMonotone(b[i].bound, a[i].bound);
      }
    }
  }

  lemma {:induction false} SatMonotone(x: U32, y: U32)
    requires x <= y
    ensures SatInc(x) <= SatInc(y)
  {
  }

  lemma {:induction false} LossSharper(a: seq<Status>, b: seq<Status>, c: Claim)
    requires |a| == |b| && (forall i :: 0 <= i < |a| ==> Sharper(a[i], b[i])) && LossMeans(a, c)
    ensures b != [] && forall i :: 0 <= i < |b| ==> b[i].Resolved? && !LossAt(b, i)
  {
    forall i | 0 <= i < |b|
      ensures b[i].Resolved? && !LossAt(b, i)
    {
      assert Sharper(a[i], b[i]);
    }
  }

  // ----- truth -----

  /** A claim is true: its outcome holds, within its bound unless the bound saturated. */
  ghost predicate ClaimTrue(g: Rules, p: Position, o: Outcome, bound: U32)
  {
    Holds(g, p, o) && (bound < U32_MAX ==> Forced(g, p, o, bound))
  }

  ghost predicate StatusTrue(g: Rules, p: Position, s: Status)
  {
    s.Resolved? ==> ClaimTrue(g, p, if s.loss then Loss else Win, s.bound)
  }

  /** True replies make a true claim. */
  lemma {:induction false} SummariseSound(g: Rules, p: Position, ss: seq<Status>)
    requires g.terminal(p).None? && |ss| == |g.legal(p)|
    requires forall i :: 0 <= i < |ss| ==> StatusTrue(g, g.play(p, g.legal(p)[i]), ss[i])
    ensures Summarise(ss).Some? ==> ClaimTrue(g, p, Summarise(ss).value.Value(), Summarise(ss).value.bound)
  {
    hide Summarise;
    ClaimIff(ss);
    if Summarise(ss).Some? {
      var c := Summarise(ss).value;
      if c.stmWin {
        var i :| 0 <= i < |ss| && LossAt(ss, i) && c.bound == SatInc(ss[i].bound);
        WinSound(g, p, g.legal(p)[i], ss[i], c.bound);
      } else {
        LossSound(g, p, ss, c);
      }
    }
  }

  /** One true losing reply suffices. */
  lemma {:induction false} WinSound(g: Rules, p: Position, m: Move, s: Status, bound: U32)
    requires g.terminal(p).None? && m in g.legal(p) && s.Resolved? && s.loss && StatusTrue(g, g.play(p, m), s)
    requires bound == SatInc(s.bound)
    ensures ClaimTrue(g, p, Win, bound)
  {
    WinByReply(g, p, m);
    if bound < U32_MAX {
      assert Forced(g, g.play(p, m), Loss, bound - 1);
    }
  }

  lemma {:induction false} LossSound(g: Rules, p: Position, ss: seq<Status>, c: Claim)
    requires g.terminal(p).None? && |ss| == |g.legal(p)| && LossMeans(ss, c)
    requires forall i :: 0 <= i < |ss| ==> StatusTrue(g, g.play(p, g.legal(p)[i]), ss[i])
    ensures ClaimTrue(g, p, Loss, c.bound)
  {
    forall i | 0 <= i < |ss|
      ensures Holds(g, g.play(p, g.legal(p)[i]), Win)
      ensures c.bound < U32_MAX ==> Forced(g, g.play(p, g.legal(p)[i]), Win, c.bound - 1)
    {
      assert StatusTrue(g, g.play(p, g.legal(p)[i]), ss[i]);
      if c.bound < U32_MAX {
        ForcedMonotone(g, g.play(p, g.legal(p)[i]), Win, ss[i].bound, c.bound - 1);
      }
    }
    LossByReplies(g, p);
    if c.bound < U32_MAX {
      assert Forced(g, p, Loss, c.bound);
    }
  }
}
