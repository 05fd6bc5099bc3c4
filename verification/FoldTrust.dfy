/** What an accepted store proves: exactly when every stored claim is true. */
module FoldTrust {
  import opened Game
  import opened Paths
  import opened Fold
  import opened FoldLoad
  import opened FoldVerify
  import opened FoldVerdict

  /** The row's claim is true at `p`, within its bound. */
  ghost predicate RowTrue(g: Rules, r: Row, p: Position)
  {
    r.outcome.Some? ==> BoundOr0(r) >= 0 && Forced(g, p, r.outcome.value, BoundOr0(r))
  }

  /** What the validator does not look at: whether a row with a bound is an ended game, and
      whether a Win row's children are played moves. */
  ghost predicate RowTrusted(g: Rules, r: Row, p: Position)
  {
    r.outcome.Some? && BoundOr0(r) != 0 ==>
      && BoundOr0(r) > 0
      && (g.terminal(p) == r.outcome || (g.terminal(p).None? && (r.outcome == Some(Win) ==> r.ply != -1)))
  }

  ghost predicate AllTrue(g: Rules, rows: seq<Row>, at: map<nat, Position>)
  {
    forall j: nat :: j < |rows| ==> j in at && RowTrue(g, rows[j], at[j])
  }

  ghost predicate AllTrusted(g: Rules, rows: seq<Row>, at: map<nat, Position>)
  {
    forall j: nat :: j < |rows| ==> j in at && RowTrusted(g, rows[j], at[j])
  }

  /** Stored bounds come from 32-bit depths. */
  predicate Narrow(rows: seq<Row>)
  {
    forall j :: 0 <= j < |rows| ==> BoundOr0(rows[j]) <= U32_MAX
  }

  /** The least Loss bound is some Loss child's. */
  lemma {:induction false} MinLossAt(rows: seq<Row>, ks: seq<nat>, n: nat) returns (x: nat)
    requires n <= |ks| && (forall y :: 0 <= y < |ks| ==> ks[y] < |rows|) && MinLoss(rows, ks, n) < U32_MAX
    ensures x < n && IsLoss(rows[ks[x]]) && rows[ks[x]].bound.Some?
            && Cast(rows[ks[x]].bound.value) == MinLoss(rows, ks, n)
  {
    var r := rows[ks[n - 1]];
    if IsLoss(r) && r.bound.Some? && Cast(r.bound.value) < MinLoss(rows, ks, n - 1) {
      x := n - 1;
    } else {
      x := MinLossAt(rows, ks, n - 1);
    }
  }

  lemma {:induction false} MaxKidOver(rows: seq<Row>, ks: seq<nat>, n: nat, x: nat)
    requires x < n <= |ks| && forall y :: 0 <= y < |ks| ==> ks[y] < |rows|
    ensures BoundOr0(rows[ks[x]]) <= MaxKid(rows, ks, n)
  {
    if x < n - 1 {
      MaxKidOver(rows, ks, n - 1, x);
    }
  }

  /** The proving child of an accepted Win row. */
  lemma {:induction false} WinChild(g: Rules, rows: seq<Row>, at: map<nat, Position>, j: nat) returns (c: nat)
    requires Okay(g, rows, at, j) && rows[j].outcome == Some(Win) && BoundOr0(rows[j]) > 0 && Narrow(rows)
    requires AllTrusted(g, rows, at) || AllTrue(g, rows, at)
    ensures KidFine(g, rows, at, j, c) && rows[c].outcome == Some(Loss) && BoundOr0(rows[c]) == BoundOr0(rows[j]) - 1
  {
    var ks := KidRows(rows, j);
    assert WinFine(rows, ks, BoundOr0(rows[j]));
    var x := MinLossAt(rows, ks, |ks|);
    c := ks[x];
    assert c in ks;
    hide BodyFine, MoveFine, Step, FieldsFine, KidRows, MinLoss;
    assert KidFine(g, rows, at, j, c);
    assert BoundOr0(rows[c]) >= 0;
  }

  /** The answer to a legal move in an accepted Loss row. */
  lemma {:induction false} LossChild(g: Rules, rows: seq<Row>, at: map<nat, Position>, j: nat, m: Move) returns (c: nat)
    requires Okay(g, rows, at, j) && rows[j].outcome == Some(Loss) && BoundOr0(rows[j]) != 0 && m in g.legal(at[j])
    ensures KidFine(g, rows, at, j, c) && rows[c].outcome == Some(Win) && BoundOr0(rows[c]) < BoundOr0(rows[j])
    ensures at[c] == g.play(at[j], m)
  {
    var ks := KidRows(rows, j);
    assert LossFine(g, rows, ks, BoundOr0(rows[j]), at[j]);
    var i :| 0 <= i < |g.legal(at[j])| && g.legal(at[j])[i] == m;
    assert HasReply(rows, ks, g.legal(at[j])[i]);
    var x: nat :| x < |ks| && rows[ks[x]].mv == Some(m);
    assert IsWon(rows[ks[x]]);
    MaxKidOver(rows, ks, |ks|, x);
    c := ks[x];
    assert c in ks;
    hide BodyFine, FieldsFine, KidRows, MaxKid;
    assert KidFine(g, rows, at, j, c);
  }

  lemma {:induction false} TrustedTrue(g: Rules, start: Position, rows: seq<Row>, at: map<nat, Position>, j: nat)
    requires g.Sane() && Accepted(g, start, rows, at) && Narrow(rows) && AllTrusted(g, rows, at) && j < |rows|
    ensures j in at && RowTrue(g, rows[j], at[j])
    decreases BoundOr0(rows[j]), 1
  {
    assert Okay(g, rows, at, j);
    var r, p := rows[j], at[j];
    assert RowTrusted(g, r, p);
    if r.outcome.Some? && BoundOr0(r) != 0 && g.terminal(p).None? {
      hide Accepted, KidRows, Narrow, AllTrusted, FieldsFine, KidFine;
      if r.outcome == Some(Win) {
        TrustedWin(g, start, rows, at, j);
      } else {
        forall m | m in g.legal(p)
          ensures Forced(g, g.play(p, m), Win, BoundOr0(r) - 1)
        {
          TrustedReply(g, start, rows, at, j, m);
        }
      }
    }
  }

  lemma {:induction false} TrustedWin(g: Rules, start: Position, rows: seq<Row>, at: map<nat, Position>, j: nat)
    requires g.Sane() && Accepted(g, start, rows, at) && Narrow(rows) && AllTrusted(g, rows, at)
    requires Okay(g, rows, at, j) && rows[j].outcome == Some(Win) && BoundOr0(rows[j]) > 0 && g.terminal(at[j]).None?
    ensures Forced(g, at[j], Win, BoundOr0(rows[j]))
    decreases BoundOr0(rows[j]), 0
  {
    assert RowTrusted(g, rows[j], at[j]);
    hide Accepted, KidRows, Narrow, AllTrusted, FieldsFine, Okay;
    var c := WinChild(g, rows, at, j);
    TrustedTrue(g, start, rows, at, c);
    assert Forced(g, g.play(at[j], rows[c].mv.value), Loss, BoundOr0(rows[j]) - 1);
  }

  lemma {:induction false} TrustedReply(g: Rules, start: Position, rows: seq<Row>, at: map<nat, Position>, j: nat,
          m: Move)
    requires g.Sane() && Accepted(g, start, rows, at) && Narrow(rows) && AllTrusted(g, rows, at)
    requires Okay(g, rows, at, j) && rows[j].outcome == Some(Loss) && BoundOr0(rows[j]) > 0 && m in g.legal(at[j])
    ensures Forced(g, g.play(at[j], m), Win, BoundOr0(rows[j]) - 1)
    decreases BoundOr0(rows[j]), 0
  {
    hide Accepted, KidRows, Narrow, AllTrusted, FieldsFine, Okay;
    var c := LossChild(g, rows, at, j, m);
    TrustedTrue(g, start, rows, at, c);
    ForcedMonotone(g, at[c], Win, BoundOr0(rows[c]), BoundOr0(rows[j]) - 1);
  }

  lemma {:induction false} TrueTrusted(g: Rules, start: Position, rows: seq<Row>, at: map<nat, Position>, j: nat)
    requires g.Sane() && Accepted(g, start, rows, at) && Narrow(rows) && AllTrue(g, rows, at) && j < |rows|
    ensures RowTrusted(g, rows[j], at[j])
  {
    assert Okay(g, rows, at, j) && RowTrue(g, rows[j], at[j]);
    var r, p := rows[j], at[j];
    if r.outcome == Some(Win) && BoundOr0(r) != 0 && g.terminal(p).None? && r.ply == -1 {
      var c := WinChild(g, rows, at, j);
      assert RowTrue(g, rows[c], at[c]);
      Determined(g, p, Win, BoundOr0(r), Loss, BoundOr0(rows[c]));
      assert false;
    }
  }

  /** Every claim of an accepted store is true within its bound exactly when every bounded row is
      open, or ends as it says, and no Win row hangs on a child that is not a move. */
  lemma {:induction false} VerifiedTrueIff(g: Rules, start: Position, rows: seq<Row>, at: map<nat, Position>)
    requires g.Sane() && Accepted(g, start, rows, at) && Narrow(rows)
    ensures AllTrue(g, rows, at) <==> AllTrusted(g, rows, at)
  {
    hide Accepted, RowTrue, RowTrusted, Narrow;
    AllPlacedIn(g, start, rows, at);
    if AllTrusted(g, rows, at) {
      forall j: nat | j < |rows|
        ensures RowTrue(g, rows[j], at[j])
      {
        TrustedTrue(g, start, rows, at, j);
      }
    }
    if AllTrue(g, rows, at) {
      forall j: nat | j < |rows|
        ensures RowTrusted(g, rows[j], at[j])
      {
        TrueTrusted(g, start, rows, at, j);
      }
    }
  }

  lemma {:induction false} AllPlacedIn(g: Rules, start: Position, rows: seq<Row>, at: map<nat, Position>)
    requires Accepted(g, start, rows, at)
    ensures forall j: nat :: j < |rows| ==> j in at
  {
    forall j: nat | j < |rows|
      ensures j in at
    {
      assert Okay(g, rows, at, j);
    }
  }

  // ----- the condition is needed -----

  const STALE_GAME: Rules := Rules(
    p => if p == 0 then [1] else [],
    (p, m) => 1,
    p => if p == 0 then None else Some(Draw),
    p => if p == 0 then 0 else 1)

  const STALE_ROOT: Row := Row(0, None, 0, None, None, None, None, None, {})
  const STALE_LEAF: Row := Row(1, Some(0), 1, Some(1), Some(1), Some(Loss), Some(3), Some(Upper), {"t"})

  lemma {:induction false} StaleKids(rows: seq<Row>)
    requires rows == [STALE_ROOT, STALE_LEAF]
    ensures KidRows(rows, 0) == [1] && KidRows(rows, 1) == []
  {
    hide KidRows;
    assert ChildRows(rows, 0, 0) == [] && ChildRows(rows, 0, 1) == [] && ChildRows(rows, 0, 2) == [1];
    assert ChildRows(rows, 1, 0) == [] && ChildRows(rows, 1, 1) == [] && ChildRows(rows, 1, 2) == [];
    StaleRead(rows);
  }

  lemma {:induction false} StaleRead(rows: seq<Row>)
    requires rows == [STALE_ROOT, STALE_LEAF]
    ensures KidRows(rows, 0) == ChildRows(rows, 0, 2) && KidRows(rows, 1) == ChildRows(rows, 1, 2)
  {
    hide ChildRows;
  }

  lemma {:induction false} StaleLeafFine(rows: seq<Row>)
    requires rows == [STALE_ROOT, STALE_LEAF]
    ensures BodyFine(STALE_GAME, rows, [], STALE_LEAF, 1) && FieldsFine(STALE_LEAF) && FieldsFine(STALE_ROOT)
    ensures KidFine(STALE_GAME, rows, map[0 := 0, 1 := 1], 0, 1) && BodyFine(STALE_GAME, rows, [1], STALE_ROOT, 0)
  {
  }

  lemma {:induction false} StaleOkay(rows: seq<Row>, at: map<nat, Position>)
    requires rows == [STALE_ROOT, STALE_LEAF] && at == map[0 := 0, 1 := 1]
    ensures Okay(STALE_GAME, rows, at, 0) && Okay(STALE_GAME, rows, at, 1)
    ensures HasParentIn(rows, at, 0) && HasParentIn(rows, at, 1)
  {
    StaleKids(rows);
    StaleLeafFine(rows);
    hide KidFine, BodyFine, KidRows, FieldsFine;
    assert 0 in at && rows[1].parent == Some(rows[0].id);
  }

  lemma {:induction false} StaleRootFine(rows: seq<Row>, at: map<nat, Position>)
    requires rows == [STALE_ROOT, STALE_LEAF] && at == map[0 := 0, 1 := 1]
    ensures |rows| == 2 && rows[0].parent.None? && rows[1].parent.Some? && ById(rows) && 0 in at
    ensures MoveFine(STALE_GAME, rows[0], 0) && at[0] == Step(STALE_GAME, rows[0], 0)
  {
  }

  lemma {:induction false} StaleAccepts(rows: seq<Row>, at: map<nat, Position>)
    requires rows == [STALE_ROOT, STALE_LEAF] && at == map[0 := 0, 1 := 1]
    ensures Accepted(STALE_GAME, 0, rows, at)
  {
    hide Okay, HasParentIn, MoveFine, Step, STALE_ROOT, STALE_LEAF, STALE_GAME, ById;
    StaleOkay(rows, at);
    StaleRootFine(rows, at);
  }

  /** A stalemated position stored as a loss in three is accepted. */
  lemma {:induction false} StalemateAccepted()
    ensures STALE_GAME.Sane() && ById([STALE_ROOT, STALE_LEAF]) && Acceptable(STALE_GAME, 0, [STALE_ROOT, STALE_LEAF])
    ensures !Holds(STALE_GAME, 1, Loss)
  {
    hide Accepted;
    var at: map<nat, Position> := map[0 := 0, 1 := 1];
    StaleAccepts([STALE_ROOT, STALE_LEAF], at);
  }

  /** One move from each of three positions; whoever moves at the end has lost. */
  const SHORT_GAME: Rules := Rules(
    p => if 0 <= p < 3 then [1] else [],
    (p, m) => p + 1,
    p => if 0 <= p < 3 then None else Some(Loss),
    p => if p < 0 then 0 else p)

  const SHIFTED_ROOT: Row := Row(0, None, -1, Some(1), Some(1), Some(Win), Some(3), Some(Upper), {"t"})
  const UNMOVED: Row := Row(1, Some(0), 0, None, None, Some(Loss), Some(2), Some(Upper), {})
  const WON: Row := Row(2, Some(1), 1, Some(1), Some(1), Some(Win), Some(1), Some(Upper), {"t"})
  const ENDED: Row := Row(3, Some(2), 2, Some(1), Some(1), Some(Loss), Some(0), Some(Exact), {"t"})

  ghost predicate ShiftedRows(rows: seq<Row>, at: map<nat, Position>)
  {
    rows == [SHIFTED_ROOT, UNMOVED, WON, ENDED] && at == map[0 := 1, 1 := 1, 2 := 2, 3 := 3]
  }

  lemma {:induction false} OneChildRow(rows: seq<Row>, id: int, c: nat, n: nat)
    requires n <= |rows| && c < |rows| && forall k :: 0 <= k < |rows| ==> (rows[k].parent == Some(id) <==> k == c)
    ensures ChildRows(rows, id, n) == if c < n then [c] else []
  {
    if n > 0 {
      OneChildRow(rows, id, c, n - 1);
    }
  }

  lemma {:induction false} NoChildRow(rows: seq<Row>, id: int, n: nat)
    requires n <= |rows| && forall k :: 0 <= k < |rows| ==> rows[k].parent != Some(id)
    ensures ChildRows(rows, id, n) == []
  {
    if n > 0 {
      NoChildRow(rows, id, n - 1);
    }
  }

  lemma {:induction false} ShiftedKids(rows: seq<Row>, at: map<nat, Position>)
    requires ShiftedRows(rows, at)
    ensures |rows| == 4 && KidRows(rows, 0) == [1] && KidRows(rows, 1) == [2] && KidRows(rows, 2) == [3]
            && KidRows(rows, 3) == []
  {
    OneChildRow(rows, 0, 1, 4);
    OneChildRow(rows, 1, 2, 4);
    OneChildRow(rows, 2, 3, 4);
    NoChildRow(rows, 3, 4);
  }

  lemma {:induction false} ShiftedLinks(rows: seq<Row>, at: map<nat, Position>)
    requires ShiftedRows(rows, at)
    ensures KidFine(SHORT_GAME, rows, at, 0, 1) && KidFine(SHORT_GAME, rows, at, 1, 2)
            && KidFine(SHORT_GAME, rows, at, 2, 3)
    ensures forall k: nat :: k < 4 ==> k in at && FieldsFine(rows[k]) && rows[k].outcome != Some(Draw)
  {
  }

  lemma {:induction false} ShiftedRules(rows: seq<Row>, at: map<nat, Position>)
    requires ShiftedRows(rows, at)
    ensures BodyFine(SHORT_GAME, rows, [1], rows[0], 1) && BodyFine(SHORT_GAME, rows, [2], rows[1], 1)
    ensures BodyFine(SHORT_GAME, rows, [3], rows[2], 2) && BodyFine(SHORT_GAME, rows, [], rows[3], 3)
  {
    assert MinLoss(rows, [1], 0) == U32_MAX && MinLoss(rows, [1], 1) == 2;
    assert MinLoss(rows, [3], 0) == U32_MAX && MinLoss(rows, [3], 1) == 0;
    assert MaxKid(rows, [2], 0) == 0 && MaxKid(rows, [2], 1) == 1;
    assert IsLoss(rows[[1][0]]) && IsLoss(rows[[3][0]]);
    assert rows[[2][0]].mv == Some(1);
  }

  lemma {:induction false} OkayFrom(g: Rules, rows: seq<Row>, at: map<nat, Position>, j: nat, kids: seq<nat>,
          p: Position)
    requires j < |rows| && j in at && at[j] == p && FieldsFine(rows[j]) && rows[j].outcome != Some(Draw)
    requires KidRows(rows, j) == kids && (forall c :: c in kids ==> KidFine(g, rows, at, j, c))
    requires BodyFine(g, rows, kids, rows[j], p)
    ensures Okay(g, rows, at, j)
  {
    hide KidRows, KidFine, BodyFine, FieldsFine;
  }

  lemma {:induction false} ShiftedParents(rows: seq<Row>, at: map<nat, Position>, k: nat)
    requires ShiftedRows(rows, at) && k < 4
    ensures HasParentIn(rows, at, k)
  {
    if k > 0 {
      assert (k - 1) in at && rows[k].parent == Some(rows[k - 1].id);
    }
  }

  lemma {:induction false} ShiftedPlaces(rows: seq<Row>, at: map<nat, Position>)
    requires ShiftedRows(rows, at)
    ensures 0 in at && 1 in at && 2 in at && 3 in at && at[0] == 1 && at[1] == 1 && at[2] == 2 && at[3] == 3
  {
  }

  lemma {:induction false} ShiftedOkay(rows: seq<Row>, at: map<nat, Position>, k: nat)
    requires ShiftedRows(rows, at) && k < 4
    ensures Okay(SHORT_GAME, rows, at, k) && HasParentIn(rows, at, k)
  {
    hide *;
    ShiftedKids(rows, at);
    ShiftedLinks(rows, at);
    ShiftedRules(rows, at);
    ShiftedPlaces(rows, at);
    ShiftedParents(rows, at, k);
    if k == 3 {
      OkayFrom(SHORT_GAME, rows, at, 3, [], 3);
    } else {
      OkayFrom(SHORT_GAME, rows, at, k, [k + 1], if k == 2 then 2 else 1);
    }
  }

  lemma {:induction false} ShiftedRootFine(rows: seq<Row>, at: map<nat, Position>)
    requires ShiftedRows(rows, at)
    ensures |rows| == 4 && ById(rows) && forall k: nat :: k < 4 ==> (rows[k].parent.None? <==> k == 0)
    ensures 0 in at && MoveFine(SHORT_GAME, rows[0], 0) && at[0] == Step(SHORT_GAME, rows[0], 0)
  {
  }

  lemma {:induction false} ShiftedAccepts(rows: seq<Row>, at: map<nat, Position>)
    requires ShiftedRows(rows, at)
    ensures Accepted(SHORT_GAME, 0, rows, at)
  {
    hide Okay, HasParentIn, MoveFine, Step, ShiftedRows, ById;
    ShiftedRootFine(rows, at);
    forall k: nat | k < 4
      ensures Okay(SHORT_GAME, rows, at, k) && HasParentIn(rows, at, k)
    {
      ShiftedOkay(rows, at, k);
    }
  }

  lemma {:induction false} ShortLost()
    ensures Holds(SHORT_GAME, 1, Loss)
  {
    var g := SHORT_GAME;
    assert Forced(g, 3, Loss, 0);
    assert 1 in g.legal(2) && Forced(g, 2, Win, 1);
    assert Forced(g, 1, Loss, 2);
  }

  /** A root at ply -1 that claims a win because its unmoved child, the same position, is lost. */
  lemma {:induction false} UnmovedAccepted()
    ensures SHORT_GAME.Sane() && ById([SHIFTED_ROOT, UNMOVED, WON, ENDED])
    ensures Acceptable(SHORT_GAME, 0, [SHIFTED_ROOT, UNMOVED, WON, ENDED])
    ensures SHORT_GAME.terminal(1).None? && !Holds(SHORT_GAME, 1, Win)
  {
    hide Accepted;
    var rows := [SHIFTED_ROOT, UNMOVED, WON, ENDED];
    var at: map<nat, Position> := map[0 := 1, 1 := 1, 2 := 2, 3 := 3];
    ShiftedAccepts(rows, at);
    ShiftedRootFine(rows, at);
    ShortLost();
    if Holds(SHORT_GAME, 1, Win) {
      HoldsUnique(SHORT_GAME, 1, Win, Loss);
      assert false;
    }
  }
}
