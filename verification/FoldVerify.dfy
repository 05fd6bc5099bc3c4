/** The whole-store validator: one walk over the rows, replaying every move.  It accepts exactly
    the tables that have a consistent assignment of positions. */
module FoldVerify {
  import opened Game
  import opened Lists
  import opened Paths
  import opened Fold
  import opened FoldLoad

  const WORD: nat := 0x1_0000_0000

  datatype Complaint =
    | VisitedTwice | RootWithMove | NoMove | IllegalMove | CodeDiffers | NoProvenance | OpenWithBound
    | ProvenWithoutBound | WrongPly | Unreadable | TerminalWithChildren | NotTerminal | NoLossChild | WrongWinBound
    | MissingReply | ExtraReply | ReplyNotWon | WrongLossBound

  datatype DbDefect = DbDefect(id: int, what: Complaint)

  /** The children of a row. */
  function KidRows(rows: seq<Row>, k: nat): (ks: seq<nat>)
    requires k < |rows|
    ensures forall c: nat :: c in ks <==> c < |rows| && rows[c].parent == Some(rows[k].id)
    ensures forall x :: 0 <= x < |ks| ==> ks[x] < |rows|
  {
    var ks := ChildRows(rows, rows[k].id, |rows|);
    assert forall x :: 0 <= x < |ks| ==> ks[x] in ks;
    ks
  }

  // ----- the checks of one row -----

  /** The row's move is legal at the parent's position `p` and its code agrees. */
  predicate MoveFine(g: Rules, r: Row, p: Position)
  {
    if r.ply == 0 then r.mv.None? && r.code.None? else r.mv.Some? && r.mv.value in g.legal(p) && r.code == r.mv
  }

  /** The position of a row below `p`. */
  function Step(g: Rules, r: Row, p: Position): Position
  {
    if r.ply == 0 || r.mv.None? then p else g.play(p, r.mv.value)
  }

  predicate FieldsFine(r: Row)
  {
    (r.prov != {} || r.ply == 0) && (r.bound.Some? <==> r.outcome.Some?) && (r.status.Some? <==> r.outcome.Some?)
  }

  function BoundOr0(r: Row): int { if r.bound.Some? then r.bound.value else 0 }

  /** A bound cast to 32 bits. */
  function Cast(b: int): nat { Max(b, 0) % WORD }

  predicate IsLoss(r: Row) { r.outcome == Some(Loss) }

  /** The least bound among the Loss children, or the largest word. */
  function MinLoss(rows: seq<Row>, ks: seq<nat>, n: nat): (m: nat)
    requires n <= |ks| && forall x :: 0 <= x < |ks| ==> ks[x] < |rows|
    ensures m < WORD
  {
    if n == 0 then U32_MAX
    else
      var m, r := MinLoss(rows, ks, n - 1), rows[ks[n - 1]];
      if IsLoss(r) && r.bound.Some? && Cast(r.bound.value) < m then Cast(r.bound.value) else m
  }

  function MaxKid(rows: seq<Row>, ks: seq<nat>, n: nat): int
    requires n <= |ks| && forall x :: 0 <= x < |ks| ==> ks[x] < |rows|
  {
    if n == 0 then 0 else Max(MaxKid(rows, ks, n - 1), BoundOr0(rows[ks[n - 1]]))
  }

  ghost predicate HasLoss(rows: seq<Row>, ks: seq<nat>, n: nat)
    requires n <= |ks| && forall x :: 0 <= x < |ks| ==> ks[x] < |rows|
  {
    exists x :: 0 <= x < n && IsLoss(rows[ks[x]])
  }

  ghost predicate WinFine(rows: seq<Row>, ks: seq<nat>, bound: int)
    requires forall x :: 0 <= x < |ks| ==> ks[x] < |rows|
  {
    HasLoss(rows, ks, |ks|) && (MinLoss(rows, ks, |ks|) + 1) % WORD == bound
  }

  predicate HasReply(rows: seq<Row>, ks: seq<nat>, m: Move)
    requires forall x :: 0 <= x < |ks| ==> ks[x] < |rows|
  {
    exists x :: 0 <= x < |ks| && rows[ks[x]].mv == Some(m)
  }

  predicate IsReply(g: Rules, p: Position, r: Row) { r.mv.Some? ==> r.mv.value in g.legal(p) }

  predicate IsWon(r: Row) { r.outcome == Some(Win) }

  ghost predicate RepliesFine(g: Rules, rows: seq<Row>, ks: seq<nat>, p: Position)
    requires forall x :: 0 <= x < |ks| ==> ks[x] < |rows|
  {
    && (forall i :: 0 <= i < |g.legal(p)| ==> HasReply(rows, ks, g.legal(p)[i]))
    && (forall x :: 0 <= x < |ks| ==> IsReply(g, p, rows[ks[x]]))
    && forall x :: 0 <= x < |ks| ==> IsWon(rows[ks[x]])
  }

  ghost predicate LossFine(g: Rules, rows: seq<Row>, ks: seq<nat>, bound: int, p: Position)
    requires forall x :: 0 <= x < |ks| ==> ks[x] < |rows|
  {
    RepliesFine(g, rows, ks, p) && (|ks| > 0 ==> MaxKid(rows, ks, |ks|) + 1 == bound)
  }

  /** The proof rules of a row at its position. */
  ghost predicate BodyFine(g: Rules, rows: seq<Row>, ks: seq<nat>, r: Row, p: Position)
    requires forall x :: 0 <= x < |ks| ==> ks[x] < |rows|
  {
    match r.outcome
    case None => true
    case Some(o) =>
      if BoundOr0(r) == 0 then |ks| == 0 && g.terminal(p) == Some(o)
      else match o
        case Win => WinFine(rows, ks, BoundOr0(r))
        case Loss => LossFine(g, rows, ks, BoundOr0(r), p)
        case Draw => false
  }

  // ----- what is accepted -----

  /** The child row `c` of a row at `p` is stored one ply on and placed where its move leads. */
  ghost predicate KidFine(g: Rules, rows: seq<Row>, at: map<nat, Position>, j: nat, c: nat)
  {
    && j < |rows| && c < |rows| && j in at && c in at && rows[c].ply == rows[j].ply + 1 && rows[c].outcome != Some(Draw)
    && MoveFine(g, rows[c], at[j]) && at[c] == Step(g, rows[c], at[j])
  }

  /** Row `j` passes every check at its position. */
  ghost predicate Okay(g: Rules, rows: seq<Row>, at: map<nat, Position>, j: nat)
  {
    && j < |rows| && j in at && FieldsFine(rows[j]) && rows[j].outcome != Some(Draw)
    && (forall c :: c in KidRows(rows, j) ==> KidFine(g, rows, at, j, c))
    && BodyFine(g, rows, KidRows(rows, j), rows[j], at[j])
  }

  ghost predicate HasParentIn(rows: seq<Row>, at: map<nat, Position>, j: nat)
  {
    j < |rows|
    && (rows[j].parent.Some? ==> exists q: nat :: q in at && q < |rows| && rows[j].parent == Some(rows[q].id))
  }

  /** One root, every row reached from it, and every row fine at its position. */
  ghost predicate Accepted(g: Rules, start: Position, rows: seq<Row>, at: map<nat, Position>)
  {
    && (exists k :: 0 <= k < |rows| && rows[k].parent.None?)
    && (forall j, k :: 0 <= j < |rows| && 0 <= k < |rows| && rows[j].parent.None? && rows[k].parent.None? ==> j == k)
    && (forall k: nat :: k < |rows| && rows[k].parent.None? ==>
         k in at && MoveFine(g, rows[k], start) && at[k] == Step(g, rows[k], start))
    && (forall j: nat :: j < |rows| ==> Okay(g, rows, at, j))
    && forall j: nat :: j < |rows| ==> HasParentIn(rows, at, j)
  }

  // ----- the walk -----

  ghost function Unseen(rows: seq<Row>, seen: set<int>): set<int>
  {
    (set r | r in rows :: r.id) - seen
  }

  ghost predicate Grew(a: map<nat, Position>, b: map<nat, Position>)
  {
    forall j :: j in a ==> j in b && b[j] == a[j]
  }

  /** What a visit of `k` adds: rows that are fine, each below `k`. */
  ghost predicate Reached(g: Rules, rows: seq<Row>, a: map<nat, Position>, b: map<nat, Position>, k: nat)
  {
    && Grew(a, b) && k in b && k !in a
    && forall j :: j in b && j !in a ==> Okay(g, rows, b, j) && (j == k || ParentNew(rows, a, b, j))
  }

  ghost predicate ParentNew(rows: seq<Row>, a: map<nat, Position>, b: map<nat, Position>, j: nat)
  {
    j < |rows| && exists q: nat :: q in b && q !in a && q < |rows| && rows[j].parent == Some(rows[q].id)
  }

  lemma {:induction false} OkayGrew(g: Rules, rows: seq<Row>, a: map<nat, Position>, b: map<nat, Position>, j: nat)
    requires Okay(g, rows, a, j) && Grew(a, b)
    ensures Okay(g, rows, b, j)
  {
    hide FieldsFine, BodyFine, MoveFine, Step, KidRows;
    forall c | c in KidRows(rows, j)
      ensures KidFine(g, rows, b, j, c)
    {
      assert KidFine(g, rows, a, j, c);
    }
  }

  ghost function Placed(at: map<nat, Position>, k: nat, p: Position): (r: map<nat, Position>)
    ensures r.Keys == at.Keys + {k} && r[k] == p && (k !in at ==> Grew(at, r))
  {
    at[k := p]
  }

  /** The placed rows that are proven. */
  ghost function ProvenOf(rows: seq<Row>, at: map<nat, Position>): set<nat>
  {
    set j | j in at && j < |rows| && rows[j].outcome.Some?
  }

  /** Placed rows are seen, below a placed parent. */
  ghost predicate Marked(rows: seq<Row>, at: map<nat, Position>, seen: set<int>)
  {
    forall j :: j in at ==> j < |rows| && rows[j].id in seen && HasParentIn(rows, at, j)
  }

  ghost predicate AllPlaced(rows: seq<Row>, at: map<nat, Position>, seen: set<int>)
  {
    forall j: nat :: j < |rows| && rows[j].id in seen ==> j in at
  }

  ghost predicate AllButOne(rows: seq<Row>, at: map<nat, Position>, seen: set<int>, k: nat)
  {
    forall j: nat :: j < |rows| && rows[j].id in seen && j != k ==> j in at
  }

  ghost function Size(at: map<nat, Position>): nat { |at.Keys| }

  class DbVerifier {
    const g: Rules
    const start: Position
    const rows: seq<Row>
    const pos: Board
    var defects: seq<DbDefect>
    var proven: nat
    var open: nat
    var visited: nat
    var seen: set<int>
    ghost var at: map<nat, Position>

    constructor (g: Rules, start: Position, rows: seq<Row>)
      requires ById(rows)
      ensures Valid() && fresh(pos) && pos.cur == start && at == map[] && defects == []
      ensures this.g == g && this.start == start && this.rows == rows
    {
      this.g, this.start, this.rows := g, start, rows;
      pos := new Board(g, start);
      defects, proven, open, visited, seen, at := [], 0, 0, 0, {}, map[];
    }

    ghost predicate Valid()
      reads this
    {
      && ById(rows) && pos.g == g && visited == Size(at) && proven + open == visited
      && proven == |ProvenOf(rows, at)|
      && Marked(rows, at, seen) && (defects == [] ==> AllPlaced(rows, at, seen))
    }

    method Complain(id: int, what: Complaint)
      modifies this`defects
      ensures defects == old(defects) + [DbDefect(id, what)]
    {
      defects := defects + [DbDefect(id, what)];
    }

    /** The row's move, unless it cannot be replayed. */
    method CheckMove(k: nat) returns (ok: bool)
      requires k < |rows|
      modifies this`defects
      ensures defects != [] || old(defects) == []
      ensures old(defects) == [] ==> (defects == [] <==> MoveFine(g, rows[k], pos.cur))
      ensures defects == [] ==> ok
      ensures ok && rows[k].ply != 0 ==> rows[k].mv.Some? && rows[k].mv.value in g.legal(pos.cur)
    {
      var r := rows[k];
      if r.ply == 0 {
        if r.mv.Some? || r.code.Some? {
          Complain(r.id, RootWithMove);
        }
        return true;
      }
      if r.mv.None? {
        Complain(r.id, NoMove);
        return false;
      }
      if r.mv.value !in g.legal(pos.cur) {
        Complain(r.id, IllegalMove);
        return false;
      }
      if r.code != r.mv {
        Complain(r.id, CodeDiffers);
      }
      ok := true;
    }

    method CheckFields(k: nat)
      requires k < |rows|
      modifies this`defects
      ensures defects == [] <==> old(defects) == [] && FieldsFine(rows[k])
    {
      var r := rows[k];
      if r.prov == {} && r.ply != 0 {
        Complain(r.id, NoProvenance);
      }
      if r.outcome.None? && (r.bound.Some? || r.status.Some?) {
        Complain(r.id, OpenWithBound);
      }
      if r.outcome.Some? && (r.bound.None? || r.status.None?) {
        Complain(r.id, ProvenWithoutBound);
      }
    }

    /** Read the children in id order; a stored draw makes them unreadable. */
    method ReadKids(k: nat) returns (ks: seq<nat>)
      requires k < |rows|
      modifies this`defects
      ensures forall x :: 0 <= x < |ks| ==> IsChildRow(rows, k, ks[x])
      ensures defects == [] <==>
          old(defects) == [] && forall c :: c in KidRows(rows, k) ==> rows[c].outcome != Some(Draw)
      ensures defects == [] ==> ks == KidRows(rows, k)
      ensures Distinct(ks)
    {
      ks := KidRows(rows, k);
      ChildRowsOnce(rows, rows[k].id, |rows|);
      assert forall x :: 0 <= x < |ks| ==> ks[x] in ks;
      for x := 0 to |ks|
        invariant defects == old(defects)
        invariant forall y :: 0 <= y < x ==> rows[ks[y]].outcome != Some(Draw)
      {
        if rows[ks[x]].outcome == Some(Draw) {
          assert ks[x] in KidRows(rows, k);
          Complain(rows[k].id, Unreadable);
          return [];
        }
      }
    }

    method CheckPlies(k: nat, ks: seq<nat>)
      requires k < |rows| && forall x :: 0 <= x < |ks| ==> ks[x] < |rows|
      modifies this`defects
      ensures defects == [] <==> old(defects) == [] && forall x :: 0 <= x < |ks| ==> Expected(rows, k, ks[x])
    {
      for x := 0 to |ks|
        invariant defects == [] <==> old(defects) == [] && forall y :: 0 <= y < x ==> Expected(rows, k, ks[y])
      {
        if !Expected(rows, k, ks[x]) {
          Complain(rows[ks[x]].id, WrongPly);
        }
      }
    }

    method CheckWin(k: nat, ks: seq<nat>)
      requires k < |rows| && forall x :: 0 <= x < |ks| ==> ks[x] < |rows|
      modifies this`defects
      ensures defects == [] <==> old(defects) == [] && WinFine(rows, ks, BoundOr0(rows[k]))
    {
      var minLoss, anyLoss := U32_MAX as nat, false;
      for x := 0 to |ks|
        invariant minLoss == MinLoss(rows, ks, x) && (anyLoss <==> HasLoss(rows, ks, x)) && defects == old(defects)
      {
        var r := rows[ks[x]];
        if r.outcome == Some(Loss) {
          assert IsLoss(r);
          anyLoss := true;
          if r.bound.Some? && Cast(r.bound.value) < minLoss {
            minLoss := Cast(r.bound.value);
          }
        }
      }
      if !anyLoss {
        Complain(rows[k].id, NoLossChild);
      } else if (minLoss + 1) % WORD != BoundOr0(rows[k]) {
        Complain(rows[k].id, WrongWinBound);
      }
    }

    /** Every legal move has a child row and every child row is a legal move. */
    method CheckReplies(k: nat, ks: seq<nat>)
      requires k < |rows| && forall x :: 0 <= x < |ks| ==> ks[x] < |rows|
      modifies this`defects
      ensures defects == [] <==> old(defects) == [] && RepliesFine(g, rows, ks, pos.cur)
    {
      var legal := g.legal(pos.cur);
      for i := 0 to |legal|
        invariant defects == [] <==> old(defects) == [] && forall j :: 0 <= j < i ==> HasReply(rows, ks, legal[j])
      {
        if !HasReply(rows, ks, legal[i]) {
          Complain(rows[k].id, MissingReply);
        }
      }
      for x := 0 to |ks|
        invariant defects == [] <==>
                  && old(defects) == [] && (forall j :: 0 <= j < |legal| ==> HasReply(rows, ks, legal[j]))
                  && forall y :: 0 <= y < x ==> IsReply(g, pos.cur, rows[ks[y]])
      {
        if !IsReply(g, pos.cur, rows[ks[x]]) {
          Complain(rows[k].id, ExtraReply);
        }
      }
      for x := 0 to |ks|
        invariant defects == [] <==>
                  && old(defects) == [] && (forall j :: 0 <= j < |legal| ==> HasReply(rows, ks, legal[j]))
                  && (forall y :: 0 <= y < |ks| ==> IsReply(g, pos.cur, rows[ks[y]]))
                  && forall y :: 0 <= y < x ==> IsWon(rows[ks[y]])
      {
        if !IsWon(rows[ks[x]]) {
          Complain(rows[k].id, ReplyNotWon);
        }
      }
    }

    method CheckLoss(k: nat, ks: seq<nat>)
      requires k < |rows| && forall x :: 0 <= x < |ks| ==> ks[x] < |rows|
      modifies this`defects
      ensures defects == [] <==> old(defects) == [] && LossFine(g, rows, ks, BoundOr0(rows[k]), pos.cur)
    {
      CheckReplies(k, ks);
      var maxChild := 0;
      for x := 0 to |ks|
        invariant maxChild == MaxKid(rows, ks, x)
      {
        maxChild := Max(maxChild, BoundOr0(rows[ks[x]]));
      }
      if |ks| > 0 && maxChild + 1 != BoundOr0(rows[k]) {
        Complain(rows[k].id, WrongLossBound);
      }
    }

    /** The proof rules of the row, at the position on the board. */
    method CheckBody(k: nat, ks: seq<nat>)
      requires k < |rows| && rows[k].outcome != Some(Draw) && forall x :: 0 <= x < |ks| ==> ks[x] < |rows|
      modifies this`defects
      ensures defects == [] <==> old(defects) == [] && BodyFine(g, rows, ks, rows[k], pos.cur)
    {
      hide WinFine, LossFine;
      var r := rows[k];
      if r.outcome.Some? {
        if BoundOr0(r) == 0 {
          if |ks| > 0 {
            Complain(r.id, TerminalWithChildren);
          }
          if g.terminal(pos.cur) != r.outcome {
            Complain(r.id, NotTerminal);
          }
        } else if r.outcome == Some(Win) {
          CheckWin(k, ks);
        } else {
          CheckLoss(k, ks);
        }
      }
    }

    ghost predicate Wants(want: Option<map<nat, Position>>)
    {
      want.Some? ==> forall j: nat :: j < |rows| ==> Okay(g, rows, want.value, j)
    }

    /** Count the row and place it. */
    method Count(k: nat)
      requires k < |rows| && rows[k].id in seen && k !in at && HasParentIn(rows, at, k)
      requires ById(rows) && pos.g == g && visited == Size(at) && proven + open == visited
               && proven == |ProvenOf(rows, at)|
      requires Marked(rows, at, seen) && (defects == [] ==> AllButOne(rows, at, seen, k))
      modifies this`proven, this`open, this`visited, this`at
      ensures Valid() && at == Placed(old(at), k, Step(g, rows[k], pos.cur)) && Grew(old(at), at)
    {
      hide HasParentIn, Step, ById, ProvenOf, Marked, AllPlaced, AllButOne, Placed, Grew, Size;
      ghost var now := Placed(at, k, Step(g, rows[k], pos.cur));
      CountedOne(rows, at, now, k);
      MarkedOne(rows, at, now, seen, k);
      if rows[k].outcome.Some? {
        proven := proven + 1;
      } else {
        open := open + 1;
      }
      visited, at := visited + 1, now;
    }

    /** The row's own checks; an unreplayable or repeated row is abandoned. */
    method Enter(k: nat, ghost want: Option<map<nat, Position>>) returns (entered: bool)
      requires Valid() && Wants(want) && k < |rows| && HasParentIn(rows, at, k)
      requires want.Some? && defects == [] ==> k !in at && MoveFine(g, rows[k], pos.cur)
      modifies this`defects, this`proven, this`open, this`visited, this`seen, this`at
      ensures Valid() && old(seen) <= seen && Grew(old(at), at) && (!entered ==> defects != [])
      ensures entered ==>
                k !in old(at) && at == Placed(old(at), k, Step(g, rows[k], pos.cur)) && rows[k].id !in old(seen)
      ensures entered ==> rows[k].id in seen && (rows[k].ply != 0 ==> rows[k].mv.Some?)
      ensures defects == [] ==> old(defects) == [] && MoveFine(g, rows[k], pos.cur) && FieldsFine(rows[k])
      ensures want.Some? && old(defects) == [] ==> defects == []
    {
      hide MoveFine, BodyFine, FieldsFine, HasParentIn, Step, KidRows;
      var r := rows[k];
      if r.id in seen {
        Complain(r.id, VisitedTwice);
        return false;
      }
      seen := seen + {r.id};
      var ok := CheckMove(k);
      if !ok {
        return false;
      }
      CheckFields(k);
      if want.Some? {
        assert Okay(g, rows, want.value, k);
      }
      Count(k);
      entered := true;
    }

    lemma {:induction false} Ordered()
      requires Valid()
      ensures ById(rows) && pos.g == g && forall j :: j in at ==> HasParentIn(rows, at, j)
    {
    }

    /** Visit a row and everything below it. */
    method Visit(k: nat, ghost want: Option<map<nat, Position>>)
      requires Valid() && Wants(want) && k < |rows| && rows[k].outcome != Some(Draw) && HasParentIn(rows, at, k)
      requires want.Some? && defects == [] ==>
                 k !in at && MoveFine(g, rows[k], pos.cur) && k in want.value
                 && want.value[k] == Step(g, rows[k], pos.cur)
      modifies this`defects, this`proven, this`open, this`visited, this`seen, this`at, pos
      ensures Valid() && pos.cur == old(pos.cur) && pos.undo == old(pos.undo) && Grew(old(at), at) && old(seen) <= seen
      ensures defects == [] ==> old(defects) == [] && Reached(g, rows, old(at), at, k)
      ensures defects == [] ==> MoveFine(g, rows[k], pos.cur) && at[k] == Step(g, rows[k], pos.cur)
      ensures want.Some? && old(defects) == [] ==> defects == []
      decreases Unseen(rows, seen), 1
    {
      hide MoveFine, BodyFine, FieldsFine, HasParentIn, KidRows, Valid, NoneBelow, Okay, Under, Reached, Unseen;
      ghost var at0, seen0 := at, seen;
      Ordered();
      var entered := Enter(k, want);
      if !entered {
        return;
      }
      LessUnseen(rows, seen0, seen, k);
      NoneYet(rows, at0, at, k);
      ghost var at1 := at;
      if rows[k].ply != 0 {
        pos.DoMove(rows[k].mv.value);
      }
      Descend(k, want);
      if rows[k].ply != 0 {
        pos.UndoMove();
      }
      if defects == [] {
        NowReached(g, rows, at0, at1, at, k);
      }
    }

    /** Read the child rows, apply the rules, and visit the children of anything but a terminal. */
    method Descend(k: nat, ghost want: Option<map<nat, Position>>)
      requires Valid() && Wants(want) && k < |rows| && rows[k].outcome != Some(Draw) && k in at && at[k] == pos.cur
      requires defects == [] ==> FieldsFine(rows[k]) && NoneBelow(rows, at, k)
      requires want.Some? && defects == [] ==> k in want.value && want.value[k] == pos.cur
      modifies this`defects, this`proven, this`open, this`visited, this`seen, this`at, pos
      ensures Valid() && pos.cur == old(pos.cur) && pos.undo == old(pos.undo) && Grew(old(at), at) && old(seen) <= seen
      ensures defects == [] ==> old(defects) == [] && Okay(g, rows, at, k) && Under(g, rows, old(at), at, k)
      ensures want.Some? && old(defects) == [] ==> defects == []
      decreases Unseen(rows, seen), 3
    {
      hide MoveFine, BodyFine, FieldsFine, HasParentIn, KidRows, Step;
      ghost var at0 := at;
      if want.Some? {
        assert Okay(g, rows, want.value, k);
      }
      var ks := ReadKids(k);
      CheckPlies(k, ks);
      if want.Some? {
        KidsPlied(g, rows, want.value, k);
      }
      CheckBody(k, ks);
      if rows[k].outcome.None? || BoundOr0(rows[k]) != 0 {
        VisitKids(k, ks, want);
      } else if defects == [] {
        TerminalBare(g, rows, ks, rows[k], pos.cur);
        NoKidsBelow(g, rows, at, k);
      }
      if defects == [] {
        NowOkay(g, rows, at, k);
      }
    }

    method VisitKids(k: nat, ks: seq<nat>, ghost want: Option<map<nat, Position>>)
      requires Valid() && Wants(want) && k < |rows| && k in at
      requires Distinct(ks) && forall x :: 0 <= x < |ks| ==> IsChildRow(rows, k, ks[x])
      requires defects == [] ==> at[k] == pos.cur && NoneBelow(rows, at, k)
      requires defects == [] ==> forall x :: 0 <= x < |ks| ==> Expected(rows, k, ks[x])
      requires want.Some? && defects == [] ==> k in want.value && want.value[k] == pos.cur
      modifies this`defects, this`proven, this`open, this`visited, this`seen, this`at, pos
      ensures Valid() && pos.cur == old(pos.cur) && pos.undo == old(pos.undo) && Grew(old(at), at) && old(seen) <= seen
      ensures defects == [] ==> old(defects) == [] && Under(g, rows, old(at), at, k)
      ensures defects == [] ==> forall x :: 0 <= x < |ks| ==> KidFine(g, rows, at, k, ks[x])
      ensures want.Some? && old(defects) == [] ==> defects == []
      decreases Unseen(rows, seen), 2
    {
      hide MoveFine, BodyFine, FieldsFine, KidRows, Step, Valid, HasParentIn, Under, Reached, Okay, NoneBelow, Unseen;
      ghost var at0, seen0, p := at, seen, pos.cur;
      if defects == [] {
        NothingUnder(g, rows, at, k, ks);
      }
      var x := 0;
      while x < |ks|
        invariant x <= |ks| && Valid() && pos.cur == p && pos.undo == old(pos.undo) && Grew(at0, at) && seen0 <= seen
        invariant defects == [] ==> old(defects) == [] && Under(g, rows, at0, at, k) && KidsDone(g, rows, at, k, ks, x)
        invariant want.Some? && old(defects) == [] ==> defects == []
      {
        ghost var a := at;
        KidReady(rows, a, k, ks[x]);
        FewerUnseen(rows, seen0, seen);
        if want.Some? {
          WantedKid(g, rows, want.value, k, ks[x]);
        }
        Visit(ks[x], want);
        Ordered();
        if defects == [] {
          MoreUnder(g, rows, at0, a, at, k, ks, x);
        }
        x := x + 1;
      }
    }
  }

  /** The first `x` children have been visited, the others not. */
  ghost predicate KidsDone(g: Rules, rows: seq<Row>, at: map<nat, Position>, k: nat, ks: seq<nat>, x: nat)
  {
    && x <= |ks| && (forall y :: 0 <= y < x ==> KidFine(g, rows, at, k, ks[y]))
    && forall y :: x <= y < |ks| ==> ks[y] !in at
  }

  lemma {:induction false} NothingUnder(g: Rules, rows: seq<Row>, at: map<nat, Position>, k: nat, ks: seq<nat>)
    requires NoneBelow(rows, at, k) && forall x :: 0 <= x < |ks| ==> IsChildRow(rows, k, ks[x])
    ensures Under(g, rows, at, at, k) && KidsDone(g, rows, at, k, ks, 0)
  {
  }

  lemma {:induction false} KidReady(rows: seq<Row>, at: map<nat, Position>, k: nat, c: nat)
    requires IsChildRow(rows, k, c) && k in at
    ensures HasParentIn(rows, at, c)
  {
  }

  lemma {:induction false} FewerUnseen(rows: seq<Row>, a: set<int>, b: set<int>)
    requires a <= b
    ensures Unseen(rows, b) < Unseen(rows, a) || Unseen(rows, b) == Unseen(rows, a)
  {
    assert Unseen(rows, b) <= Unseen(rows, a);
  }

  lemma {:induction false} WantedKid(g: Rules, rows: seq<Row>, want: map<nat, Position>, k: nat, c: nat)
    requires Okay(g, rows, want, k) && IsChildRow(rows, k, c)
    ensures KidFine(g, rows, want, k, c)
  {
    assert c in KidRows(rows, k);
  }

  lemma {:induction false} NewHasKept(rows: seq<Row>, at0: map<nat, Position>, a: map<nat, Position>, b: map<nat,
          Position>, k: nat, c: nat, j: nat)
    requires Grew(at0, a) && Grew(a, b) && IsChildRow(rows, k, c) && j < |rows|
    requires FromKid(rows, at0, a, k, j) || j == c || ParentNew(rows, a, b, j)
    ensures FromKid(rows, at0, b, k, j)
  {
    if ParentNew(rows, a, b, j) {
      var q: nat :| q in b && q !in a && q < |rows| && rows[j].parent == Some(rows[q].id);
      assert q !in at0;
    } else if ParentNew(rows, at0, a, j) {
      var q: nat :| q in a && q !in at0 && q < |rows| && rows[j].parent == Some(rows[q].id);
      assert q in b;
    }
  }

  lemma {:induction false} OthersWait(rows: seq<Row>, a: map<nat, Position>, b: map<nat, Position>, k: nat, c: nat)
    requires ById(rows) && k in a && IsChildRow(rows, k, c)
    ensures !ParentNew(rows, a, b, c)
  {
    if ParentNew(rows, a, b, c) {
      var q: nat :| q in b && q !in a && q < |rows| && rows[c].parent == Some(rows[q].id);
      SameRowId(rows, q, k);
      assert false;
    }
  }

  lemma {:induction false} MoreUnder(g: Rules, rows: seq<Row>, at0: map<nat, Position>, a: map<nat, Position>,
          b: map<nat, Position>, k: nat, ks: seq<nat>, x: nat)
    requires ById(rows) && Distinct(ks) && (forall y :: 0 <= y < |ks| ==> IsChildRow(rows, k, ks[y])) && x < |ks|
    requires k in at0 && Under(g, rows, at0, a, k) && KidsDone(g, rows, a, k, ks, x) && Reached(g, rows, a, b, ks[x])
    requires Expected(rows, k, ks[x]) && MoveFine(g, rows[ks[x]], a[k]) && b[ks[x]] == Step(g, rows[ks[x]], a[k])
    ensures Under(g, rows, at0, b, k) && KidsDone(g, rows, b, k, ks, x + 1)
  {
    hide MoveFine, Step, ParentNew, FromKid, ById, FieldsFine, BodyFine, KidRows;
    forall j | j in b && j !in at0
      ensures j < |rows| && Okay(g, rows, b, j) && FromKid(rows, at0, b, k, j)
    {
      if j in a {
        OkayGrew(g, rows, a, b, j);
      }
      NewHasKept(rows, at0, a, b, k, ks[x], j);
    }
    hide Okay;
    forall y | x < y < |ks|
      ensures ks[y] !in b
    {
      OthersWait(rows, a, b, k, ks[y]);
    }
    forall y | 0 <= y < x + 1
      ensures KidFine(g, rows, b, k, ks[y])
    {
      if y < x {
        assert KidFine(g, rows, a, k, ks[y]);
      }
    }
  }

  lemma {:induction false} KidsPlied(g: Rules, rows: seq<Row>, want: map<nat, Position>, k: nat)
    requires Okay(g, rows, want, k)
    ensures forall x :: 0 <= x < |KidRows(rows, k)| ==>
              KidRows(rows, k)[x] < |rows| && Expected(rows, k, KidRows(rows, k)[x])
    ensures forall c :: c in KidRows(rows, k) ==> rows[c].outcome != Some(Draw)
  {
    hide KidRows;
    forall x | 0 <= x < |KidRows(rows, k)|
      ensures Expected(rows, k, KidRows(rows, k)[x])
    {
      assert KidRows(rows, k)[x] in KidRows(rows, k);
    }
  }

  lemma {:induction false} NoKidsBelow(g: Rules, rows: seq<Row>, at: map<nat, Position>, k: nat)
    requires k < |rows|
    ensures Under(g, rows, at, at, k)
  {
  }

  lemma {:induction false} NowOkay(g: Rules, rows: seq<Row>, at: map<nat, Position>, k: nat)
    requires k < |rows| && k in at && FieldsFine(rows[k]) && rows[k].outcome != Some(Draw)
    requires BodyFine(g, rows, KidRows(rows, k), rows[k], at[k])
    requires forall x :: 0 <= x < |KidRows(rows, k)| ==> KidFine(g, rows, at, k, KidRows(rows, k)[x])
    ensures Okay(g, rows, at, k)
  {
    hide BodyFine, FieldsFine, KidFine;
  }

  ghost predicate IsChildRow(rows: seq<Row>, k: nat, c: nat)
  {
    k < |rows| && c < |rows| && rows[c].parent == Some(rows[k].id) && rows[c].outcome != Some(Draw)
  }

  predicate Expected(rows: seq<Row>, k: nat, c: nat)
  {
    k < |rows| && c < |rows| && rows[c].ply == rows[k].ply + 1
  }

  /** No child row of `k` has been placed. */
  ghost predicate NoneBelow(rows: seq<Row>, at: map<nat, Position>, k: nat)
  {
    k < |rows| && forall c :: c in at && c < |rows| ==> rows[c].parent != Some(rows[k].id)
  }

  ghost predicate FromKid(rows: seq<Row>, a: map<nat, Position>, b: map<nat, Position>, k: nat, j: nat)
  {
    k < |rows| && j < |rows| && (rows[j].parent == Some(rows[k].id) || ParentNew(rows, a, b, j))
  }

  /** What visiting the children of `k` adds. */
  ghost predicate Under(g: Rules, rows: seq<Row>, a: map<nat, Position>, b: map<nat, Position>, k: nat)
  {
    && k < |rows| && Grew(a, b)
    && forall j :: j in b && j !in a ==> j < |rows| && Okay(g, rows, b, j) && FromKid(rows, a, b, k, j)
  }

  lemma {:induction false} NoneYet(rows: seq<Row>, a: map<nat, Position>, b: map<nat, Position>, k: nat)
    requires ById(rows) && k < |rows| && k !in a && b.Keys == a.Keys + {k} && HasParentIn(rows, a, k)
    requires forall j :: j in a ==> HasParentIn(rows, a, j)
    ensures NoneBelow(rows, b, k)
  {
    forall c | c in b && c < |rows|
      ensures rows[c].parent != Some(rows[k].id)
    {
      assert HasParentIn(rows, a, c);
      if rows[c].parent.Some? {
        var q: nat :| q in a && q < |rows| && rows[c].parent == Some(rows[q].id);
        if rows[q].id == rows[k].id {
          SameRowId(rows, q, k);
        }
      }
    }
  }

  lemma {:induction false} TerminalBare(g: Rules, rows: seq<Row>, ks: seq<nat>, r: Row, p: Position)
    requires (forall x :: 0 <= x < |ks| ==> ks[x] < |rows|) && BodyFine(g, rows, ks, r, p) && r.outcome.Some?
             && BoundOr0(r) == 0
    ensures |ks| == 0
  {
  }

  lemma {:induction false} LessUnseen(rows: seq<Row>, a: set<int>, b: set<int>, k: nat)
    requires k < |rows| && a <= b && rows[k].id !in a && rows[k].id in b
    ensures Unseen(rows, b) < Unseen(rows, a)
  {
    assert rows[k] in rows;
    assert rows[k].id in Unseen(rows, a);
  }

  lemma {:induction false} NowReached(g: Rules, rows: seq<Row>, a: map<nat, Position>, mid: map<nat, Position>,
          b: map<nat, Position>, k: nat)
    requires k < |rows| && k !in a && mid.Keys == a.Keys + {k} && Grew(a, mid) && Okay(g, rows, b, k)
             && Under(g, rows, mid, b, k)
    ensures Reached(g, rows, a, b, k)
  {
    hide Okay;
    forall j | j in b && j !in a && j != k
      ensures Okay(g, rows, b, j) && ParentNew(rows, a, b, j)
    {
      assert FromKid(rows, mid, b, k, j);
      if rows[j].parent == Some(rows[k].id) {
        assert k in b;
      } else {
        var q: nat :| q in b && q !in mid && q < |rows| && rows[j].parent == Some(rows[q].id);
      }
    }
  }

  lemma {:induction false} OneLarger(s: set<nat>, t: set<nat>, k: nat)
    requires k !in s && t == s + {k}
    ensures |t| == |s| + 1
  {
  }

  lemma {:induction false} ProvenPlus(rows: seq<Row>, a: map<nat, Position>, b: map<nat, Position>, k: nat)
    requires k < |rows| && b.Keys == a.Keys + {k}
    ensures ProvenOf(rows, b) == ProvenOf(rows, a) + if rows[k].outcome.Some? then {k} else {}
    ensures k !in a ==> k !in ProvenOf(rows, a)
  {
    assert forall j :: j in b <==> j in b.Keys;
    assert forall j :: j in a <==> j in a.Keys;
  }

  lemma {:induction false} CountedOne(rows: seq<Row>, a: map<nat, Position>, b: map<nat, Position>, k: nat)
    requires k < |rows| && k !in a && b.Keys == a.Keys + {k}
    ensures Size(b) == Size(a) + 1
    ensures |ProvenOf(rows, b)| == |ProvenOf(rows, a)| + if rows[k].outcome.Some? then 1 else 0
  {
    hide ProvenOf;
    ProvenPlus(rows, a, b, k);
    OneLarger(a.Keys, b.Keys, k);
    if rows[k].outcome.Some? {
      OneLarger(ProvenOf(rows, a), ProvenOf(rows, b), k);
    } else {
      assert ProvenOf(rows, b) == ProvenOf(rows, a);
    }
  }

  lemma {:induction false} MarkedOne(rows: seq<Row>, a: map<nat, Position>, b: map<nat, Position>, seen: set<int>,
          k: nat)
    requires ById(rows) && k < |rows| && b.Keys == a.Keys + {k} && Grew(a, b)
    requires Marked(rows, a, seen) && rows[k].id in seen && HasParentIn(rows, a, k)
    ensures Marked(rows, b, seen) && (AllButOne(rows, a, seen, k) ==> AllPlaced(rows, b, seen))
  {
    hide HasParentIn;
    forall j | j in b
      ensures j < |rows| && rows[j].id in seen && HasParentIn(rows, b, j)
    {
      ParentStays(rows, a, b, j);
    }
  }

  lemma {:induction false} ParentStays(rows: seq<Row>, a: map<nat, Position>, b: map<nat, Position>, j: nat)
    requires HasParentIn(rows, a, j) && Grew(a, b)
    ensures HasParentIn(rows, b, j)
  {
    if rows[j].parent.Some? {
      var q: nat :| q in a && q < |rows| && rows[j].parent == Some(rows[q].id);
      assert q in b;
    }
  }
}
