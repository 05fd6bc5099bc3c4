/** An exact mark that is not minimal, on a store that a fold could write. */
module FlipHidden {
  import opened Game
  import opened Flip
  import opened FlipExact
  import FlipFixpoint

  /** Two losing replies: lost in four, exactly, and lost in two but recorded with six. */
  function Hidden(): seq<Status> { [Resolved(true, 4, true), Resolved(true, 6, false)] }

  /** The rows of the first reply: four open positions and the end, which is lost; then the rows of the
      second reply, a proof of depth six.  Only ends are stored as exact. */
  function HiddenRows(): seq<Row>
  {
    [Row([], None, None, false), Row([1], None, None, false), Row([1, 1], None, None, false),
     Row([1, 1, 1], None, None, false), Row([1, 1, 1, 1], None, None, false),
     Row([1, 1, 1, 1, 1], Some(Loss), Some(0), true), Row([2], Some(Loss), Some(6), false),
     Row([2, 1], Some(Win), Some(5), false), Row([2, 1, 2], Some(Loss), Some(4), false),
     Row([2, 1, 2, 1], Some(Win), Some(3), false), Row([2, 1, 2, 1, 1], Some(Loss), Some(2), false),
     Row([2, 1, 2, 1, 1, 1], Some(Win), Some(1), false), Row([2, 1, 2, 1, 1, 1, 1], Some(Loss), Some(0), true)]
  }

  /** The path index of the first `n` rows. */
  function Numbered(rows: seq<Row>, n: nat): map<Path, nat>
    requires n <= |rows|
  {
    if n == 0 then map[] else Numbered(rows, n - 1)[rows[n - 1].path := n - 1]
  }

  ghost predicate PathsDiffer(rows: seq<Row>)
  {
    forall i, j :: 0 <= i < j < |rows| ==> rows[i].path != rows[j].path
  }

  lemma {:induction false} NumberedIs(rows: seq<Row>, n: nat)
    requires n <= |rows| && PathsDiffer(rows)
    ensures forall i :: 0 <= i < n ==> rows[i].path in Numbered(rows, n) && Numbered(rows, n)[rows[i].path] == i
    ensures forall p :: p in Numbered(rows, n) ==> Numbered(rows, n)[p] < n && rows[Numbered(rows, n)[p]].path == p
  {
    if n > 0 {
      NumberedIs(rows, n - 1);
    }
  }

  function HiddenStore(): Store { Store(HiddenRows(), Numbered(HiddenRows(), 13)) }

  /** What a fold writes: parents are rows, open rows have no bound, exactly the ends are exact, and every
      other proven row has the bound of its child rows, a loss of all replies. */
  ghost predicate Folded(g: Rules, root: Position, s: Store, r: Row)
  {
    && (r.path != [] ==> r.path[..|r.path| - 1] in s.byPath)
    && (r.outcome.None? ==> r.bound.None? && !r.exact)
    && (r.outcome.Some? ==>
          var p := Replay(g, root, r.path);
          if g.terminal(p).Some? then r.outcome == g.terminal(p) && r.exact && r.bound == Some(0)
          else
            && !r.exact && r.bound.Some? && (r.outcome == Some(Win) || r.outcome == Some(Loss))
            && (exists m :: m in g.legal(p) && ProvenChild(s, r, m, r.bound.value - 1))
            && (forall m :: m in g.legal(p) && r.path + [m] in s.byPath ==>
                  r.outcome == Some(Win) ==> !ProvenBelow(s, r, m, r.bound.value - 1))
            && (r.outcome == Some(Loss) ==>
                  forall m :: m in g.legal(p) ==> exists b: int :: b < r.bound.value && ProvenChild(s, r, m, b)))
  }

  /** The child row is proven the other way, with bound `b`. */
  ghost predicate ProvenChild(s: Store, r: Row, m: Move, b: int)
  {
    var key := r.path + [m];
    key in s.byPath && s.byPath[key] < |s.rows| && r.outcome.Some?
    && s.rows[s.byPath[key]].outcome == Some(r.outcome.value.Flip()) && s.rows[s.byPath[key]].bound.Some?
    && s.rows[s.byPath[key]].bound.value == b
  }

  ghost predicate ProvenBelow(s: Store, r: Row, m: Move, b: int)
  {
    exists c: int :: c < b && ProvenChild(s, r, m, c)
  }

  lemma {:induction false} MinOfTwo(a: (U32, bool), b: (U32, bool))
    requires a.0 < b.0
    ensures MinWitness([a, b]) == a.0
  {
    assert [a, b][..1] == [a];
  }

  lemma {:induction false} CountTwo(a: Status, b: Status)
    requires a.Resolved? && b.Resolved? && a.loss && b.loss && a.bound < b.bound
    ensures Count([a, b], 2) == Census([(a.bound, a.exact), (b.bound, b.exact)], b.bound, a.exact && b.exact, 0)
  {
    assert Count([a, b], 0) == Census([], 0, true, 0);
    assert Count([a, b], 1) == Census([(a.bound, a.exact)], a.bound, a.exact, 0);
  }

  lemma {:induction false} HiddenCensus()
    ensures Summarise(Hidden()) == Some(Claim(true, 5, true, true, 2, 0))
  {
    hide Count, MinWitness;
    CountTwo(Resolved(true, 4, true), Resolved(true, 6, false));
    MinOfTwo((4, true), (6, false));
  }

  /** One exact reply makes an exact claim, one ply longer. */
  lemma {:induction false} OneReply(loss: bool, b: U32)
    requires b < U32_MAX
    ensures Summarise([Resolved(loss, b, true)]) == Some(Claim(loss, b + 1, true, true, if loss then 1 else 0, 0))
  {
    assert Count([Resolved(loss, b, true)], 0) == Census([], 0, true, 0);
    assert Count([Resolved(loss, b, true)], 1) == Census(if loss then [(b, true)] else [], b, true, 0);
  }

  lemma {:induction false} ReplayMore(g: Rules, p: Position, path: Path, m: Move, longer: Path)
    requires longer == path + [m]
    ensures Replay(g, p, longer) == g.play(Replay(g, p, path), m)
  {
    ReplaySnoc(g, p, path, m);
  }

  /** Where the rows of the first reply are. */
  lemma {:induction false} FirstPlaces()
    ensures var g := Witness(Hidden());
            && Replay(g, ROOT, []) == ROOT && Replay(g, ROOT, [1]) == 8 && Replay(g, ROOT, [1, 1]) == 6
            && Replay(g, ROOT, [1, 1, 1]) == 4 && Replay(g, ROOT, [1, 1, 1, 1]) == 2
            && Replay(g, ROOT, [1, 1, 1, 1, 1]) == 0
  {
    var g := Witness(Hidden());
    ReplayMore(g, ROOT, [], 1, [1]);
    ReplayMore(g, ROOT, [1], 1, [1, 1]);
    ReplayMore(g, ROOT, [1, 1], 1, [1, 1, 1]);
    ReplayMore(g, ROOT, [1, 1, 1], 1, [1, 1, 1, 1]);
    ReplayMore(g, ROOT, [1, 1, 1, 1], 1, [1, 1, 1, 1, 1]);
  }

  lemma {:induction false} SecondPlaces()
    ensures var g := Witness(Hidden());
            && Replay(g, ROOT, [2]) == -12 && Replay(g, ROOT, [2, 1]) == -13 && Replay(g, ROOT, [2, 1, 2]) == 8
            && Replay(g, ROOT, [2, 1, 2, 1]) == 6 && Replay(g, ROOT, [2, 1, 2, 1, 1]) == 4
            && Replay(g, ROOT, [2, 1, 2, 1, 1, 1]) == 2 && Replay(g, ROOT, [2, 1, 2, 1, 1, 1, 1]) == 0
  {
    var g := Witness(Hidden());
    ReplayMore(g, ROOT, [], 2, [2]);
    ReplayMore(g, ROOT, [2], 1, [2, 1]);
    ReplayMore(g, ROOT, [2, 1], 2, [2, 1, 2]);
    ReplayMore(g, ROOT, [2, 1, 2], 1, [2, 1, 2, 1]);
    ReplayMore(g, ROOT, [2, 1, 2, 1], 1, [2, 1, 2, 1, 1]);
    ReplayMore(g, ROOT, [2, 1, 2, 1, 1], 1, [2, 1, 2, 1, 1, 1]);
    ReplayMore(g, ROOT, [2, 1, 2, 1, 1, 1], 1, [2, 1, 2, 1, 1, 1, 1]);
  }

  /** A row's path is told by its first move and its length. */
  lemma {:induction false} PathShapes()
    ensures |HiddenRows()| == 13
    ensures forall i :: 0 <= i < 13 ==> |HiddenRows()[i].path| == if i < 6 then i else i - 5
    ensures forall i :: 0 < i < 13 ==> HiddenRows()[i].path[0] == if i < 6 then 1 else 2
  {
  }

  lemma {:induction false} HiddenIndexed()
    ensures HiddenStore().Indexed() && HiddenStore().rows == HiddenRows()
  {
    PathShapes();
    hide HiddenRows, Numbered;
    forall i, j | 0 <= i < j < 13
      ensures HiddenRows()[i].path != HiddenRows()[j].path
    {
      if |HiddenRows()[i].path| == |HiddenRows()[j].path| {
        assert HiddenRows()[i].path[0] != HiddenRows()[j].path[0];
      }
    }
    NumberedIs(HiddenRows(), 13);
  }

  /** With one move the claim rests on one reply. */
  lemma {:induction false} OneStatus(g: Rules, s: Store, p: Path, st: Status)
    requires s.Indexed() && s.HasOpen(p) && g.legal(Replay(g, ROOT, p)) == [1]
    requires FlipFixpoint.DirectReply(g, ROOT, s, p, 1) == st
    ensures FlipFixpoint.Direct(g, ROOT, s, p) == Summarise([st])
  {
    hide Summarise, FlipFixpoint.DirectReply, Store.Indexed, Store.HasOpen, Replay;
    var moves := g.legal(Replay(g, ROOT, p));
    var ds := seq(|moves|, i requires 0 <= i < |moves| => FlipFixpoint.DirectReply(g, ROOT, s, p, moves[i]));
    assert |ds| == 1 && ds[0] == st;
    assert ds == [st];
  }

  /** An open row with one move claims one ply more than its reply. */
  lemma {:induction false} DirectOnce(g: Rules, s: Store, p: Path, key: Path, loss: bool, b: U32)
    requires s.Indexed() && s.HasOpen(p) && g.legal(Replay(g, ROOT, p)) == [1] && b < U32_MAX && key == p + [1]
    requires FlipFixpoint.DirectReply(g, ROOT, s, p, 1) == Resolved(loss, b, true)
    ensures FlipFixpoint.Direct(g, ROOT, s, p) == Some(Claim(loss, b + 1, true, true, if loss then 1 else 0, 0))
  {
    hide *;
    OneReply(loss, b);
    OneStatus(g, s, p, Resolved(loss, b, true));
  }

  /** A reply without a proven row has the status of its claim. */
  lemma {:induction false} OpenReply(g: Rules, s: Store, p: Path, m: Move, key: Path, c: Claim)
    requires s.Indexed() && key == p + [m] && s.HasOpen(key) && FlipFixpoint.Direct(g, ROOT, s, key) == Some(c)
    ensures FlipFixpoint.DirectReply(g, ROOT, s, p, m) == Resolved(!c.stmWin, c.bound, c.exact)
  {
    hide FlipFixpoint.Direct;
  }

  lemma {:induction false} ProvenReply(g: Rules, s: Store, p: Path, m: Move, key: Path)
    requires s.Indexed() && key == p + [m] && key in s.byPath && s.rows[s.byPath[key]].outcome.Some?
    ensures FlipFixpoint.DirectReply(g, ROOT, s, p, m) == ReplyStatus(s, key, map[])
  {
  }

  lemma {:induction false} SingleMoves()
    ensures var g := Witness(Hidden()); g.legal(2) == g.legal(4) == g.legal(6) == g.legal(8) == [1]
    ensures Witness(Hidden()).legal(ROOT) == [1, 2] && Replay(Witness(Hidden()), ROOT, []) == ROOT
  {
  }

  lemma {:induction false} ChainRows()
    ensures var s := HiddenStore();
            && s.Indexed() && s.HasOpen([1]) && s.HasOpen([1, 1]) && s.HasOpen([1, 1, 1]) && s.HasOpen([1, 1, 1, 1])
            && [1, 1, 1, 1, 1] in s.byPath && s.rows[s.byPath[[1, 1, 1, 1, 1]]].outcome.Some?
            && ReplyStatus(s, [1, 1, 1, 1, 1], map[]) == Resolved(true, 0, true)
  {
    hide HiddenStore;
    HiddenIndexed();
    var rows := HiddenRows();
    assert rows[1].path == [1] && rows[2].path == [1, 1] && rows[3].path == [1, 1, 1] && rows[4].path == [1, 1, 1, 1]
           && rows[5].path == [1, 1, 1, 1, 1];
  }

  /** The open rows of the first reply: exact claims, one ply more each. */
  lemma {:induction false} ChainClaims()
    ensures var g, s := Witness(Hidden()), HiddenStore();
            s.Indexed() && FlipFixpoint.DirectReply(g, ROOT, s, [], 1) == Resolved(true, 4, true)
  {
    hide HiddenStore, Witness, Replay, FlipFixpoint.Direct, FlipFixpoint.DirectReply, ReplyStatus, Store.Indexed,
      Store.HasOpen;
    var g, s := Witness(Hidden()), HiddenStore();
    FirstPlaces();
    ChainRows();
    SingleMoves();
    ProvenReply(g, s, [1, 1, 1, 1], 1, [1, 1, 1, 1, 1]);
    DirectOnce(g, s, [1, 1, 1, 1], [1, 1, 1, 1, 1], true, 0);
    OpenReply(g, s, [1, 1, 1], 1, [1, 1, 1, 1], Claim(true, 1, true, true, 1, 0));
    DirectOnce(g, s, [1, 1, 1], [1, 1, 1, 1], false, 1);
    OpenReply(g, s, [1, 1], 1, [1, 1, 1], Claim(false, 2, true, true, 0, 0));
    DirectOnce(g, s, [1, 1], [1, 1, 1], true, 2);
    OpenReply(g, s, [1], 1, [1, 1], Claim(true, 3, true, true, 1, 0));
    DirectOnce(g, s, [1], [1, 1], false, 3);
    OpenReply(g, s, [], 1, [1], Claim(false, 4, true, true, 0, 0));
  }

  lemma {:induction false} SecondReply()
    ensures HiddenStore().Indexed() && HiddenStore().HasOpen([])
    ensures FlipFixpoint.DirectReply(Witness(Hidden()), ROOT, HiddenStore(), [], 2) == Resolved(true, 6, false)
  {
    hide HiddenStore, Witness;
    HiddenIndexed();
    assert HiddenRows()[6] == Row([2], Some(Loss), Some(6), false) && HiddenRows()[0] == Row([], None, None, false);
    assert [] + [2] == [2];
    ProvenReply(Witness(Hidden()), HiddenStore(), [], 2, [2]);
  }

  lemma {:induction false} HiddenReplies()
    ensures var g, s := Witness(Hidden()), HiddenStore();
            s.Indexed() && s.HasOpen([]) && FlipFixpoint.Direct(g, ROOT, s, []) == Summarise(Hidden())
  {
    hide Summarise, ReplyStatus, FlipFixpoint.DirectReply, HiddenStore, Witness, Replay;
    var g, s := Witness(Hidden()), HiddenStore();
    ChainClaims();
    SecondReply();
    SingleMoves();
    var moves := g.legal(ROOT);
    var ds := seq(|moves|, i requires 0 <= i < |moves| => FlipFixpoint.DirectReply(g, ROOT, s, [], moves[i]));
    assert ds[0] == Resolved(true, 4, true) && ds[1] == Resolved(true, 6, false);
    assert ds == Hidden();
  }

  /** The converged analysis of this store, which a fold could write, calls a win in five exact; the
      position is won in three.  Every reply status is real. */
  lemma {:induction false} ExactNotMinimal()
    ensures var g := Witness(Hidden());
            var s := HiddenStore();
            && s.Indexed() && AllReal(g, ROOT, Hidden())
            && (forall i :: 0 <= i < |s.rows| ==> Folded(g, ROOT, s, s.rows[i]))
            && FlipFixpoint.Lookup(FlipFixpoint.DirectClaims(g, ROOT, s), []) == Some(Claim(true, 5, true, true, 2, 0))
            && Forced(g, ROOT, Win, 3)
  {
    hide Forced, Summarise, AllReal, FlipFixpoint.Direct, Folded, HiddenStore;
    HiddenCensus();
    HiddenReplies();
    HiddenFolded();
    WitnessReal(Hidden());
    ForkWins(Hidden(), 1);
  }

  lemma {:induction false} EndFolded(g: Rules, s: Store, r: Row)
    requires
      && r.path != [] && r.path[..|r.path| - 1] in s.byPath && r.outcome == Some(Loss) && r.exact && r.bound == Some(0)
    requires g.terminal(Replay(g, ROOT, r.path)) == Some(Loss)
    ensures Folded(g, ROOT, s, r)
  {
  }

  /** A proven row with one legal move that has the matching child row. */
  lemma {:induction false} StepFolded(g: Rules, s: Store, r: Row, p: Position, m: Move, key: Path)
    requires r.path != [] && r.path[..|r.path| - 1] in s.byPath && r.outcome.Some? && !r.exact && r.bound.Some?
    requires (r.outcome == Some(Win) || r.outcome == Some(Loss)) && p == Replay(g, ROOT, r.path) && g.terminal(p).None?
    requires m in g.legal(p) && key == r.path + [m] && ProvenChild(s, r, m, r.bound.value - 1)
    requires forall x :: x in g.legal(p) && x != m ==> r.outcome == Some(Win) && r.path + [x] !in s.byPath
    ensures Folded(g, ROOT, s, r)
  {
  }

  lemma {:induction false} HiddenFolded()
    ensures var g, s := Witness(Hidden()), HiddenStore();
            forall i :: 0 <= i < |s.rows| ==> Folded(g, ROOT, s, s.rows[i])
  {
    hide HiddenStore, Folded;
    HiddenIndexed();
    forall i | 0 <= i < 13
      ensures Folded(Witness(Hidden()), ROOT, HiddenStore(), HiddenRows()[i])
    {
      if i < 5 {
        OpenFolded(i);
      } else if i == 5 || i == 12 {
        EndsFolded(i);
      } else {
        ProvenFolded(i);
      }
    }
  }

  lemma {:induction false} ParentPath(i: nat)
    requires 0 < i < 13
    ensures var rows, up := HiddenRows(), if i == 6 then 0 else i - 1;
            rows[i].path != [] && rows[i].path[..|rows[i].path| - 1] == rows[up].path
  {
  }

  lemma {:induction false} LineRow(i: nat)
    requires 6 <= i < 12
    ensures var r := HiddenRows()[i];
            (r.outcome == Some(Win) || r.outcome == Some(Loss)) && !r.exact && r.bound.Some?
            && (i == 7 ==> r.outcome == Some(Win))
  {
  }

  lemma {:induction false} OpenRow(i: nat)
    requires i < 5
    ensures var r := HiddenRows()[i]; r.outcome.None? && r.bound.None? && !r.exact && (i == 0 ==> r.path == [])
  {
  }

  /** A row's parent is the row before it, apart from the first rows of the two replies. */
  lemma {:induction false} ParentRow(i: nat)
    requires 0 < i < 13
    ensures var s := HiddenStore();
            s.Indexed() && s.rows == HiddenRows() && HiddenRows()[i].path != []
            && HiddenRows()[i].path[..|HiddenRows()[i].path| - 1] in s.byPath
  {
    hide HiddenStore;
    HiddenIndexed();
    PathShapes();
    ParentPath(i);
    hide HiddenRows;
    var up := if i == 6 then 0 else i - 1;
    assert HiddenRows()[up].path in HiddenStore().byPath;
  }

  lemma {:induction false} OpenFolded(i: nat)
    requires i < 5
    ensures Folded(Witness(Hidden()), ROOT, HiddenStore(), HiddenRows()[i])
  {
    hide HiddenStore, HiddenRows;
    OpenRow(i);
    if i > 0 {
      ParentRow(i);
    }
  }

  lemma {:induction false} EndPlace(i: nat)
    requires i == 5 || i == 12
    ensures Witness(Hidden()).terminal(Replay(Witness(Hidden()), ROOT, HiddenRows()[i].path)) == Some(Loss)
  {
    hide Replay;
    FirstPlaces();
    SecondPlaces();
  }

  lemma {:induction false} EndsFolded(i: nat)
    requires i == 5 || i == 12
    ensures Folded(Witness(Hidden()), ROOT, HiddenStore(), HiddenRows()[i])
  {
    hide HiddenStore, Replay, Folded, Witness;
    ParentRow(i);
    EndPlace(i);
    EndFolded(Witness(Hidden()), HiddenStore(), HiddenRows()[i]);
  }

  /** The position, the reply and the rest of a proven row of the second reply. */
  function LinePosition(i: nat): Position
  {
    if i == 6 then -12 else if i == 7 then -13 else 24 - 2 * i
  }

  lemma {:induction false} LineReplay(i: nat)
    requires 6 <= i < 12
    ensures Replay(Witness(Hidden()), ROOT, HiddenRows()[i].path) == LinePosition(i)
  {
    SecondPlaces();
    hide Replay, Witness;
  }

  lemma {:induction false} LineMoves(i: nat)
    requires 6 <= i < 12
    ensures var g, p := Witness(Hidden()), LinePosition(i);
            g.terminal(p).None? && g.legal(p) == if i == 7 then [1, 2] else [1]
  {
  }

  /** The next row is the matching child. */
  lemma {:induction false} LineChild(i: nat, m: Move)
    requires 6 <= i < 12 && m == if i == 7 then 2 else 1
    ensures var s, r := HiddenStore(), HiddenRows()[i];
            r.outcome.Some? && r.bound.Some? && r.bound.value > 0 && ProvenChild(s, r, m, r.bound.value - 1)
  {
    hide HiddenStore;
    HiddenIndexed();
    var rows := HiddenRows();
    assert rows[i].path + [m] == rows[i + 1].path;
  }

  /** The other answer of the fork is not stored. */
  lemma {:induction false} NotStored()
    ensures HiddenRows()[7].path + [1] !in HiddenStore().byPath
  {
    hide HiddenStore;
    HiddenIndexed();
    assert HiddenRows()[7].path + [1] == [2, 1, 1];
    assert forall j :: 0 <= j < 13 ==> HiddenRows()[j].path != [2, 1, 1];
  }

  lemma {:induction false} ProvenFolded(i: nat)
    requires 6 <= i < 12
    ensures Folded(Witness(Hidden()), ROOT, HiddenStore(), HiddenRows()[i])
  {
    hide HiddenStore, Witness, Replay, Folded, ProvenChild, HiddenRows, LinePosition;
    var m := if i == 7 then 2 else 1;
    PathShapes();
    ParentRow(i);
    LineRow(i);
    LineReplay(i);
    LineMoves(i);
    LineChild(i, m);
    NotStored();
    var r := HiddenRows()[i];
    StepFolded(Witness(Hidden()), HiddenStore(), r, LinePosition(i), m, r.path + [m]);
  }
}
