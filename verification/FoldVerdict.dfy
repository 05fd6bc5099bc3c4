/** The verdict of the whole-store validator, and what it is worth. */
module FoldVerdict {
  import opened Game
  import opened Lists
  import opened Paths
  import opened Fold
  import opened FoldLoad
  import opened FoldVerify

  datatype Verdict = Sound(nodes: nat, proven: nat, open: nat) | Failed(total: nat, reported: seq<DbDefect>, nodes: nat)

  ghost predicate Acceptable(g: Rules, start: Position, rows: seq<Row>)
  {
    exists at: map<nat, Position> :: Accepted(g, start, rows, at)
  }

  ghost function ProvenRows(rows: seq<Row>): set<nat>
  {
    set j | 0 <= j < |rows| && rows[j].outcome.Some?
  }

  function Least(a: nat, b: nat): nat { if a < b then a else b }

  ghost predicate CountsAre(v: Verdict, rows: seq<Row>)
  {
    v.Sound? && v.nodes == |rows| && v.proven == |ProvenRows(rows)| && v.proven + v.open == v.nodes
  }

  ghost predicate AllIn(rows: seq<Row>, at: map<nat, Position>)
  {
    forall j: nat :: j < |rows| ==> j in at
  }

  ghost function Below(n: nat): (s: set<nat>)
    ensures forall j: nat :: j in s <==> j < n
  {
    if n == 0 then {} else Below(n - 1) + {n - 1}
  }

  lemma {:induction false} BelowSize(n: nat)
    ensures |Below(n)| == n
  {
    if n > 0 {
      BelowSize(n - 1);
    }
  }

  /** Everything was visited exactly when the count says so. */
  lemma {:induction false} CountedAll(rows: seq<Row>, at: map<nat, Position>, seen: set<int>)
    requires Marked(rows, at, seen)
    ensures Size(at) == |rows| <==> AllIn(rows, at)
    ensures AllIn(rows, at) ==> |ProvenOf(rows, at)| == |ProvenRows(rows)|
  {
    BelowSize(|rows|);
    SubsetSize(at.Keys, Below(|rows|));
    if AllIn(rows, at) {
      assert at.Keys == Below(|rows|);
      assert ProvenOf(rows, at) == ProvenRows(rows);
    }
  }

  lemma {:induction false} LeastPly(rows: seq<Row>) returns (low: int)
    ensures forall j :: 0 <= j < |rows| ==> low <= rows[j].ply
  {
    if rows == [] {
      low := 0;
    } else {
      var last := rows[|rows| - 1].ply;
      low := LeastPly(rows[..|rows| - 1]);
      forall j | 0 <= j < |rows|
        ensures (if last < low then last else low) <= rows[j].ply
      {
        assert j < |rows| - 1 ==> rows[..|rows| - 1][j] == rows[j];
      }
      low := if last < low then last else low;
    }
  }

  /** In an acceptable table the walk reaches every row: a row's parent has a smaller ply. */
  lemma {:induction false} ReachesAll(g: Rules, start: Position, rows: seq<Row>, want: map<nat, Position>, at: map<nat,
          Position>, root: nat, low: int, j: nat)
    requires Accepted(g, start, rows, want) && Reached(g, rows, map[], at, root) && root < |rows|
             && rows[root].parent.None?
    requires j < |rows| && (forall x :: 0 <= x < |rows| ==> low <= rows[x].ply)
    ensures j in at
    decreases rows[j].ply - low
  {
    hide FieldsFine, BodyFine, MoveFine, Step;
    assert HasParentIn(rows, want, j);
    if rows[j].parent.None? {
      assert j == root;
    } else {
      var q: nat :| q in want && q < |rows| && rows[j].parent == Some(rows[q].id);
      assert Okay(g, rows, want, q) && j in KidRows(rows, q);
      assert KidFine(g, rows, want, q, j);
      ReachesAll(g, start, rows, want, at, root, low, q);
      assert Okay(g, rows, at, q);
      assert KidFine(g, rows, at, q, j);
    }
  }

  lemma {:induction false} WantedAll(g: Rules, start: Position, rows: seq<Row>, want: map<nat, Position>, at: map<nat,
          Position>, root: nat)
    requires Accepted(g, start, rows, want) && Reached(g, rows, map[], at, root) && root < |rows|
             && rows[root].parent.None?
    ensures AllIn(rows, at)
  {
    hide Accepted, Reached;
    var low := LeastPly(rows);
    forall j: nat | j < |rows|
      ensures j in at
    {
      ReachesAll(g, start, rows, want, at, root, low, j);
    }
  }

  lemma {:induction false} NowAccepted(g: Rules, start: Position, rows: seq<Row>, at: map<nat, Position>,
          seen: set<int>, root: nat)
    requires Reached(g, rows, map[], at, root) && Marked(rows, at, seen) && AllIn(rows, at)
    requires root < |rows| && rows[root].parent.None?
             && forall k: nat :: k < |rows| && rows[k].parent.None? ==> k == root
    requires MoveFine(g, rows[root], start) && at[root] == Step(g, rows[root], start)
    ensures Accepted(g, start, rows, at)
  {
    hide Okay, HasParentIn, MoveFine, Step;
  }

  lemma {:induction false} OnlyRoot(g: Rules, start: Position, rows: seq<Row>, want: map<nat, Position>, ks: seq<nat>)
    requires Accepted(g, start, rows, want) && Distinct(ks)
             && forall k: nat :: k in ks <==> k < |rows| && rows[k].parent.None?
    ensures |ks| == 1 && ks[0] < |rows| && rows[ks[0]].outcome != Some(Draw) && Okay(g, rows, want, ks[0])
    ensures MoveFine(g, rows[ks[0]], start) && ks[0] in want && want[ks[0]] == Step(g, rows[ks[0]], start)
  {
    hide FieldsFine, BodyFine, MoveFine, Step, KidRows, HasParentIn;
    var k :| 0 <= k < |rows| && rows[k].parent.None?;
    assert k in ks;
    forall i | 0 <= i < |ks|
      ensures ks[i] in [k as nat]
    {
      assert ks[i] in ks;
    }
    SubLength(ks, [k]);
    assert ks[0] in ks;
    assert Okay(g, rows, want, ks[0]);
  }

  /** Verify the store: sound exactly when some assignment of positions passes every check. */
  method VerifyDb(g: Rules, start: Position, rows: seq<Row>, maxReport: nat) returns (r: Option<Verdict>)
    requires ById(rows)
    ensures r.Some? && r.value.Sound? <==> Acceptable(g, start, rows)
    ensures r.Some? && r.value.Sound? ==> CountsAre(r.value, rows)
    ensures r.Some? && r.value.Failed? ==> r.value.total > 0 && |r.value.reported| == Least(maxReport, r.value.total)
  {
    hide Accepted, Okay, Reached, Marked, AllPlaced, ProvenOf, ProvenRows, Size, MoveFine, Step, AllIn;
    ghost var want: Option<map<nat, Position>> := None;
    var roots := FindRoots(rows);
    if at: map<nat, Position> :| Accepted(g, start, rows, at) {
      want := Some(at);
      OnlyRoot(g, start, rows, at, roots);
    }
    if |roots| != 1 {
      return None;
    }
    assert roots[0] in roots;
    var root := roots[0];
    if rows[root].outcome == Some(Draw) {
      return None;
    }
    var v := new DbVerifier(g, start, rows);
    WantsAll(g, start, rows, want);
    v.Visit(root, want);
    CountedAll(rows, v.at, v.seen);
    if v.defects == [] {
      if want.Some? {
        WantedAll(g, start, rows, want.value, v.at, root);
      }
      if v.visited != |rows| {
        return None;
      }
      OneOnly(rows, roots);
      NowAccepted(g, start, rows, v.at, v.seen, root);
      r := Some(Sound(|rows|, v.proven, v.open));
    } else {
      var total := |v.defects|;
      r := Some(Failed(total, v.defects[..Least(maxReport, total)], |rows|));
    }
  }

  lemma {:induction false} WantsAll(g: Rules, start: Position, rows: seq<Row>, want: Option<map<nat, Position>>)
    requires want.Some? ==> Accepted(g, start, rows, want.value)
    ensures want.Some? ==> forall j: nat :: j < |rows| ==> Okay(g, rows, want.value, j)
  {
    hide Okay;
  }

  lemma {:induction false} OneOnly(rows: seq<Row>, ks: seq<nat>)
    requires |ks| == 1 && forall k: nat :: k in ks <==> k < |rows| && rows[k].parent.None?
    ensures forall k: nat :: k < |rows| && rows[k].parent.None? ==> k == ks[0]
  {
  }
}
