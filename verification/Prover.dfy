/** The depth-limited proof search that cross-checks the table, with its shared memo. */
module Prover {
  import opened Game
  import opened Retrograde
  import opened RetrogradeSweep
  import opened RetrogradeBuild

  /** What a search to `depth` plies may say about `p`: its static value, or the result forced
      within `depth`, or nothing. */
  ghost function Answer(g: Rules, p: Position, depth: nat): Option<Outcome>
  {
    if g.terminal(p).Some? then g.terminal(p)
    else if Forced(g, p, Win, depth) then Some(Win)
    else if Forced(g, p, Loss, depth) then Some(Loss)
    else None
  }

  /** Whatever the memo says is right. */
  ghost predicate MemoOk(g: Rules, memo: map<(Position, nat), Option<Outcome>>)
  {
    forall k :: k in memo ==> memo[k] == Answer(g, k.0, k.1)
  }

  class Searcher {
    const g: Rules
    var memo: map<(Position, nat), Option<Outcome>>

    constructor (g: Rules)
      ensures this.g == g && memo == map[]
    {
      this.g := g;
      memo := map[];
    }

    /** From any right memo the search answers win or loss exactly when that is forced within
        `depth`, and the memo stays right. */
    method Prove(p: Position, depth: nat) returns (r: Option<Outcome>)
      requires g.Sane() && MemoOk(g, memo)
      modifies this
      ensures MemoOk(g, memo) && r == Answer(g, p, depth)
      decreases depth
    {
      if g.terminal(p).Some? {
        return g.terminal(p);
      }
      if depth == 0 {
        return None;
      }
      var key := (p, depth);
      if key in memo {
        return memo[key];
      }
      var moves := g.legal(p);
      var allWin := true;
      r := None;
      var i := 0;
      while i < |moves| && r.None?
        invariant i <= |moves| && MemoOk(g, memo)
        invariant r.None? ==> forall j :: 0 <= j < i ==> Answer(g, g.play(p, moves[j]), depth - 1) != Some(Loss)
        invariant r.None? ==>
            (allWin <==> forall j :: 0 <= j < i ==> Answer(g, g.play(p, moves[j]), depth - 1) == Some(Win))
        invariant r.Some? ==>
            r == Some(Win) && exists j :: 0 <= j < i && Answer(g, g.play(p, moves[j]), depth - 1) == Some(Loss)
      {
        var child := Prove(g.play(p, moves[i]), depth - 1);
        if child == Some(Loss) {
          r := Some(Win);
        } else if child != Some(Win) {
          allWin := false;
        }
        i := i + 1;
      }
      if r.None? && allWin {
        r := Some(Loss);
      }
      AnswerStep(g, p, depth, r);
      memo := memo[key := r];
    }

    /** A memo may be dropped at any time. */
    method Clear()
      modifies this
      ensures MemoOk(g, memo)
    {
      memo := map[];
    }
  }

  lemma {:induction false} AnswerForced(g: Rules, p: Position, n: nat)
    ensures Answer(g, p, n) == Some(Win) <==> Forced(g, p, Win, n)
    ensures Answer(g, p, n) == Some(Loss) <==> Forced(g, p, Loss, n)
  {
    if Forced(g, p, Win, n) && Forced(g, p, Loss, n) {
      Determined(g, p, Win, n, Loss, n);
    }
  }

  /** The answer follows from the replies' answers. */
  lemma {:induction false} AnswerStep(g: Rules, p: Position, depth: nat, r: Option<Outcome>)
    requires g.Sane() && g.terminal(p).None? && depth > 0
    requires r == Some(Win) ==>
        exists j :: 0 <= j < |g.legal(p)| && Answer(g, g.play(p, g.legal(p)[j]), depth - 1) == Some(Loss)
    requires r != Some(Win) ==>
        forall j :: 0 <= j < |g.legal(p)| ==> Answer(g, g.play(p, g.legal(p)[j]), depth - 1) != Some(Loss)
    requires r == Some(Loss) ==>
        forall j :: 0 <= j < |g.legal(p)| ==> Answer(g, g.play(p, g.legal(p)[j]), depth - 1) == Some(Win)
    requires r.None? ==>
               exists j :: 0 <= j < |g.legal(p)| && Answer(g, g.play(p, g.legal(p)[j]), depth - 1) != Some(Win)
    requires r.Some? ==> r.value == Win || r.value == Loss
    ensures r == Answer(g, p, depth)
  {
    var moves := g.legal(p);
    AnswerForced(g, p, depth);
    forall j | 0 <= j < |moves|
      ensures Answer(g, g.play(p, moves[j]), depth - 1) == Some(Loss) <==>
          Forced(g, g.play(p, moves[j]), Loss, depth - 1)
      ensures Answer(g, g.play(p, moves[j]), depth - 1) == Some(Win) <==> Forced(g, g.play(p, moves[j]), Win, depth - 1)
    {
      AnswerForced(g, g.play(p, moves[j]), depth - 1);
    }
    assert Forced(g, p, Win, depth) ==> exists j :: 0 <= j < |moves| && Forced(g, g.play(p, moves[j]), Loss, depth - 1);
    assert forall j :: 0 <= j < |moves| ==> moves[j] in moves;
  }

  /** The cross-check of a table byte against a search result. */
  predicate Agrees(v: Code, r: Option<Outcome>)
  {
    match r
    case None => true
    case Some(Win) => v == WIN
    case Some(Loss) => v == LOSS
    case Some(Draw) => v == DRAW
  }

  /** An exact table and the search never contradict each other, at any depth. */
  lemma {:induction false} NeverContradicts(g: Rules, p: Position, v: Code, depth: nat)
    requires v == WIN <==> Holds(g, p, Win)
    requires v == LOSS <==> Holds(g, p, Loss)
    requires v in {WIN, LOSS, DRAW}
    ensures Agrees(v, Answer(g, p, depth))
  {
    AnswerForced(g, p, depth);
    if g.terminal(p) == Some(Draw) {
      assert forall o: Outcome, n: nat :: !Forced(g, p, o, n);
    }
  }

  /** Every table win and loss is confirmed from some depth on. */
  lemma {:induction false} EventuallyConfirmed(g: Rules, p: Position, v: Code) returns (n: nat)
    requires v == WIN <==> Holds(g, p, Win)
    requires v == LOSS <==> Holds(g, p, Loss)
    requires v == WIN || v == LOSS
    ensures forall k: nat :: n <= k ==> Answer(g, p, k) == Some(if v == WIN then Win else Loss)
  {
    var o := if v == WIN then Win else Loss;
    n :| Forced(g, p, o, n);
    forall k: nat | n <= k
      ensures Answer(g, p, k) == Some(o)
    {
      ForcedMonotone(g, p, o, n, k);
      AnswerForced(g, p, k);
    }
  }

  /** What a batch of cross-checks reports. */
  datatype Tally = Tally(confirmed: nat, inconclusive: nat, defects: nat)

  ghost function Compare(g: Rules, pos: nat -> Position, table: seq<Code>, samples: seq<nat>, depth: nat, n: nat): Tally
    requires n <= |samples| && forall k :: 0 <= k < |samples| ==> samples[k] < |table|
  {
    if n == 0 then Tally(0, 0, 0)
    else
      var t := Compare(g, pos, table, samples, depth, n - 1);
      var i := samples[n - 1];
      var r := Answer(g, pos(i), depth);
      if !Agrees(table[i], r) then t.(defects := t.defects + 1)
      else if r.Some? then t.(confirmed := t.confirmed + 1)
      else t.(inconclusive := t.inconclusive + 1)
  }

  /** Check the sampled entries of any table against the search; `full` says after which
      samples the memo is dropped.  Every disagreement is counted. */
  method CheckSamples(g: Rules, pos: nat -> Position, table: seq<Code>, samples: seq<nat>, depth: nat,
          full: nat -> bool)
    returns (t: Tally)
    requires g.Sane() && forall k :: 0 <= k < |samples| ==> samples[k] < |table|
    ensures t == Compare(g, pos, table, samples, depth, |samples|)
  {
    var search := new Searcher(g);
    t := Tally(0, 0, 0);
    for n := 0 to |samples|
      invariant search.g == g && MemoOk(g, search.memo) && fresh(search)
      invariant t == Compare(g, pos, table, samples, depth, n)
    {
      if full(n) {
        search.Clear();
      }
      var i := samples[n];
      var r := search.Prove(pos(i), depth);
      if !Agrees(table[i], r) {
        t := t.(defects := t.defects + 1);
      } else if r.Some? {
        t := t.(confirmed := t.confirmed + 1);
      } else {
        t := t.(inconclusive := t.inconclusive + 1);
      }
    }
  }

  /** The table says win, loss and otherwise draw, rightly. */
  ghost predicate RightAt(g: Rules, pos: nat -> Position, table: seq<Code>, i: nat)
  {
    && i < |table| && table[i] in {WIN, LOSS, DRAW}
    && (table[i] == WIN <==> Holds(g, pos(i), Win)) && (table[i] == LOSS <==> Holds(g, pos(i), Loss))
  }

  /** Right entries give no contradiction, at any depth. */
  lemma {:induction false} NoDefects(g: Rules, pos: nat -> Position, table: seq<Code>, samples: seq<nat>, depth: nat,
          n: nat)
    requires n <= |samples|
             && forall k :: 0 <= k < |samples| ==> samples[k] < |table| && RightAt(g, pos, table, samples[k])
    ensures var t := Compare(g, pos, table, samples, depth, n); t.defects == 0 && t.confirmed + t.inconclusive == n
  {
    if n > 0 {
      NoDefects(g, pos, table, samples, depth, n - 1);
      assert RightAt(g, pos, table, samples[n - 1]);
      NeverContradicts(g, pos(samples[n - 1]), table[samples[n - 1]], depth);
    }
  }

  /** A confirmed defect means a wrong table entry. */
  lemma {:induction false} DefectIsReal(g: Rules, pos: nat -> Position, table: seq<Code>, samples: seq<nat>, depth: nat)
    requires forall k :: 0 <= k < |samples| ==> samples[k] < |table|
    requires Compare(g, pos, table, samples, depth, |samples|).defects > 0
    ensures exists k :: 0 <= k < |samples| && !RightAt(g, pos, table, samples[k])
  {
    if forall k :: 0 <= k < |samples| ==> RightAt(g, pos, table, samples[k]) {
      NoDefects(g, pos, table, samples, depth, |samples|);
    }
  }

  /** The table's own sweep and its cross-check together: whatever placements are sampled and
      whenever the memo is dropped, all samples are accounted for and none contradicts. */
  method CrossValidate(g: Rules, pos: nat -> Position, base: seq<Code>, deps: seq<Finished>, rows: Rows,
          samples: seq<nat>, depth: nat, full: nat -> bool)
    returns (t: Tally)
    requires g.Sane() && TableOk(g, pos, base, deps, rows)
    requires forall k :: 0 <= k < |samples| ==> samples[k] < |base| && base[samples[k]] != INVALID
    ensures t.defects == 0 && t.confirmed + t.inconclusive == |samples|
  {
    var value := new Code[|base|](i requires 0 <= i < |base| => base[i]);
    var dtm := new nat[|base|](_ => 0);
    assert value[..] == base;
    var passes := Iterate(g, pos, deps, rows, value, dtm);
    ghost var exact := value[..];
    var left := CloseDraws(value);
    var table := value[..];
    forall k | 0 <= k < |samples|
      ensures RightAt(g, pos, table, samples[k])
    {
      assert ExactAt(g, pos, exact, samples[k]) && EntryOk(g, pos, base, deps, rows, samples[k]);
    }
    t := CheckSamples(g, pos, table, samples, depth, full);
    NoDefects(g, pos, table, samples, depth, |samples|);
  }

  /** Generate all five classes and cross-check one of them: no sample contradicts its table. */
  method GenerateAndCheck(w: World, class_: nat, samples: seq<nat>, depth: nat, full: nat -> bool)
    returns (tables: seq<Finished>, t: Tally)
    requires WorldOk(w) && class_ < CLASSES
    requires forall k :: 0 <= k < |samples| ==> samples[k] < ENTRIES && BaseCode(w, class_, samples[k]) != INVALID
    ensures |tables| == CLASSES && forall c :: 0 <= c < CLASSES ==> DepRight(w, c, tables[c])
    ensures t.defects == 0 && t.confirmed + t.inconclusive == |samples|
  {
    var pos := (i: nat) => PosOf(w, class_, i);
    tables := Generate(w);
    forall k | 0 <= k < |samples|
      ensures samples[k] < |tables[class_]| && RightAt(w.g, pos, tables[class_], samples[k])
    {
      assert DepRight(w, class_, tables[class_]);
      assert DepAt(w, class_, tables[class_], samples[k]);
    }
    t := CheckSamples(w.g, pos, tables[class_], samples, depth, full);
    NoDefects(w.g, pos, tables[class_], samples, depth, |samples|);
  }
}
