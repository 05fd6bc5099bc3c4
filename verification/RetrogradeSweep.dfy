/** The value iteration itself, in place on the table's arrays. */
module RetrogradeSweep {
  import opened Game
  import opened Retrograde

  // ----- keeping the invariant -----

  /** `b` decides whatever `a` decides. */
  ghost predicate Refines(a: seq<Code>, b: seq<Code>)
  {
    |a| == |b| && forall i :: 0 <= i < |a| && a[i] != UNKNOWN ==> b[i] == a[i]
  }

  lemma {:induction false} CompleteRefines(g: Rules, pos: nat -> Position, base: seq<Code>, a: seq<Code>, b: seq<Code>,
          n: nat)
    requires Complete(g, pos, base, a, n) && Refines(a, b)
    ensures Complete(g, pos, base, b, n)
  {
    forall i | 0 <= i < |base| && base[i] != INVALID
      ensures DecidedWithin(g, pos, b, i, n)
    {
      assert DecidedWithin(g, pos, a, i, n);
    }
  }

  lemma {:induction false} StartComplete(g: Rules, pos: nat -> Position, base: seq<Code>, deps: seq<Finished>,
          rows: Rows)
    requires TableOk(g, pos, base, deps, rows)
    ensures Complete(g, pos, base, base, 0) && Sound(g, pos, base, base) && Extends(base, base)
  {
    forall i | 0 <= i < |base| && base[i] != INVALID
      ensures DecidedWithin(g, pos, base, i, 0) && SoundAt(g, pos, base, i)
    {
      assert EntryOk(g, pos, base, deps, rows, i);
      if base[i] == WIN {
        assert Forced(g, pos(i), Win, 0);
      } else if base[i] == LOSS {
        assert Forced(g, pos(i), Loss, 0);
      }
    }
  }

  /** A decided entry that is sound is decided the only way it can be. */
  lemma {:induction false} DecidedIsRight(g: Rules, pos: nat -> Position, value: seq<Code>, i: nat, o: Outcome, n: nat)
    requires i < |value| && SoundAt(g, pos, value, i) && (value[i] == WIN || value[i] == LOSS)
             && Forced(g, pos(i), o, n)
    ensures Decides(value[i], o)
  {
    var o' := if value[i] == WIN then Win else Loss;
    assert Decides(value[i], o');
    assert Holds(g, pos(i), o);
    HoldsUnique(g, pos(i), o, o');
  }

  lemma {:induction false} UnknownLive(g: Rules, pos: nat -> Position, base: seq<Code>, deps: seq<Finished>, rows: Rows,
          value: seq<Code>, i: nat)
    requires TableOk(g, pos, base, deps, rows) && Extends(base, value) && i < |value| && value[i] == UNKNOWN
    ensures base[i] == UNKNOWN && g.terminal(pos(i)).None? && rows.Has(i) && RowOk(g, pos, base, deps, rows.Of(i), i)
  {
    assert EntryOk(g, pos, base, deps, rows, i);
  }

  /** Writing a verdict keeps the table sound. */
  lemma {:induction false} DecideSound(g: Rules, pos: nat -> Position, base: seq<Code>, deps: seq<Finished>, rows: Rows,
          value: seq<Code>, i: nat, v: Code)
    requires TableOk(g, pos, base, deps, rows) && Extends(base, value) && Sound(g, pos, base, value)
    requires i < |value| && value[i] == UNKNOWN && rows.Has(i) && v == RowVerdict(rows.Of(i), value, deps)
             && v != UNKNOWN
    ensures Extends(base, value[i := v]) && Sound(g, pos, base, value[i := v]) && Refines(value, value[i := v])
  {
    UnknownLive(g, pos, base, deps, rows, value, i);
    var o := if v == WIN then Win else Loss;
    VerdictSound(g, pos, base, value, deps, rows.Of(i), i, o);
    var after := value[i := v];
    forall j | 0 <= j < |base| && base[j] != INVALID
      ensures SoundAt(g, pos, after, j)
    {
      assert SoundAt(g, pos, value, j);
    }
  }

  /** A visited entry is decided within the current pass's number of plies. */
  lemma {:induction false} VisitedDecided(g: Rules, pos: nat -> Position, base: seq<Code>, deps: seq<Finished>,
          rows: Rows, value: seq<Code>, after: seq<Code>, i: nat, n: nat)
    requires TableOk(g, pos, base, deps, rows) && Extends(base, value) && Sound(g, pos, base, value)
             && Complete(g, pos, base, value, n)
    requires Extends(base, after) && Sound(g, pos, base, after) && i < |value| && base[i] != INVALID
    requires value[i] != UNKNOWN ==> after[i] == value[i]
    requires value[i] == UNKNOWN ==> rows.Has(i) && after[i] == RowVerdict(rows.Of(i), value, deps)
    ensures DecidedWithin(g, pos, after, i, n + 1)
  {
    forall o: Outcome | Forced(g, pos(i), o, n + 1)
      ensures Decides(after[i], o)
    {
      assert SoundAt(g, pos, after, i);
      if after[i] == WIN || after[i] == LOSS {
        DecidedIsRight(g, pos, after, i, o, n + 1);
      } else if value[i] == UNKNOWN {
        UnknownLive(g, pos, base, deps, rows, value, i);
        VerdictComplete(g, pos, base, value, deps, rows.Of(i), i, o, n);
      } else {
        assert EntryOk(g, pos, base, deps, rows, i);
      }
    }
  }

  /** The recorded pass never exceeds the true distance. */
  ghost predicate DistanceOk(g: Rules, pos: nat -> Position, value: seq<Code>, dtm: seq<nat>, i: nat)
    requires i < |value| && i < |dtm|
  {
    forall o: Outcome, n: nat :: Decides(value[i], o) && Forced(g, pos(i), o, n) ==> dtm[i] <= n
  }

  ghost predicate DistancesOk(g: Rules, pos: nat -> Position, base: seq<Code>, value: seq<Code>, dtm: seq<nat>)
  {
    |value| == |base| == |dtm|
    && forall i :: 0 <= i < |base| && base[i] != INVALID ==> DistanceOk(g, pos, value, dtm, i)
  }

  lemma {:induction false} DecideDistance(g: Rules, pos: nat -> Position, base: seq<Code>, value: seq<Code>,
          dtm: seq<nat>, i: nat, v: Code, pass: nat, d: nat)
    requires pass > 0 && Complete(g, pos, base, value, pass - 1) && DistancesOk(g, pos, base, value, dtm)
    requires i < |base| && base[i] != INVALID && value[i] == UNKNOWN && d <= pass
    ensures DistancesOk(g, pos, base, value[i := v], dtm[i := d])
  {
    var after, steps := value[i := v], dtm[i := d];
    forall j | 0 <= j < |base| && base[j] != INVALID
      ensures DistanceOk(g, pos, after, steps, j)
    {
      assert DistanceOk(g, pos, value, dtm, j);
      if j == i {
        forall o: Outcome, n: nat | Decides(v, o) && Forced(g, pos(i), o, n)
          ensures d <= n
        {
          assert DecidedWithin(g, pos, value, i, pass - 1);
          if n < pass {
            ForcedMonotone(g, pos(i), o, n, pass - 1);
          }
        }
      }
    }
  }

  // ----- the fixpoint -----

  ghost predicate Stable(value: seq<Code>, deps: seq<Finished>, rows: Rows, n: nat)
  {
    forall i :: 0 <= i < n && i < |value| && value[i] == UNKNOWN && rows.Has(i) ==>
      RowVerdict(rows.Of(i), value, deps) == UNKNOWN
  }

  /** A table no pass would change decides everything that is forced at all. */
  lemma {:induction false} StableComplete(g: Rules, pos: nat -> Position, base: seq<Code>, deps: seq<Finished>,
          rows: Rows, value: seq<Code>, n: nat)
    requires TableOk(g, pos, base, deps, rows) && Extends(base, value) && Sound(g, pos, base, value)
    requires Stable(value, deps, rows, |value|)
    ensures Complete(g, pos, base, value, n)
  {
    if n == 0 {
      StartComplete(g, pos, base, deps, rows);
      CompleteRefines(g, pos, base, base, value, 0);
    } else {
      StableComplete(g, pos, base, deps, rows, value, n - 1);
      forall i | 0 <= i < |base| && base[i] != INVALID
        ensures DecidedWithin(g, pos, value, i, n)
      {
        if value[i] == UNKNOWN {
          UnknownLive(g, pos, base, deps, rows, value, i);
        }
        VisitedDecided(g, pos, base, deps, rows, value, value, i, n - 1);
      }
    }
  }

  /** The table is exact: an entry says win or loss exactly when that is its position's value. */
  ghost predicate Exact(g: Rules, pos: nat -> Position, base: seq<Code>, value: seq<Code>)
  {
    && |value| == |base|
    && forall i :: 0 <= i < |base| && base[i] != INVALID ==> ExactAt(g, pos, value, i)
  }

  ghost predicate ExactAt(g: Rules, pos: nat -> Position, value: seq<Code>, i: nat)
    requires i < |value|
  {
    (value[i] == WIN <==> Holds(g, pos(i), Win)) && (value[i] == LOSS <==> Holds(g, pos(i), Loss))
  }

  lemma {:induction false} StableExact(g: Rules, pos: nat -> Position, base: seq<Code>, deps: seq<Finished>, rows: Rows,
          value: seq<Code>)
    requires TableOk(g, pos, base, deps, rows) && Extends(base, value) && Sound(g, pos, base, value)
    requires Stable(value, deps, rows, |value|)
    ensures Exact(g, pos, base, value)
  {
    forall i | 0 <= i < |base| && base[i] != INVALID
      ensures ExactAt(g, pos, value, i)
    {
      assert SoundAt(g, pos, value, i);
      assert Decides(value[i], Win) <==> value[i] == WIN;
      assert Decides(value[i], Loss) <==> value[i] == LOSS;
      forall o: Outcome | Holds(g, pos(i), o)
        ensures Decides(value[i], o)
      {
        var n: nat :| Forced(g, pos(i), o, n);
        StableComplete(g, pos, base, deps, rows, value, n);
        assert DecidedWithin(g, pos, value, i, n);
      }
    }
  }

  // ----- the loops -----

  /** Read one row: a loss to move to, or nothing but wins. */
  method ReadRow(row: seq<U32>, value: array<Code>, deps: seq<Finished>) returns (v: Code)
    requires row != []
    ensures v == RowVerdict(row, value[..], deps)
  {
    var anyLoss, anyUnknown, allWin := false, false, true;
    for k := 0 to |row|
      invariant anyLoss <==> exists j :: 0 <= j < k && RefValue(row[j], value[..], deps) == LOSS
      invariant anyUnknown <==> exists j :: 0 <= j < k && RefValue(row[j], value[..], deps) == UNKNOWN
      invariant !anyLoss ==> (allWin <==> forall j :: 0 <= j < k ==> RefValue(row[j], value[..], deps) == WIN)
    {
      var c := RefValue(row[k], value[..], deps);
      if c == LOSS {
        anyLoss := true;
      } else if c == UNKNOWN {
        anyUnknown, allWin := true, false;
      } else if c != WIN {
        allWin := false;
      }
    }
    v := if anyLoss then WIN else if allWin && !anyUnknown then LOSS else UNKNOWN;
  }

  ghost function Undecided(value: seq<Code>): set<nat>
  {
    set i | 0 <= i < |value| && value[i] == UNKNOWN
  }

  lemma {:induction false} FewerUndecided(a: seq<Code>, i: nat, v: Code)
    requires i < |a| && a[i] == UNKNOWN && v != UNKNOWN
    ensures |Undecided(a[i := v])| == |Undecided(a)| - 1
  {
    assert Undecided(a[i := v]) == Undecided(a) - {i};
  }

  /** The invariant between passes: true, complete for `n` plies, distances not overstated. */
  ghost predicate After(g: Rules, pos: nat -> Position, base: seq<Code>, value: seq<Code>, dtm: seq<nat>, n: nat)
  {
    && Extends(base, value) && Sound(g, pos, base, value) && Complete(g, pos, base, value, n)
    && DistancesOk(g, pos, base, value, dtm)
  }

  /** Entries before `i` are already decided within one ply more. */
  ghost predicate Swept(g: Rules, pos: nat -> Position, base: seq<Code>, value: seq<Code>, n: nat, i: nat)
  {
    |value| == |base|
    && forall j :: 0 <= j < i && j < |base| && base[j] != INVALID ==> DecidedWithin(g, pos, value, j, n)
  }

  lemma {:induction false} SweptRefines(g: Rules, pos: nat -> Position, base: seq<Code>, a: seq<Code>, b: seq<Code>,
          n: nat, i: nat)
    requires Swept(g, pos, base, a, n, i) && Refines(a, b)
    ensures Swept(g, pos, base, b, n, i)
  {
    forall j | 0 <= j < i && j < |base| && base[j] != INVALID
      ensures DecidedWithin(g, pos, b, j, n)
    {
      assert DecidedWithin(g, pos, a, j, n);
    }
  }

  /** Every entry the sweep decided carries the pass that did it, saturated to a byte. */
  ghost predicate Recorded(base: seq<Code>, value: seq<Code>, dtm: seq<nat>, pass: nat)
  {
    && |value| == |base| == |dtm|
    && forall i :: 0 <= i < |base| && base[i] == UNKNOWN && value[i] != UNKNOWN ==> 1 <= dtm[i] <= 255 && dtm[i] <= pass
  }

  /** One entry of a pass. */
  lemma {:induction false} EntryStep(g: Rules, pos: nat -> Position, base: seq<Code>, deps: seq<Finished>, rows: Rows,
          value: seq<Code>, dtm: seq<nat>, after: seq<Code>, steps: seq<nat>, pass: nat, i: nat, d: nat)
    requires TableOk(g, pos, base, deps, rows) && pass > 0 && i < |base| && After(g, pos, base, value, dtm, pass - 1)
    requires Swept(g, pos, base, value, pass, i)
    requires value[i] != UNKNOWN || (rows.Has(i) && RowVerdict(rows.Of(i), value, deps) == UNKNOWN) ==>
        after == value && steps == dtm
    requires value[i] == UNKNOWN && rows.Has(i) && RowVerdict(rows.Of(i), value, deps) != UNKNOWN ==>
               after == value[i := RowVerdict(rows.Of(i), value, deps)] && d <= pass && steps == dtm[i := d]
    ensures After(g, pos, base, after, steps, pass - 1) && Swept(g, pos, base, after, pass, i + 1)
  {
    if value[i] == UNKNOWN {
      UnknownLive(g, pos, base, deps, rows, value, i);
      var v := RowVerdict(rows.Of(i), value, deps);
      if v != UNKNOWN {
        DecideSound(g, pos, base, deps, rows, value, i, v);
        CompleteRefines(g, pos, base, value, after, pass - 1);
        DecideDistance(g, pos, base, value, dtm, i, v, pass, d);
        SweptRefines(g, pos, base, value, after, pass, i);
      }
    }
    if base[i] != INVALID {
      VisitedDecided(g, pos, base, deps, rows, value, after, i, pass - 1);
    }
  }

  lemma {:induction false} AfterExtends(g: Rules, pos: nat -> Position, base: seq<Code>, value: seq<Code>,
          dtm: seq<nat>, n: nat)
    requires After(g, pos, base, value, dtm, n)
    ensures Extends(base, value)
  {
  }

  lemma {:induction false} SweptAfter(g: Rules, pos: nat -> Position, base: seq<Code>, value: seq<Code>, dtm: seq<nat>,
          pass: nat)
    requires pass > 0 && After(g, pos, base, value, dtm, pass - 1) && Swept(g, pos, base, value, pass, |base|)
    ensures After(g, pos, base, value, dtm, pass)
  {
    SweptAll(g, pos, base, value, pass);
  }

  /** One entry: a live one is decided as soon as its row decides it. */
  method SweepEntry(ghost g: Rules, ghost pos: nat -> Position, ghost base: seq<Code>, deps: seq<Finished>, rows: Rows,
                    value: array<Code>, dtm: array<nat>, pass: nat, i: nat) returns (decided: bool)
    requires TableOk(g, pos, base, deps, rows) && pass > 0 && value.Length == dtm.Length == |base| && i < value.Length
    requires After(g, pos, base, value[..], dtm[..], pass - 1) && Swept(g, pos, base, value[..], pass, i)
    requires Recorded(base, value[..], dtm[..], pass)
    modifies value, dtm
    ensures After(g, pos, base, value[..], dtm[..], pass - 1) && Swept(g, pos, base, value[..], pass, i + 1)
    ensures Recorded(base, value[..], dtm[..], pass)
    ensures |Undecided(value[..])| == |Undecided(old(value[..]))| - if decided then 1 else 0
    ensures !decided && Stable(old(value[..]), deps, rows, i) ==> Stable(value[..], deps, rows, i + 1)
  {
    hide After, Swept, Undecided, TableOk;
    decided := false;
    ghost var was, steps := value[..], dtm[..];
    AfterExtends(g, pos, base, was, steps, pass - 1);
    if value[i] == UNKNOWN {
      UnknownLive(g, pos, base, deps, rows, was, i);
      var row := rows.Of(i);
      if row != [] {
        var v := ReadRow(row, value, deps);
        if v != UNKNOWN {
          FewerUndecided(was, i, v);
          value[i] := v;
          dtm[i] := if pass < 255 then pass else 255;
          decided := true;
          assert value[..] == was[i := v];
          assert dtm[..] == steps[i := dtm[i]];
        }
      }
    }
    EntryStep(g, pos, base, deps, rows, was, steps, value[..], dtm[..], pass, i, dtm[i]);
  }

  lemma {:induction false} SweepStarts(g: Rules, pos: nat -> Position, base: seq<Code>, value: seq<Code>, dtm: seq<nat>,
          pass: nat)
    requires |value| == |base| && pass > 0 && Recorded(base, value, dtm, pass - 1)
    ensures Swept(g, pos, base, value, pass, 0) && Recorded(base, value, dtm, pass)
  {
  }

  /** One pass over the table, newest values first seen. */
  method Sweep(ghost g: Rules, ghost pos: nat -> Position, ghost base: seq<Code>, deps: seq<Finished>, rows: Rows,
               value: array<Code>, dtm: array<nat>, pass: nat) returns (changed: nat)
    requires TableOk(g, pos, base, deps, rows) && pass > 0 && value.Length == dtm.Length == |base|
    requires After(g, pos, base, value[..], dtm[..], pass - 1) && Recorded(base, value[..], dtm[..], pass - 1)
    modifies value, dtm
    ensures After(g, pos, base, value[..], dtm[..], pass) && Recorded(base, value[..], dtm[..], pass)
    ensures |Undecided(value[..])| == |Undecided(old(value[..]))| - changed
    ensures changed == 0 ==> Stable(value[..], deps, rows, |base|)
  {
    hide After, Swept, Recorded, Undecided, TableOk;
    SweepStarts(g, pos, base, value[..], dtm[..], pass);
    changed := 0;
    for i := 0 to value.Length
      invariant After(g, pos, base, value[..], dtm[..], pass - 1) && Swept(g, pos, base, value[..], pass, i)
      invariant |Undecided(value[..])| == |Undecided(old(value[..]))| - changed
      invariant Recorded(base, value[..], dtm[..], pass)
      invariant changed == 0 ==> Stable(value[..], deps, rows, i)
    {
      var decided := SweepEntry(g, pos, base, deps, rows, value, dtm, pass, i);
      if decided {
        changed := changed + 1;
      }
    }
    SweptAfter(g, pos, base, value[..], dtm[..], pass);
  }

  lemma {:induction false} SweptAll(g: Rules, pos: nat -> Position, base: seq<Code>, value: seq<Code>, n: nat)
    requires Swept(g, pos, base, value, n, |base|)
    ensures Complete(g, pos, base, value, n)
  {
  }

  /** Iterate to the fixpoint.  Whatever the index order, the table ends exact, within one
      pass more than there were undecided entries, and no recorded pass exceeds the true
      distance. */
  method Iterate(ghost g: Rules, ghost pos: nat -> Position, deps: seq<Finished>, rows: Rows, value: array<Code>,
          dtm: array<nat>)
    returns (passes: nat)
    requires value.Length == dtm.Length
    requires TableOk(g, pos, value[..], deps, rows) && forall i :: 0 <= i < dtm.Length ==> dtm[i] == 0
    modifies value, dtm
    ensures Extends(old(value[..]), value[..]) && Exact(g, pos, old(value[..]), value[..])
    ensures DistancesOk(g, pos, old(value[..]), value[..], dtm[..])
            && Recorded(old(value[..]), value[..], dtm[..], passes)
    ensures 1 <= passes <= |Undecided(old(value[..]))| + 1
  {
    ghost var base := value[..];
    hide After, TableOk, Stable, Undecided, Extends, Exact, DistancesOk;
    StartAfter(g, pos, base, deps, rows, dtm[..]);
    passes := 0;
    while true
      invariant After(g, pos, base, value[..], dtm[..], passes) && Recorded(base, value[..], dtm[..], passes)
      invariant passes + |Undecided(value[..])| <= |Undecided(base)|
      decreases |Undecided(value[..])|
    {
      passes := passes + 1;
      var changed := Sweep(g, pos, base, deps, rows, value, dtm, passes);
      if changed == 0 {
        FixpointExact(g, pos, base, deps, rows, value[..], dtm[..], passes);
        return;
      }
    }
  }

  lemma {:induction false} StartAfter(g: Rules, pos: nat -> Position, base: seq<Code>, deps: seq<Finished>, rows: Rows,
          dtm: seq<nat>)
    requires TableOk(g, pos, base, deps, rows) && |dtm| == |base| && forall i :: 0 <= i < |dtm| ==> dtm[i] == 0
    ensures After(g, pos, base, base, dtm, 0)
  {
    StartComplete(g, pos, base, deps, rows);
  }

  lemma {:induction false} FixpointExact(g: Rules, pos: nat -> Position, base: seq<Code>, deps: seq<Finished>,
          rows: Rows, value: seq<Code>, dtm: seq<nat>, n: nat)
    requires TableOk(g, pos, base, deps, rows) && After(g, pos, base, value, dtm, n)
             && Stable(value, deps, rows, |base|)
    ensures Extends(base, value) && Exact(g, pos, base, value) && DistancesOk(g, pos, base, value, dtm)
  {
    StableExact(g, pos, base, deps, rows, value);
  }

  /** Everything left unknown is a draw; returns how many entries that were. */
  method CloseDraws(value: array<Code>) returns (left: nat)
    modifies value
    ensures forall i :: 0 <= i < value.Length ==> value[i] == if old(value[i]) == UNKNOWN then DRAW else old(value[i])
    ensures left == |Undecided(old(value[..]))|
  {
    left := 0;
    ghost var was := value[..];
    ghost var seen: set<nat> := {};
    for i := 0 to value.Length
      invariant forall j :: 0 <= j < i ==> value[j] == if was[j] == UNKNOWN then DRAW else was[j]
      invariant forall j :: i <= j < value.Length ==> value[j] == was[j]
      invariant seen == (set j | 0 <= j < i && was[j] == UNKNOWN) && left == |seen|
    {
      if value[i] == UNKNOWN {
        value[i] := DRAW;
        left := left + 1;
        seen := seen + {i};
      }
    }
    assert seen == Undecided(was);
  }
}
