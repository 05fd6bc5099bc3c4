/** When a capped batch stops by itself: exactly when it never comes to censor the same child for nothing
    for ever. */
module FrontierEnds {
  import opened Game
  import opened Paths
  import opened Frontier
  import opened FrontierBatch
  import opened FrontierRun
  import opened FrontierState

  /** The next iteration runs, below the eval cap. */
  ghost predicate Going(u: Setup, s: State, cap: nat)
  {
    s.summary.evals < cap && forall a :: Chooses(u, s, a) ==> StopOf(u, a).None?
  }

  /** A run in which every state goes on. */
  ghost predicate GoingRun(u: Setup, s: State, oracle: (nat, Path) -> JobRecord, cap: nat, trace: seq<State>)
  {
    IsRun(u, oracle, trace) && trace[0] == s && forall i :: 0 <= i < |trace| ==> Going(u, trace[i], cap)
  }

  /** The chosen node is a child that has been searched before. */
  ghost predicate OldChild(u: Setup, s: State, a: Act)
  {
    && a.Search? && s.order != {} && a.key in s.entries && InScope(u.scope, a.key) && RelOf(u.scope, a.key) !in s.order
  }

  /** A child that has a record is searched, and every job there will be a free censor. */
  ghost predicate StuckBy(u: Setup, s: State, oracle: (nat, Path) -> JobRecord, a: Act)
  {
    && Chooses(u, s, a) && OldChild(u, s, a) && forall k: nat :: k >= s.summary.jobs ==> Free(oracle(k, a.key))
  }

  ghost predicate Stuck(u: Setup, s: State, oracle: (nat, Path) -> JobRecord)
  {
    exists a :: StuckBy(u, s, oracle, a)
  }

  /** No state that the batch reaches is stuck. */
  ghost predicate NeverStuck(u: Setup, s: State, oracle: (nat, Path) -> JobRecord, cap: nat)
  {
    forall trace: seq<State> :: GoingRun(u, s, oracle, cap, trace) ==> !Stuck(u, trace[|trace| - 1], oracle)
  }

  ghost predicate GoesOn(u: Setup, s: State, oracle: (nat, Path) -> JobRecord, cap: nat, n: nat)
  {
    exists trace: seq<State> :: |trace| == n + 1 && GoingRun(u, s, oracle, cap, trace)
  }

  /** The batch never stops by itself. */
  ghost predicate Endless(u: Setup, s: State, oracle: (nat, Path) -> JobRecord, cap: nat)
  {
    forall n: nat :: GoesOn(u, s, oracle, cap, n)
  }

  // ----- a free censor of a child changes no choice -----

  /** Nothing but the visited record's passes has changed. */
  ghost predicate SameBut(u: Setup, s: State, t: State, key: Path)
    requires InScope(u.scope, key)
  {
    && t.order == s.order && t.entries == Bumped(s.entries, key, 0) && t.complete == s.complete + {RelOf(u.scope, key)}
    && t.drawn == s.drawn && t.marks == s.marks && t.shards == s.shards && t.orDyn == s.orDyn && t.decided == s.decided
    && t.summary.jobs == s.summary.jobs + 1 && t.summary.evals == s.summary.evals
  }

  lemma {:induction false} FreeSame(u: Setup, s: State, a: Act, oracle: (nat, Path) -> JobRecord)
    requires FreeAgain(u, s, a, oracle) && StopOf(u, a).None?
    ensures SameBut(u, s, Effect(u, s, a, oracle), a.key)
  {
    hide UnderClosed, Bumped, PathLegal;
    assert s.order - {RelOf(u.scope, a.key)} == s.order;
  }

  lemma {:induction false} HandledSame(u: Setup, s: State, t: State, key: Path, k: Path)
    requires InScope(u.scope, key) && SameBut(u, s, t, key) && key in s.entries && !Handled(u, s, key)
    ensures Handled(u, t, k) == Handled(u, s, k)
  {
  }

  /** The searched child is not the candidate it was reached from, and is not handled. */
  lemma {:induction false} ChildOf(u: Setup, s: State, a: Act, rel: Path) returns (m: Move)
    requires IsFirst(s.order, rel) && ChoosesAt(u, s, rel, a) && OldChild(u, s, a)
    ensures LeastUnhandled(u, s, u.scope + rel, m) && a == Search(u.scope + rel + [m]) && a.key != u.scope + rel
    ensures WorkOf(s.entries, u.scope + rel) >= u.base && PathLegal(u.g, u.start, u.scope + rel)
    ensures !Handled(u, s, a.key) && !AllHandled(u, s, u.scope + rel)
  {
    ScopeRound(u.scope, [], rel);
    hide PathLegal, Handled, Replay;
    m :| LeastUnhandled(u, s, u.scope + rel, m) && a == Search(u.scope + rel + [m]);
  }

  lemma {:induction false} SameChoice(u: Setup, s: State, t: State, a: Act)
    requires Chooses(u, s, a) && OldChild(u, s, a) && SameBut(u, s, t, a.key)
    ensures Chooses(u, t, a) && OldChild(u, t, a)
  {
    var rel := ChoiceCases(u, s, a);
    var m := ChildOf(u, s, a, rel);
    var key := u.scope + rel;
    BumpedHas(s.entries, a.key, 0);
    forall k
      ensures Handled(u, t, k) == Handled(u, s, k)
    {
      HandledSame(u, s, t, a.key, k);
    }
    assert WorkOf(t.entries, key) == WorkOf(s.entries, key);
    hide Handled, PathLegal, Replay, WorkOf, Bumped;
    assert LeastUnhandled(u, t, key, m) && !AllHandled(u, t, key);
    assert ChoosesAt(u, t, rel, a);
  }

  // ----- every other iteration makes progress -----

  /** The nodes in scope that have a record. */
  ghost function Entered(u: Setup, s: State): set<Path> { Relative(u.scope, s.entries.Keys) }

  /** A free censor of a new child is its first record. */
  lemma {:induction false} FreeEnters(u: Setup, s: State, t: State, key: Path, rank: Position -> nat)
    requires InScope(u.scope, key) && SameBut(u, s, t, key) && key !in s.entries
    requires u.g.Ranked(rank) && PathLegal(u.g, u.start, key)
    ensures var world := World(u.g, u.start, rank, u.scope); |world - Entered(u, t)| < |world - Entered(u, s)|
  {
    var world, rel := World(u.g, u.start, rank, u.scope), RelOf(u.scope, key);
    BumpedHas(s.entries, key, 0);
    InWorld(u.g, u.start, rank, u.scope, key);
    RelativeIs(u.scope, s.entries.Keys);
    RelativeIs(u.scope, t.entries.Keys);
    ScopeRound(u.scope, key, []);
    hide World, Relative, Bumped, PathLegal;
    Shrinks(world, Entered(u, s), rel);
    assert world - Entered(u, t) <= world - (Entered(u, s) + {rel});
    Fewer(world - Entered(u, t), world - (Entered(u, s) + {rel}));
  }

  lemma {:induction false} Fewer(a: set<Path>, b: set<Path>)
    requires a <= b
    ensures |a| <= |b|
  {
    assert b == a + (b - a);
  }

  /** A free censor of the scope root ends the batch. */
  lemma {:induction false} FreeRootEnds(u: Setup, s: State, t: State, cap: nat)
    requires s.order == {} && SameBut(u, s, t, u.scope)
    ensures !Going(u, t, cap)
  {
    assert RelOf(u.scope, u.scope) == [];
    assert Chooses(u, t, Done);
  }

  /** Evals left, nodes without a value, candidates, nodes without a record: lower lexicographically. */
  ghost predicate Advances(u: Setup, s: State, t: State, rank: Position -> nat, cap: nat)
  {
    var world := World(u.g, u.start, rank, u.scope);
    var now, was := Measure(t, cap, world), Measure(s, cap, world);
    Lower(now, was) || (now == was && |world - Entered(u, t)| < |world - Entered(u, s)|)
  }

  /** The same choice is made again. */
  ghost predicate Repeats(u: Setup, s: State, a: Act, t: State, rank: Position -> nat, cap: nat)
  {
    var world := World(u.g, u.start, rank, u.scope);
    && Measure(t, cap, world) == Measure(s, cap, world) && Entered(u, t) == Entered(u, s)
    && t.summary.jobs == s.summary.jobs + 1 && OldChild(u, s, a) && Chooses(u, t, a) && OldChild(u, t, a)
  }

  lemma {:induction false} StepProgress(u: Setup, s: State, a: Act, oracle: (nat, Path) -> JobRecord,
          rank: Position -> nat, cap: nat)
    requires Grounded(u) && Coherent(u, s) && Chooses(u, s, a) && Going(u, s, cap) && u.g.Ranked(rank)
    ensures var t := Effect(u, s, a, oracle);
            || !Going(u, t, cap) || Advances(u, s, t, rank, cap)
            || (Repeats(u, s, a, t, rank, cap) && Free(oracle(s.summary.jobs, a.key)))
  {
    assert StopOf(u, a).None? && s.summary.evals < cap;
    hide Grounded, Coherent, Chooses, Going, Effect, Measure, World, Lower, StopOf, OldChild;
    if a.Search? {
      SearchNew(u, s, a);
    }
    EffectLower(u, s, a, oracle, rank, cap);
    if FreeAgain(u, s, a, oracle) {
      FreeSame(u, s, a, oracle);
      FreeProgress(u, s, a, Effect(u, s, a, oracle), rank, cap);
    }
  }

  lemma {:induction false} SearchNew(u: Setup, s: State, a: Act)
    requires Grounded(u) && Coherent(u, s) && Chooses(u, s, a) && a.Search?
    ensures InScope(u.scope, a.key) && RelOf(u.scope, a.key) !in Resolved(s)
  {
    SearchVisitable(u, s, a);
    NotKnown(u, s, RelOf(u.scope, a.key));
  }

  lemma {:induction false} FreeProgress(u: Setup, s: State, a: Act, t: State, rank: Position -> nat, cap: nat)
    requires Chooses(u, s, a) && StopOf(u, a).None? && a.Search? && InScope(u.scope, a.key) && u.g.Ranked(rank)
    requires RelOf(u.scope, a.key) !in s.order && SameBut(u, s, t, a.key)
    requires var world := World(u.g, u.start, rank, u.scope); Measure(t, cap, world) == Measure(s, cap, world)
    ensures !Going(u, t, cap) || Advances(u, s, t, rank, cap) || Repeats(u, s, a, t, rank, cap)
  {
    hide World, Measure, Going, Bumped, PathLegal;
    if s.order == {} {
      var rel := ChoiceCases(u, s, a);
      FreeRootEnds(u, s, t, cap);
    } else if a.key !in s.entries {
      FreeEnters(u, s, t, a.key, rank);
    } else {
      hide Chooses;
      SameChoice(u, s, t, a);
      BumpedHas(s.entries, a.key, 0);
      assert t.entries.Keys == s.entries.Keys;
    }
  }

  // ----- runs -----

  lemma {:induction false} GoingNow(u: Setup, s: State, oracle: (nat, Path) -> JobRecord, cap: nat)
    requires Going(u, s, cap)
    ensures GoingRun(u, s, oracle, cap, [s])
  {
  }

  lemma {:induction false} GoingThen(u: Setup, s: State, a: Act, oracle: (nat, Path) -> JobRecord, cap: nat,
          rest: seq<State>)
    requires Going(u, s, cap) && Chooses(u, s, a) && GoingRun(u, Effect(u, s, a, oracle), oracle, cap, rest)
    ensures GoingRun(u, s, oracle, cap, [s] + rest) && ([s] + rest)[|rest|] == rest[|rest| - 1]
  {
    hide Chooses, Effect, Going;
    StepThenRun(u, oracle, s, a, rest);
  }

  /** After its first step a run is a run of the next state. */
  lemma {:induction false} GoingRest(u: Setup, s: State, a: Act, oracle: (nat, Path) -> JobRecord, cap: nat,
          trace: seq<State>)
    requires GoingRun(u, s, oracle, cap, trace) && |trace| > 1 && Chooses(u, s, a)
    ensures GoingRun(u, Effect(u, s, a, oracle), oracle, cap, trace[1..])
  {
    hide Chooses, Effect, Going;
    assert StepAt(u, oracle, trace[0], trace[1]);
    var b :| Chooses(u, s, b) && trace[1] == Effect(u, s, b, oracle);
    ChoiceUnique(u, s, a, b);
    var rest := trace[1..];
    forall i | 0 < i < |rest|
      ensures StepAt(u, oracle, rest[i - 1], rest[i])
    {
      assert StepAt(u, oracle, trace[i], trace[i + 1]);
    }
  }

  lemma {:induction false} NeverStuckNext(u: Setup, s: State, a: Act, oracle: (nat, Path) -> JobRecord, cap: nat)
    requires NeverStuck(u, s, oracle, cap) && Going(u, s, cap) && Chooses(u, s, a)
    ensures NeverStuck(u, Effect(u, s, a, oracle), oracle, cap)
  {
    hide Chooses, Effect, Going, Stuck, StepAt;
    var t := Effect(u, s, a, oracle);
    forall rest: seq<State> | GoingRun(u, t, oracle, cap, rest)
      ensures !Stuck(u, rest[|rest| - 1], oracle)
    {
      GoingThen(u, s, a, oracle, cap, rest);
    }
  }

  // ----- a batch that is never stuck ends -----

  /** The old child that is searched next is answered otherwise within `w` jobs. */
  ghost predicate Soon(u: Setup, s: State, oracle: (nat, Path) -> JobRecord, w: nat)
  {
    forall a :: Chooses(u, s, a) && OldChild(u, s, a) ==> PaidWithin(oracle, s.summary.jobs, a.key, w)
  }

  ghost predicate PaidWithin(oracle: (nat, Path) -> JobRecord, n: nat, key: Path, w: nat)
  {
    exists k: nat :: n <= k <= n + w && !Free(oracle(k, key))
  }

  lemma {:induction false} SoonExists(u: Setup, s: State, oracle: (nat, Path) -> JobRecord, cap: nat)
    returns (w: nat)
    requires NeverStuck(u, s, oracle, cap) && Going(u, s, cap)
    ensures Soon(u, s, oracle, w)
  {
    hide Chooses, Going, Free;
    w := 0;
    GoingNow(u, s, oracle, cap);
    assert !Stuck(u, [s][0], oracle);
    var a := ChoiceExists(u, s);
    if OldChild(u, s, a) {
      assert !StuckBy(u, s, oracle, a);
      var k: nat :| k >= s.summary.jobs && !Free(oracle(k, a.key));
      w := k - s.summary.jobs;
      assert PaidWithin(oracle, s.summary.jobs, a.key, w);
    }
    forall b | Chooses(u, s, b) && OldChild(u, s, b)
      ensures PaidWithin(oracle, s.summary.jobs, b.key, w)
    {
      ChoiceUnique(u, s, a, b);
    }
  }

  /** After a free censor of an old child the wait is shorter by one. */
  lemma {:induction false} SoonNext(u: Setup, s: State, a: Act, oracle: (nat, Path) -> JobRecord, w: nat)
    requires Soon(u, s, oracle, w) && Chooses(u, s, a) && OldChild(u, s, a) && Free(oracle(s.summary.jobs, a.key))
    requires Chooses(u, Effect(u, s, a, oracle), a) && Effect(u, s, a, oracle).summary.jobs == s.summary.jobs + 1
    ensures w > 0 && Soon(u, Effect(u, s, a, oracle), oracle, w - 1)
  {
    hide Chooses, Effect, Free;
    var t := Effect(u, s, a, oracle);
    var k: nat :| s.summary.jobs <= k <= s.summary.jobs + w && !Free(oracle(k, a.key));
    assert PaidWithin(oracle, t.summary.jobs, a.key, w - 1);
    forall b | Chooses(u, t, b)
      ensures b == a
    {
      ChoiceUnique(u, t, a, b);
    }
  }

  /** Evals left, nodes without a value, candidates, nodes without a record, and the wait at an old child:
      a batch that is never stuck lowers these until it ends. */
  lemma {:induction false} Finishes(u: Setup, s: State, oracle: (nat, Path) -> JobRecord, cap: nat,
          rank: Position -> nat, w: nat) returns (n: nat)
    requires Grounded(u) && Coherent(u, s) && NeverStuck(u, s, oracle, cap) && u.g.Ranked(rank) && Soon(u, s, oracle, w)
    ensures forall trace: seq<State> :: GoingRun(u, s, oracle, cap, trace) ==> |trace| <= n
    decreases Measure(s, cap, World(u.g, u.start, rank, u.scope)).0,
            Measure(s, cap, World(u.g, u.start, rank, u.scope)).1,
      Measure(s, cap, World(u.g, u.start, rank, u.scope)).2, |World(u.g, u.start, rank, u.scope) - Entered(u, s)|, w
  {
    hide Grounded, Coherent, NeverStuck, Soon, Chooses, Going, Effect, Measure, World, Entered, OldChild, StepAt;
    n := 0;
    if Going(u, s, cap) {
      var a := ChoiceExists(u, s);
      var t := Effect(u, s, a, oracle);
      NeverStuckNext(u, s, a, oracle, cap);
      StepCoherent(u, s, a, oracle);
      StepProgress(u, s, a, oracle, rank, cap);
      if !Going(u, t, cap) {
        n := 1;
      } else if Advances(u, s, t, rank, cap) {
        var v := SoonExists(u, t, oracle, cap);
        n := Finishes(u, t, oracle, cap, rank, v);
        n := n + 1;
      } else {
        SoonNext(u, s, a, oracle, w);
        n := Finishes(u, t, oracle, cap, rank, w - 1);
        n := n + 1;
      }
      forall trace: seq<State> | GoingRun(u, s, oracle, cap, trace) && |trace| > 1
        ensures |trace| <= n
      {
        GoingRest(u, s, a, oracle, cap, trace);
      }
    }
  }

  /** The batch stops within `n` iterations. */
  ghost predicate NoLonger(u: Setup, s: State, oracle: (nat, Path) -> JobRecord, cap: nat, n: nat)
  {
    forall trace: seq<State> :: GoingRun(u, s, oracle, cap, trace) ==> |trace| <= n
  }

  lemma {:induction false} EndsWithin(u: Setup, s: State, oracle: (nat, Path) -> JobRecord, cap: nat,
          rank: Position -> nat) returns (n: nat)
    requires Grounded(u) && Coherent(u, s) && NeverStuck(u, s, oracle, cap) && u.g.Ranked(rank)
    ensures NoLonger(u, s, oracle, cap, n)
  {
    hide Grounded, Coherent, Going, StepAt, NeverStuck, Soon;
    n := 0;
    if Going(u, s, cap) {
      var w := SoonExists(u, s, oracle, cap);
      n := Finishes(u, s, oracle, cap, rank, w);
    }
  }

  // ----- a stuck batch does not end -----

  lemma {:induction false} StuckStays(u: Setup, s: State, oracle: (nat, Path) -> JobRecord, a: Act, cap: nat)
    requires StuckBy(u, s, oracle, a) && Going(u, s, cap)
    ensures StuckBy(u, Effect(u, s, a, oracle), oracle, a) && Going(u, Effect(u, s, a, oracle), cap)
  {
    var t := Effect(u, s, a, oracle);
    assert FreeAgain(u, s, a, oracle);
    FreeSame(u, s, a, oracle);
    SameChoice(u, s, t, a);
    hide Chooses, Effect, OldChild, Free;
    forall b | Chooses(u, t, b)
      ensures StopOf(u, b).None?
    {
      ChoiceUnique(u, t, a, b);
    }
  }

  lemma {:induction false} OneGoes(u: Setup, s: State, oracle: (nat, Path) -> JobRecord, cap: nat)
    requires Going(u, s, cap)
    ensures GoesOn(u, s, oracle, cap, 0)
  {
    GoingNow(u, s, oracle, cap);
    assert |[s]| == 1;
  }

  lemma {:induction false} StuckRun(u: Setup, s: State, oracle: (nat, Path) -> JobRecord, a: Act, cap: nat, n: nat)
    requires StuckBy(u, s, oracle, a) && Going(u, s, cap)
    ensures GoesOn(u, s, oracle, cap, n)
    decreases n
  {
    assert Chooses(u, s, a);
    hide StuckBy, Going, Effect, Chooses, GoesOn;
    if n == 0 {
      OneGoes(u, s, oracle, cap);
    } else {
      var t := Effect(u, s, a, oracle);
      StuckStays(u, s, oracle, a, cap);
      StuckRun(u, t, oracle, a, cap, n - 1);
      GoesFurther(u, s, a, oracle, cap, n);
    }
  }

  lemma {:induction false} GoesFurther(u: Setup, s: State, a: Act, oracle: (nat, Path) -> JobRecord, cap: nat, n: nat)
    requires Going(u, s, cap) && Chooses(u, s, a) && n > 0 && GoesOn(u, Effect(u, s, a, oracle), oracle, cap, n - 1)
    ensures GoesOn(u, s, oracle, cap, n)
  {
    hide Going, Effect, Chooses, StepAt;
    var rest: seq<State> :| |rest| == n && GoingRun(u, Effect(u, s, a, oracle), oracle, cap, rest);
    GoingThen(u, s, a, oracle, cap, rest);
    assert |[s] + rest| == n + 1;
  }

  lemma {:induction false} GoingFirst(u: Setup, s: State, oracle: (nat, Path) -> JobRecord, cap: nat, trace: seq<State>,
          n: nat)
    requires GoingRun(u, s, oracle, cap, trace) && n < |trace|
    ensures GoesOn(u, s, oracle, cap, n)
  {
    hide Going, StepAt;
    assert |trace[..n + 1]| == n + 1 && GoingRun(u, s, oracle, cap, trace[..n + 1]);
  }

  lemma {:induction false} GoingJoin(u: Setup, s: State, oracle: (nat, Path) -> JobRecord, cap: nat, head: seq<State>,
          n: nat)
    requires GoingRun(u, s, oracle, cap, head) && GoesOn(u, head[|head| - 1], oracle, cap, n)
    ensures GoesOn(u, s, oracle, cap, |head| - 1 + n)
  {
    hide Going, StepAt;
    var rest: seq<State> :| |rest| == n + 1 && GoingRun(u, head[|head| - 1], oracle, cap, rest);
    JoinRuns(u, oracle, head, rest);
    var trace := head[..|head| - 1] + rest;
    assert |trace| == |head| + n && GoingRun(u, s, oracle, cap, trace);
  }

  /** Below an eval cap a batch goes on for ever if and only if it reaches a child that has a record, is
      searched next, and is censored for nothing by every later job. */
  lemma {:induction false} EndlessIff(u: Setup, s: State, oracle: (nat, Path) -> JobRecord, cap: nat,
          rank: Position -> nat)
    requires Grounded(u) && Coherent(u, s) && u.g.Ranked(rank)
    ensures Endless(u, s, oracle, cap) <==> !NeverStuck(u, s, oracle, cap)
  {
    hide Grounded, Coherent, Going, StepAt, StuckBy;
    if NeverStuck(u, s, oracle, cap) {
      var n := EndsWithin(u, s, oracle, cap, rank);
      assert !GoesOn(u, s, oracle, cap, n);
    } else {
      var head: seq<State> :| GoingRun(u, s, oracle, cap, head) && Stuck(u, head[|head| - 1], oracle);
      var a :| StuckBy(u, head[|head| - 1], oracle, a);
      assert Going(u, head[|head| - 1], cap) by { LastGoes(u, s, oracle, cap, head); }
      forall n: nat
        ensures GoesOn(u, s, oracle, cap, n)
      {
        if n < |head| {
          GoingFirst(u, s, oracle, cap, head, n);
        } else {
          StuckRun(u, head[|head| - 1], oracle, a, cap, n + 1 - |head|);
          GoingJoin(u, s, oracle, cap, head, n + 1 - |head|);
        }
      }
    }
  }

  lemma {:induction false} LastGoes(u: Setup, s: State, oracle: (nat, Path) -> JobRecord, cap: nat, trace: seq<State>)
    requires GoingRun(u, s, oracle, cap, trace)
    ensures |trace| > 0 && Going(u, trace[|trace| - 1], cap)
  {
    hide Going, StepAt;
  }

  ghost predicate PaidAfter(oracle: (nat, Path) -> JobRecord, n: nat, key: Path)
  {
    exists k: nat :: k >= n && !Free(oracle(k, key))
  }

  /** If every node is answered otherwise from time to time, no state is stuck. */
  lemma {:induction false} PaidNeverStuck(u: Setup, s: State, oracle: (nat, Path) -> JobRecord, cap: nat)
    requires forall n: nat, key: Path :: PaidAfter(oracle, n, key)
    ensures NeverStuck(u, s, oracle, cap)
  {
    hide Chooses, Going, Free, StepAt;
    forall t: State, a
      ensures !StuckBy(u, t, oracle, a)
    {
      if OldChild(u, t, a) {
        assert PaidAfter(oracle, t.summary.jobs, a.key);
      }
    }
  }

  lemma {:induction false} OneLess(u: Setup, s: State, a: Act, oracle: (nat, Path) -> JobRecord, cap: nat, n: nat)
    requires NoLonger(u, s, oracle, cap, n) && Chooses(u, s, a) && StopOf(u, a).None? && s.summary.evals < cap
    ensures n > 0 && NoLonger(u, Effect(u, s, a, oracle), oracle, cap, n - 1)
  {
    hide Chooses, Effect, StepAt, StopOf;
    forall b | Chooses(u, s, b)
      ensures StopOf(u, b).None?
    {
      ChoiceUnique(u, s, a, b);
    }
    GoingNow(u, s, oracle, cap);
    assert |[s]| == 1;
    hide GoingRun, Going;
    forall rest: seq<State> | GoingRun(u, Effect(u, s, a, oracle), oracle, cap, rest)
      ensures |rest| <= n - 1
    {
      GoingThen(u, s, a, oracle, cap, rest);
      assert |[s] + rest| == |rest| + 1;
    }
  }

  /** With an eval cap a batch that is never stuck stops by itself: at a cap, or exhausted, or on a record
      that does not replay. */
  method RunCapped(b: WalkBatch, o: Options, ghost rank: Position -> nat) returns (stop: Stop)
    requires b.Valid() && o.maxEvals > 0 && o.stopAt.None? && b.g.Ranked(rank)
    requires NeverStuck(b.Fixed(), b.Now(), b.oracle, o.maxEvals)
    modifies b, b.frontier, b.ledger
    ensures b.Valid() && AllFine(b.log) && stop != StopFile
    ensures stop == Exhausted ==> b.frontier.order == {} && RootDone(b.Fixed(), b.Now())
    ensures stop == Budget ==> b.summary.evals >= o.maxEvals
  {
    b.InValid();
    ghost var left := EndsWithin(b.Fixed(), b.Now(), b.oracle, o.maxEvals, rank);
    hide WalkBatch.Valid, RootDone, Chooses, Effect, StopOf, VisitFine, NeverStuck, NoLonger, Grounded, Coherent;
    while true
      invariant b.Valid() && NoLonger(b.Fixed(), b.Now(), b.oracle, o.maxEvals, left)
      decreases left
    {
      b.LogFine();
      var cap := CapHit(o, b.summary, 0);
      if cap.Some? {
        return cap.value;
      }
      ghost var was := b.Now();
      ghost var act;
      var done;
      done, act := b.Iterate();
      b.LogFine();
      OneJob(b.Fixed(), was, act, b.oracle);
      if done.Some? {
        if done.value == Exhausted {
          ExhaustedMeans(b.Fixed(), was, act);
        }
        return done.value;
      }
      OneLess(b.Fixed(), was, act, b.oracle, o.maxEvals, left);
      left := left - 1;
    }
  }
}
