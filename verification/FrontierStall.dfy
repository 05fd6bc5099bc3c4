/** Two runs the batch's design note rules out: a batch that never spends its budget, and a visit to a
    node that is already won. */
module FrontierStall {
  import opened Game
  import opened Paths
  import opened Frontier
  import opened FrontierBatch
  import opened FrontierRevisit
  import opened FrontierTruth

  /** One move from each position, five positions in a row. */
  const CHAIN: Rules := Rules(
    p => if 0 <= p < 4 then [1] else [],
    (p, m) => p + 1,
    p => if 0 <= p < 4 then None else Some(Win),
    p => if p < 0 then 0 else p)

  lemma {:induction false} ChainSane()
    ensures CHAIN.Sane()
  {
  }

  // ----- a censor without cost -----

  const FREE_CENSOR: (nat, Path) -> JobRecord := (n, key) => JobRecord(Censored, 0)

  const STALL: Setup := Setup(CHAIN, 0, 1, map[], [], {}, {})

  /** The worked root is the only candidate, its only child has no work. */
  ghost predicate Stalled(s: State)
  {
    && s.order == {[]} && WorkOf(s.entries, []) == 1 && WorkOf(s.entries, [1]) == 0
    && [1] !in s.shards && [1] !in s.marks && s.summary.evals == 0
  }

  lemma {:induction false} ChainPath()
    ensures PathLegal(CHAIN, 0, []) && Replay(CHAIN, 0, []) == 0
    ensures PathLegal(CHAIN, 0, [1])
  {
    assert [1][..0] == [];
  }

  lemma {:induction false} OnlyFirst(order: set<Path>, rel: Path, k: Path)
    requires order == {k} && IsFirst(order, rel)
    ensures rel == k
  {
  }

  lemma {:induction false} StallChoice(s: State, a: Act)
    requires Stalled(s) && Chooses(STALL, s, a)
    ensures a == Search([1])
  {
    ChainPath();
    hide IsFirst, PathLegal;
    var rel :| IsFirst(s.order, rel) && ChoosesAt(STALL, s, rel, a);
    OnlyFirst(s.order, rel, []);
    assert [] + [1] == [1];
    assert 1 in CHAIN.legal(0) && !Handled(STALL, s, [] + [1]);
    var m :| LeastUnhandled(STALL, s, [], m) && a == Search([] + [m]);
  }

  lemma {:induction false} FreeCensor(s: State)
    requires Stalled(s)
    ensures InScope([], [1]) && Stalled(Book(STALL, s, [1], JobRecord(Censored, 0)))
    ensures Book(STALL, s, [1], JobRecord(Censored, 0)).summary.jobs == s.summary.jobs + 1
  {
    hide UnderClosed;
    assert RelOf([], [1]) == [1];
  }

  /** The same choice again, for nothing. */
  lemma {:induction false} StallStep(s: State, a: Act)
    requires Stalled(s) && Chooses(STALL, s, a)
    ensures a == Search([1]) && StopOf(STALL, a) == None
    ensures Stalled(Effect(STALL, s, a, FREE_CENSOR))
            && Effect(STALL, s, a, FREE_CENSOR).summary.jobs == s.summary.jobs + 1
  {
    StallChoice(s, a);
    ChainPath();
    hide Chooses, PathLegal, Replay, UnderClosed;
    assert RelOf([], [1]) == [1];
    FreeCensor(s);
  }

  method StallOnce(b: WalkBatch)
    requires b.Valid() && b.Fixed() == STALL && Stalled(b.Now()) && b.oracle == FREE_CENSOR
    modifies b, b.frontier, b.ledger
    ensures b.Valid() && Stalled(b.Now()) && b.summary.jobs == old(b.summary.jobs) + 1
  {
    hide WalkBatch.Valid, Chooses, Effect, StopOf, Stalled, CHAIN, FREE_CENSOR;
    ghost var was := b.Now();
    ghost var act;
    var stop;
    stop, act := b.Iterate();
    StallStep(was, act);
  }

  /** However long it runs, a batch whose expanded child is censored for free visits that child again
      and again; no eval cap is ever reached. */
  method StallRun(n: nat) returns (b: WalkBatch)
    ensures b.Valid() && b.oracle == FREE_CENSOR && CHAIN.Sane()
    ensures b.summary.jobs == n && b.summary.evals == 0 && b.frontier.order == {[]}
  {
    ChainSane();
    b := new WalkBatch(CHAIN, 0, 1, map[], FREE_CENSOR, map[[] := Entry(1, 1)], {}, {}, []);
    StallStarts(b.Fixed(), b.Now());
    hide WalkBatch.Valid, Stalled, CHAIN, STALL, FREE_CENSOR;
    for i := 0 to n
      invariant b.Valid() && b.Fixed() == STALL && Stalled(b.Now()) && b.summary.jobs == i && b.oracle == FREE_CENSOR
      invariant fresh(b) && fresh(b.frontier) && fresh(b.ledger)
    {
      StallOnce(b);
    }
    StallEnds(b.Now());
  }

  lemma {:induction false} StallEnds(s: State)
    requires Stalled(s)
    ensures s.summary.evals == 0 && s.order == {[]}
  {
  }

  lemma {:induction false} StallStarts(u: Setup, s: State)
    requires u == Setup(CHAIN, 0, 1, map[], [], Relative([], ProvenKeys(map[])), OrParents([], LossKeys(map[])))
    requires s ==
               State(Admitted(u, {[]}, {}), Relative([], {}), {}, {}, {}, 0, map[[] := Entry(1, 1)], {}, {}, NO_SUMMARY)
    ensures u == STALL && Stalled(s)
  {
    assert u.proven == {} && u.orClosed == {};
    assert RelOf([], []) == [];
    assert Relative([], {[]}) == {[]};
    assert !UnderClosed([], u.proven + u.orClosed + Relative([], {}));
  }

  // ----- a visit to a won node -----

  const LOST: Path := [1, 1, 1]

  const ONE_LOSS: (nat, Path) -> JobRecord :=
    (n, key) => JobRecord(if key == LOST then Decisive(Loss) else if |key| < 4 then Censored else Decisive(Win), 1)

  const AGAIN: Setup := Setup(CHAIN, 0, 1, map[], [1], {}, {})

  const BEGUN: State :=
    State({[1, 1]}, {}, {}, {}, {}, 0, map[LOST := Entry(0, 1)], {}, {}, NO_SUMMARY)

  const CLOSED: State :=
    State({}, {}, {[1]}, {[1]}, {[1, 1]}, 0, map[LOST := Entry(0, 1)], {}, {LOST}, Summary(1, 1, 0, 0, 0, 1, 1))

  const REOPENED: State :=
    State({[]}, {}, {[1]}, {[1]}, {[1, 1]}, 0, map[LOST := Entry(0, 1), [1] := Entry(1, 1)], {}, {LOST},
        Summary(2, 1, 1, 0, 1, 2, 1))

  lemma {:induction false} ChainPaths()
    ensures PathLegal(CHAIN, 0, LOST) && PathLegal(CHAIN, 0, [1])
            && PathLegal(CHAIN, 0, [1, 1])
    ensures Replay(CHAIN, 0, [1]) == 1
  {
    assert LOST[..0] == [] && LOST[..1] == [1] && LOST[..2] == [1, 1] && [1, 1][..1] == [1] && [1, 1][..0] == []
           && [1][..0] == [];
    assert Replay(CHAIN, 0, [1]) == 1 && Replay(CHAIN, 0, [1, 1]) == 2;
  }

  lemma {:induction false} ChainReplay(key: Path)
    ensures Replay(CHAIN, 0, key) == |key|
  {
    if key != [] {
      ChainReplay(key[..|key| - 1]);
    }
  }

  /** Every job tells the truth. */
  lemma {:induction false} JobsTrue()
    ensures OracleTrue(AGAIN, ONE_LOSS)
  {
    assert Forced(CHAIN, 4, Win, 0);
    assert Forced(CHAIN, 3, Loss, 1);
    forall n: nat, key: Path
      ensures RecordTrue(CHAIN, Replay(CHAIN, 0, key), ONE_LOSS(n, key))
    {
      ChainReplay(key);
      if |key| >= 4 {
        assert Forced(CHAIN, |key|, Win, 0);
      }
    }
  }

  /** The only record hangs in the scope without an anchor. */
  lemma {:induction false} BegunOrphan()
    ensures Orphan(AGAIN, BEGUN, [1, 1])
  {
    assert [1] + [1, 1] == LOST;
    assert forall i :: 0 <= i <= 2 ==> [1] + [1, 1][..i] == LOST[..1 + i];
  }

  /** The lost grandchild closes its parent. */
  lemma {:induction false} FirstStep(a: Act)
    requires Chooses(AGAIN, BEGUN, a)
    ensures a == Search(LOST) && StopOf(AGAIN, a) == None && Effect(AGAIN, BEGUN, a, ONE_LOSS) == CLOSED
  {
    ChainPaths();
    FirstChoice(a);
    LostBooked();
    hide *;
    StepIs(AGAIN, BEGUN, LOST, ONE_LOSS);
  }

  /** A search of a legal node in scope books its job. */
  lemma {:induction false} StepIs(u: Setup, s: State, key: Path, oracle: (nat, Path) -> JobRecord)
    requires InScope(u.scope, key) && PathLegal(u.g, u.start, key)
    ensures StopOf(u, Search(key)) == None
    ensures Effect(u, s, Search(key), oracle) == Book(u, s, key, oracle(s.summary.jobs, key))
  {
    hide Book, PathLegal;
  }

  lemma {:induction false} LostBooked()
    ensures InScope([1], LOST) && AGAIN.scope == [1] && AGAIN.g == CHAIN && AGAIN.start == 0
    ensures Book(AGAIN, BEGUN, LOST, ONE_LOSS(0, LOST)) == CLOSED && BEGUN.summary.jobs == 0
  {
    assert LOST[..2] == [1, 1] && RelOf([1], LOST) == [1, 1] && ParentRel([1], LOST) == [1];
    assert Swept(BEGUN.order, [1, 1]) == {} && Swept({}, [1]) == {};
  }

  lemma {:induction false} FirstChoice(a: Act)
    requires Chooses(AGAIN, BEGUN, a)
    ensures a == Search(LOST)
  {
    hide IsFirst, PathLegal, LeastUnhandled, AllHandled;
    var rel :| IsFirst(BEGUN.order, rel) && ChoosesAt(AGAIN, BEGUN, rel, a);
    OnlyFirst(BEGUN.order, rel, [1, 1]);
    assert [1] + [1, 1] == LOST;
  }

  /** No candidate is left, so the scope root is searched, and censored. */
  lemma {:induction false} SecondStep(a: Act)
    requires Chooses(AGAIN, CLOSED, a)
    ensures a == Search([1]) && StopOf(AGAIN, a) == None && Effect(AGAIN, CLOSED, a, ONE_LOSS) == REOPENED
  {
    ChainPaths();
    hide PathLegal, ChoosesAt;
    assert a == Search([1]);
    assert RelOf([1], [1]) == [];
    assert !UnderClosed([], {[1]} + {[1, 1]});
    assert AGAIN.proven + AGAIN.orClosed + CLOSED.orDyn + CLOSED.drawn + CLOSED.decided == {[1]} + {[1, 1]};
  }

  /** The scope root is expanded, and its won child is searched. */
  lemma {:induction false} ThirdStep(a: Act)
    requires Chooses(AGAIN, REOPENED, a)
    ensures a == Search([1, 1]) && StopOf(AGAIN, a) == None && RelOf([1], [1, 1]) == [1]
  {
    ChainPaths();
    hide PathLegal, IsFirst;
    var rel :| IsFirst(REOPENED.order, rel) && ChoosesAt(AGAIN, REOPENED, rel, a);
    OnlyFirst(REOPENED.order, rel, []);
    assert [1] + [] == [1] && [1] + [1] == [1, 1];
    assert 1 in CHAIN.legal(1) && !Handled(AGAIN, REOPENED, [1] + [1]);
    var m :| LeastUnhandled(AGAIN, REOPENED, [1], m) && a == Search([1] + [m]);
  }

  lemma {:induction false} AgainStarts(u: Setup, s: State)
    requires u == Setup(CHAIN, 0, 1, map[], [1], Relative([1], ProvenKeys(map[])), OrParents([1], LossKeys(map[])))
    requires s == State(Admitted(u, {LOST}, {}), Relative([1], {}), {}, {}, {}, 0, map[LOST := Entry(0, 1)], {}, {},
            NO_SUMMARY)
    ensures u == AGAIN && s == BEGUN
  {
    assert u.proven == {} && u.orClosed == {};
    assert RelOf([1], LOST) == [1, 1];
    assert Relative([1], {LOST}) == {[1, 1]};
    assert Relative([1], {}) == {};
    assert !UnderClosed([1, 1], u.proven + u.orClosed + Relative([1], {}));
  }

  lemma {:induction false} StaysInScope()
    ensures AGAIN.scope == [1] && InScope([1], LOST) && InScope([1], [1]) && InScope([1], [1, 1])
    ensures CLOSED.orDyn == {[1]} && REOPENED.orDyn == {[1]}
  {
  }

  method LoseGrandchild(b: WalkBatch)
    requires b.Valid() && b.Fixed() == AGAIN && b.oracle == ONE_LOSS && b.Now() == BEGUN && b.log == []
    modifies b, b.frontier, b.ledger
    ensures b.Valid() && b.Now() == CLOSED && |b.log| == 1
  {
    hide WalkBatch.Valid, Chooses, Effect, StopOf, Known, BEGUN, CLOSED, CHAIN, ONE_LOSS, LOST;
    ghost var act;
    var stop;
    stop, act := b.Iterate();
    FirstStep(act);
    StaysInScope();
  }

  method SearchRoot(b: WalkBatch)
    requires b.Valid() && b.Fixed() == AGAIN && b.oracle == ONE_LOSS && b.Now() == CLOSED && |b.log| == 1
    modifies b, b.frontier, b.ledger
    ensures b.Valid() && b.Now() == REOPENED && |b.log| == 2
  {
    hide WalkBatch.Valid, Chooses, Effect, StopOf, Known, CLOSED, REOPENED, CHAIN, ONE_LOSS, LOST;
    ghost var act;
    var stop;
    stop, act := b.Iterate();
    SecondStep(act);
    StaysInScope();
  }

  method SearchWonChild(b: WalkBatch)
    requires b.Valid() && b.Fixed() == AGAIN && b.oracle == ONE_LOSS && b.Now() == REOPENED && |b.log| == 2
    modifies b, b.frontier, b.ledger
    ensures b.Valid() && |b.log| == 3 && b.log[2].rel in b.log[2].orDyn
  {
    hide WalkBatch.Valid, Chooses, Effect, StopOf, Known, REOPENED, CHAIN, ONE_LOSS, LOST;
    ghost var act;
    var stop;
    stop, act := b.Iterate();
    ThirdStep(act);
    StaysInScope();
  }

  /** Three iterations with truthful jobs that search a node whose won child is already proven: the
      expansion does not look at the nodes closed in this session.  The batch starts with an orphan. */
  method RevisitRun() returns (b: WalkBatch)
    ensures b.Valid() && b.oracle == ONE_LOSS && |b.log| == 3 && OracleTrue(b.Fixed(), b.oracle)
    ensures b.log[2].rel in b.log[2].orDyn
    ensures Orphan(AGAIN, BEGUN, [1, 1])
  {
    JobsTrue();
    BegunOrphan();
    b := new WalkBatch(CHAIN, 0, 1, map[], ONE_LOSS, map[LOST := Entry(0, 1)], {}, {}, [1]);
    AgainStarts(b.Fixed(), b.Now());
    hide WalkBatch.Valid, BEGUN, CLOSED, REOPENED, AGAIN, CHAIN, ONE_LOSS, LOST, OracleTrue, Orphan;
    LoseGrandchild(b);
    SearchRoot(b);
    SearchWonChild(b);
  }
}
