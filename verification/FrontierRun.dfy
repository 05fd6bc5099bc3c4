/** Whole batches: what stops them, and when they stop by themselves. */
module FrontierRun {
  import opened Game
  import opened Paths
  import opened Frontier
  import opened FrontierBatch

  /** Caps, checked between iterations only; 0 is no cap.  `stopAt` is the iteration at which the
      operator's stop file or the clock is seen. */
  datatype Options = Options(maxEvals: nat, maxJobs: nat, stopAt: Option<nat>)

  function CapHit(o: Options, s: Summary, n: nat): Option<Stop>
  {
    if o.maxEvals > 0 && s.evals >= o.maxEvals then Some(Budget)
    else if o.maxJobs > 0 && s.jobs >= o.maxJobs then Some(MaxJobs)
    else if o.stopAt == Some(n) then Some(StopFile)
    else None
  }

  /** Every visit was fine when it was made. */
  ghost predicate AllFine(log: seq<Visited>)
  {
    forall v :: v in log ==> VisitFine(v)
  }

  /** An iteration runs at most one job, and none when the batch stops. */
  lemma {:induction false} OneJob(u: Setup, s: State, a: Act, oracle: (nat, Path) -> JobRecord)
    ensures Effect(u, s, a, oracle).summary.jobs <= s.summary.jobs + 1
    ensures Effect(u, s, a, oracle).summary.evals >= s.summary.evals
    ensures StopOf(u, a).Some? ==> StopOf(u, a) == Some(Exhausted) || StopOf(u, a) == Some(BadPath)
    ensures StopOf(u, a).Some? && (a.Search? ==> InScope(u.scope, a.key)) ==> Effect(u, s, a, oracle) == s
  {
    hide UnderClosed, Swept, Bumped, PathLegal;
  }

  lemma {:induction false} ExhaustedMeans(u: Setup, s: State, a: Act)
    requires Chooses(u, s, a) && StopOf(u, a) == Some(Exhausted)
    ensures s.order == {} && RootDone(u, s)
  {
    hide RootDone, IsFirst, LeastUnhandled, AllHandled;
  }

  ghost predicate StepAt(u: Setup, oracle: (nat, Path) -> JobRecord, s: State, t: State)
  {
    exists a :: Chooses(u, s, a) && t == Effect(u, s, a, oracle)
  }

  /** The states of a session, one per iteration. */
  ghost predicate IsRun(u: Setup, oracle: (nat, Path) -> JobRecord, trace: seq<State>)
  {
    |trace| > 0 && forall i :: 0 < i < |trace| ==> StepAt(u, oracle, trace[i - 1], trace[i])
  }

  lemma {:induction false} LongerRun(u: Setup, oracle: (nat, Path) -> JobRecord, trace: seq<State>, a: Act)
    requires IsRun(u, oracle, trace) && Chooses(u, trace[|trace| - 1], a)
    ensures IsRun(u, oracle, trace + [Effect(u, trace[|trace| - 1], a, oracle)])
  {
    hide Chooses, Effect;
    var t := Effect(u, trace[|trace| - 1], a, oracle);
    assert StepAt(u, oracle, trace[|trace| - 1], t);
  }

  /** Run until a cap, the operator, or exhaustion.  No visit was made at or under a node whose value
      was known, nor below one that was or-closed. */
  method RunWalkBatch(b: WalkBatch, o: Options) returns (stop: Stop, ghost trace: seq<State>)
    requires b.Valid() && o.stopAt.Some? && b.summary.jobs == 0
    modifies b, b.frontier, b.ledger
    ensures b.Valid() && AllFine(b.log)
    ensures o.maxJobs > 0 ==> b.summary.jobs <= o.maxJobs
    ensures stop == Exhausted ==> b.frontier.order == {} && RootDone(b.Fixed(), b.Now())
    ensures stop == Budget ==> o.maxEvals > 0 && b.summary.evals >= o.maxEvals
    ensures stop == MaxJobs ==> o.maxJobs > 0 && b.summary.jobs == o.maxJobs
    ensures IsRun(b.Fixed(), b.oracle, trace) && trace[0] == old(b.Now()) && trace[|trace| - 1] == b.Now()
  {
    hide WalkBatch.Valid, RootDone, Chooses, Effect, StopOf, VisitFine, StepAt;
    trace := [b.Now()];
    var n := 0;
    while true
      invariant b.Valid() && n <= o.stopAt.value && (o.maxJobs > 0 ==> b.summary.jobs <= o.maxJobs)
      invariant IsRun(b.Fixed(), b.oracle, trace) && trace[0] == old(b.Now()) && trace[|trace| - 1] == b.Now()
      decreases o.stopAt.value - n
    {
      b.LogFine();
      var cap := CapHit(o, b.summary, n);
      if cap.Some? {
        return cap.value, trace;
      }
      ghost var was := b.Now();
      ghost var act;
      var done;
      done, act := b.Iterate();
      OneJob(b.Fixed(), was, act, b.oracle);
      LongerRun(b.Fixed(), b.oracle, trace, act);
      trace := trace + [b.Now()];
      if done.Some? {
        b.LogFine();
        if done.value == Exhausted {
          ExhaustedMeans(b.Fixed(), was, act);
        }
        return done.value, trace;
      }
      n := n + 1;
    }
  }

  // ----- a capped batch stops by itself -----

  /** The legal paths of at most `n` moves. */
  function LegalPaths(g: Rules, start: Position, n: nat): set<Path>
  {
    if n == 0 then {[]}
    else
      LegalPaths(g, start, n - 1)
      + set q, m | q in LegalPaths(g, start, n - 1) && m in g.legal(Replay(g, start, q)) :: q + [m]
  }

  lemma {:induction false} ListedMore(g: Rules, start: Position, q: Path, m: Move, n: nat)
    requires n > 0 && q in LegalPaths(g, start, n - 1)
    ensures q in LegalPaths(g, start, n)
    ensures m in g.legal(Replay(g, start, q)) ==> q + [m] in LegalPaths(g, start, n)
  {
  }

  lemma {:induction false} PathListed(g: Rules, start: Position, p: Path, n: nat)
    requires PathLegal(g, start, p) && |p| <= n
    ensures p in LegalPaths(g, start, n)
    decreases n
  {
    hide LegalPaths, Replay;
    if n == 0 {
      EmptyListed(g, start);
    } else if |p| < n {
      PathListed(g, start, p, n - 1);
      ListedMore(g, start, p, 0, n);
    } else {
      var q, m := p[..n - 1], p[n - 1];
      forall k | 0 <= k < |q|
        ensures q[k] in g.legal(Replay(g, start, q[..k]))
      {
        assert q[..k] == p[..k] && q[k] == p[k];
      }
      PathListed(g, start, q, n - 1);
      assert m in g.legal(Replay(g, start, q));
      ListedMore(g, start, q, m, n);
      assert q + [m] == p;
    }
  }

  lemma {:induction false} EmptyListed(g: Rules, start: Position)
    ensures [] in LegalPaths(g, start, 0)
  {
  }

  /** Each move uses up rank. */
  lemma {:induction false} PathShort(g: Rules, start: Position, rank: Position -> nat, p: Path, n: nat)
    requires g.Ranked(rank) && n <= |p| && PathLegal(g, start, p)
    ensures rank(Replay(g, start, p[..n])) + n <= rank(start)
  {
    if n > 0 {
      PathShort(g, start, rank, p, n - 1);
      assert p[..n][..n - 1] == p[..n - 1] && p[..n][n - 1] == p[n - 1];
      RankDown(g, rank, Replay(g, start, p[..n - 1]), p[n - 1]);
    }
  }

  /** The keys of the session's world, relative to its scope. */
  ghost function World(g: Rules, start: Position, rank: Position -> nat, scope: Path): set<Path>
  {
    Relative(scope, LegalPaths(g, start, rank(start)))
  }

  lemma {:induction false} InWorld(g: Rules, start: Position, rank: Position -> nat, scope: Path, key: Path)
    requires g.Ranked(rank) && PathLegal(g, start, key) && InScope(scope, key)
    ensures RelOf(scope, key) in World(g, start, rank, scope)
  {
    PathShort(g, start, rank, key, |key|);
    PathListed(g, start, key, rank(start));
    RelativeIs(scope, LegalPaths(g, start, rank(start)));
  }

  ghost predicate Free(r: JobRecord) { r.end.Censored? && r.evals == 0 }

  /** A node that is no candidate, a child or the scope root, is censored for nothing. */
  ghost predicate FreeAgain(u: Setup, s: State, a: Act, oracle: (nat, Path) -> JobRecord)
  {
    a.Search? && InScope(u.scope, a.key) && RelOf(u.scope, a.key) !in s.order && Free(oracle(s.summary.jobs, a.key))
  }

  function Budgeted(cap: nat, evals: nat): nat { if evals < cap then cap - evals else 0 }

  lemma {:induction false} Shrinks(world: set<Path>, a: set<Path>, rel: Path)
    requires rel in world && rel !in a
    ensures |world - (a + {rel})| < |world - a|
  {
    assert world - (a + {rel}) == (world - a) - {rel};
  }

  lemma {:induction false} Loses(order: set<Path>, rel: Path)
    requires rel in order
    ensures |order - {rel}| < |order|
  {
  }

  /** Evals left, nodes not yet resolved, candidates: each iteration lowers this, lexicographically. */
  ghost predicate Lower(a: (nat, nat, nat), b: (nat, nat, nat))
  {
    a.0 < b.0 || (a.0 == b.0 && (a.1 < b.1 || (a.1 == b.1 && a.2 < b.2)))
  }

  ghost function Measure(s: State, cap: nat, world: set<Path>): (nat, nat, nat)
  {
    (Budgeted(cap, s.summary.evals), |world - Resolved(s)|, |s.order|)
  }

  /** A proof resolves its node for good and only removes candidates. */
  lemma {:induction false} ProofResolves(u: Setup, s: State, key: Path, rec: JobRecord)
    requires InScope(u.scope, key) && !rec.end.Censored?
    ensures Resolved(Book(u, s, key, rec)) == Resolved(s) + {RelOf(u.scope, key)}
    ensures Book(u, s, key, rec).summary.evals == s.summary.evals + rec.evals
  {
  }

  lemma {:induction false} CensorCosts(u: Setup, s: State, key: Path, rec: JobRecord)
    requires InScope(u.scope, key) && rec.end.Censored?
    ensures Book(u, s, key, rec).summary.evals == s.summary.evals + rec.evals
  {
    hide UnderClosed, Bumped;
  }

  /** A candidate that is retired is one. */
  lemma {:induction false} RetiredOne(u: Setup, s: State, a: Act)
    requires Chooses(u, s, a) && a.Retire?
    ensures a.rel in s.order
  {
    hide LeastUnhandled, AllHandled, RootDone;
    var rel :| IsFirst(s.order, rel) && ChoosesAt(u, s, rel, a);
  }

  lemma {:induction false} FreeRetires(u: Setup, s: State, key: Path, rec: JobRecord)
    requires InScope(u.scope, key) && Free(rec)
    ensures var t, rel := Book(u, s, key, rec), RelOf(u.scope, key);
            t.order == s.order - {rel} && Resolved(t) == Resolved(s) && t.summary.evals == s.summary.evals
  {
    hide UnderClosed, Bumped;
  }

  /** An iteration that goes on lowers the measure, unless it is a free censor of a node that is no
      candidate; that one leaves the measure as it is. */
  lemma {:induction false} EffectLower(u: Setup, s: State, a: Act, oracle: (nat, Path) -> JobRecord,
          rank: Position -> nat, cap: nat)
    requires Chooses(u, s, a) && StopOf(u, a).None? && u.g.Ranked(rank) && s.summary.evals < cap
    requires a.Search? ==> InScope(u.scope, a.key) && RelOf(u.scope, a.key) !in Resolved(s)
    ensures var world := World(u.g, u.start, rank, u.scope);
            var now, was := Measure(Effect(u, s, a, oracle), cap, world), Measure(s, cap, world);
            (Lower(now, was) <==> !FreeAgain(u, s, a, oracle)) && (FreeAgain(u, s, a, oracle) ==> now == was)
  {
    hide World, Chooses, Book, PathLegal, Resolved;
    var world := World(u.g, u.start, rank, u.scope);
    if a.Retire? {
      RetiredOne(u, s, a);
      Loses(s.order, a.rel);
      RetireKeeps(s, a.rel);
    } else {
      SearchLower(u, s, a.key, oracle(s.summary.jobs, a.key), rank, cap);
    }
  }

  lemma {:induction false} SearchLower(u: Setup, s: State, key: Path, rec: JobRecord, rank: Position -> nat, cap: nat)
    requires PathLegal(u.g, u.start, key) && InScope(u.scope, key) && RelOf(u.scope, key) !in Resolved(s)
    requires u.g.Ranked(rank) && s.summary.evals < cap
    ensures var world, rel := World(u.g, u.start, rank, u.scope), RelOf(u.scope, key);
            var now, was := Measure(Book(u, s, key, rec), cap, world), Measure(s, cap, world);
            if Free(rec) && rel !in s.order then now == was else Lower(now, was)
  {
    hide World, Book, PathLegal, Resolved;
    var world, rel := World(u.g, u.start, rank, u.scope), RelOf(u.scope, key);
    if Free(rec) {
      FreeRetires(u, s, key, rec);
      if rel in s.order {
        Loses(s.order, rel);
      } else {
        assert s.order - {rel} == s.order;
      }
    } else if rec.end.Censored? {
      CensorCosts(u, s, key, rec);
    } else {
      ProofResolves(u, s, key, rec);
      InWorld(u.g, u.start, rank, u.scope, key);
      Shrinks(world, Resolved(s), rel);
    }
  }

  lemma {:induction false} RetireKeeps(s: State, rel: Path)
    ensures Resolved(Retired(s, rel)) == Resolved(s)
  {
  }

  /** A visited node is not resolved yet. */
  lemma {:induction false} NotResolved(u: Setup, s: State, v: Visited)
    requires VisitFine(v) && v.known == Known(u, s)
    ensures v.rel !in Resolved(s)
  {
    assert v.rel[..|v.rel|] == v.rel;
  }
}
