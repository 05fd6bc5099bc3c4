/** An orphan is revisited: a session that answers by a fixed script searches its or-closed parent. */
module FrontierOrphan {
  import opened Game
  import opened Paths
  import opened Frontier
  import opened FrontierBatch
  import opened FrontierRun
  import opened FrontierState
  import opened FrontierRevisit

  /** The orphan is lost; what is above it is censored, for free in the first `n` jobs; all else is drawn. */
  ghost function Script(u: Setup, c: Path, n: nat): (nat, Path) -> JobRecord
  {
    (j, key) =>
      if key == u.scope + c then JobRecord(Decisive(Loss), 0)
      else if key <= u.scope + c then JobRecord(Censored, if j < n then 0 else u.base)
      else JobRecord(ProvenDraw, 0)
  }

  lemma {:induction false} PrefixKey(scope: Path, a: Path, b: Path)
    ensures scope + a <= scope + b <==> a <= b
    ensures scope + a == scope + b <==> a == b
  {
    ScopeRound(scope, [], a);
    ScopeRound(scope, [], b);
    if scope + a <= scope + b {
      assert (scope + b)[|scope|..][..|a|] == (scope + a)[|scope|..];
    }
  }

  /** What the script answers at a node of the scope. */
  lemma {:induction false} ScriptSays(u: Setup, c: Path, n: nat, j: nat, x: Path)
    requires x != c
    ensures Script(u, c, n)(j, u.scope + x) ==
            if x <= c then JobRecord(Censored, if j < n then 0 else u.base) else JobRecord(ProvenDraw, 0)
  {
    PrefixKey(u.scope, x, c);
  }

  /** Coherent, marks in step with draws, and every candidate replays. */
  ghost predicate Sound(u: Setup, s: State)
  {
    && Coherent(u, s) && (forall k: Path :: u.scope + k in s.marks ==> k in s.drawn)
    && forall k :: k in s.order ==> PathLegal(u.g, u.start, u.scope + k)
  }

  /** The orphan is still a candidate, and nothing is or-closed. */
  ghost predicate Waiting(u: Setup, s: State, c: Path)
  {
    && Sound(u, s) && Orphan(u, s, c) && s.orDyn == {} && Up(c) !in s.complete && [] !in s.complete
  }

  // ----- what the three answers do -----

  ghost predicate Freed(u: Setup, s: State, t: State, rel: Path)
  {
    && t == s.(order := s.order - {rel}, entries := Bumped(s.entries, u.scope + rel, 0), complete := s.complete + {rel},
               completes := t.completes, summary := t.summary)
  }

  ghost predicate Paid(u: Setup, s: State, t: State, rel: Path)
  {
    t == s.(order := s.order + {rel}, entries := Bumped(s.entries, u.scope + rel, u.base), summary := t.summary)
  }

  ghost predicate DrawnAway(u: Setup, s: State, t: State, rel: Path)
  {
    t == s.(order := Swept(s.order, rel), drawn := s.drawn + {rel}, marks := s.marks + {u.scope + rel},
            summary := t.summary)
  }

  lemma {:induction false} Answers(u: Setup, s: State, rel: Path, rec: JobRecord)
    ensures var key, t := u.scope + rel, Book(u, s, u.scope + rel, rec);
            && (rec == JobRecord(Censored, 0) ==> Freed(u, s, t, rel))
            && (rec == JobRecord(Censored, u.base) && u.base > 0 && !UnderClosed(rel, ClosedIn(u, s)) ==>
                 Paid(u, s, t, rel))
            && (rec == JobRecord(ProvenDraw, 0) ==> DrawnAway(u, s, t, rel))
            && t.summary.jobs == s.summary.jobs + 1
  {
    ScopeRound(u.scope, [], rel);
    hide UnderClosed, Swept, Bumped;
  }

  // ----- until the orphan is first -----

  lemma {:induction false} DrawSound(u: Setup, s: State, t: State, x: Path)
    requires Sound(u, s) && DrawnAway(u, s, t, x) && Coherent(u, t)
    ensures Sound(u, t)
  {
    hide Coherent, PathLegal;
    forall k: Path | u.scope + k in t.marks
      ensures k in t.drawn
    {
      ScopeRound(u.scope, [], k);
      ScopeRound(u.scope, [], x);
    }
  }

  lemma {:induction false} WaitDraw(u: Setup, s: State, t: State, c: Path, x: Path)
    requires Waiting(u, s, c) && DrawnAway(u, s, t, x) && !(x <= c) && Coherent(u, t)
    ensures Waiting(u, t, c)
  {
    DrawSound(u, s, t, x);
    hide Sound;
  }

  lemma {:induction false} WaitFree(u: Setup, s: State, t: State, c: Path, rel: Path)
    requires
      && Waiting(u, s, c) && Freed(u, s, t, rel) && Coherent(u, t) && rel in s.order && rel != c && u.base <= U64_MAX
    ensures Waiting(u, t, c)
  {
    assert u.scope + rel in s.entries && u.scope + [] == u.scope && c[..|c|] == c;
    assert rel != Up(c) && rel != [];
    assert !Worked(u, s, c[..|c|]);
    assert Sound(u, t) by {
      hide Orphan;
    }
    BumpGrows(s.entries, u.scope + rel, 0, u.base);
    BumpedHas(s.entries, u.scope + rel, 0);
    hide Sound, Bumped, WorkOf, Coherent;
    forall i | 0 <= i <= |c|
      ensures !Worked(u, t, c[..i])
    {
      assert !Worked(u, s, c[..i]);
      if u.scope + c[..i] == u.scope + rel {
        ScopeRound(u.scope, [], rel);
        ScopeRound(u.scope, [], c[..i]);
      }
    }
  }

  lemma {:induction false} WaitRetire(u: Setup, s: State, c: Path, rel: Path)
    requires Waiting(u, s, c) && Worked(u, s, rel)
    ensures Waiting(u, Retired(s, rel), c)
  {
    var t := Retired(s, rel);
    assert c[..|c|] == c && c[..0] == [];
    assert !Worked(u, s, c[..|c|]) && !Worked(u, s, c[..|c| - 1]) && !Worked(u, s, c[..0]);
    assert Sound(u, t) by {
      assert ClosedIn(u, t) == ClosedIn(u, s);
      hide UnderClosed, PathLegal;
    }
    hide Sound;
  }

  /** Fewer nodes without a value, or as many and fewer candidates. */
  ghost predicate Nearer(world: set<Path>, t: State, s: State)
  {
    |world - Resolved(t)| < |world - Resolved(s)| || (Resolved(t) == Resolved(s) && |t.order| < |s.order|)
  }

  lemma {:induction false} DrawNearer(u: Setup, s: State, t: State, rank: Position -> nat, x: Path)
    requires u.g.Ranked(rank) && Coherent(u, s) && Visitable(u, s, u.scope + x) && PathLegal(u.g, u.start, u.scope + x)
    requires DrawnAway(u, s, t, x)
    ensures Nearer(World(u.g, u.start, rank, u.scope), t, s)
  {
    ScopeRound(u.scope, [], x);
    NotKnown(u, s, x);
    InWorld(u.g, u.start, rank, u.scope, u.scope + x);
    assert Resolved(t) == Resolved(s) + {x};
    hide World;
    Shrinks(World(u.g, u.start, rank, u.scope), Resolved(s), x);
  }

  lemma {:induction false} FreeNearer(u: Setup, s: State, t: State, rank: Position -> nat, x: Path)
    requires Freed(u, s, t, x) && x in s.order
    ensures Nearer(World(u.g, u.start, rank, u.scope), t, s)
  {
    hide World;
    Loses(s.order, x);
  }

  lemma {:induction false} ChildLegal(g: Rules, start: Position, key: Path, m: Move)
    requires PathLegal(g, start, key) && m in g.legal(Replay(g, start, key))
    ensures PathLegal(g, start, key + [m])
  {
    hide Replay;
    var longer := key + [m];
    forall k | 0 <= k < |longer|
      ensures longer[k] in g.legal(Replay(g, start, longer[..k]))
    {
      assert longer[..k] == key[..k];
    }
  }

  lemma {:induction false} PrefixLegal(u: Setup, c: Path, n: nat)
    requires PathLegal(u.g, u.start, u.scope + c) && n <= |c|
    ensures PathLegal(u.g, u.start, u.scope + c[..n])
  {
    var key, short := u.scope + c, u.scope + c[..n];
    hide Replay;
    forall k | 0 <= k < |short|
      ensures short[k] in u.g.legal(Replay(u.g, u.start, short[..k]))
    {
      assert short[..k] == key[..k] && short[k] == key[k];
    }
  }

  /** A search at `rel`, as the effect of an iteration. */
  lemma {:induction false} SearchEffect(u: Setup, s: State, rel: Path, oracle: (nat, Path) -> JobRecord)
    requires PathLegal(u.g, u.start, u.scope + rel)
    ensures Effect(u, s, Search(u.scope + rel), oracle) ==
              Book(u, s, u.scope + rel, oracle(s.summary.jobs, u.scope + rel))
  {
    hide Book, PathLegal;
  }

  lemma {:induction false} WaitSearch(u: Setup, s: State, c: Path, x: Path, n: nat, rank: Position -> nat)
    requires Grounded(u) && Waiting(u, s, c) && u.base <= U64_MAX && u.g.Ranked(rank) && s.summary.jobs < n && x != c
    requires PathLegal(u.g, u.start, u.scope + x) && Visitable(u, s, u.scope + x) && (x <= c ==> x in s.order)
    ensures var t := Effect(u, s, Search(u.scope + x), Script(u, c, n));
            Waiting(u, t, c) && Nearer(World(u.g, u.start, rank, u.scope), t, s) && t.summary.jobs == s.summary.jobs + 1
  {
    var rec := if x <= c then JobRecord(Censored, 0) else JobRecord(ProvenDraw, 0);
    ScriptSays(u, c, n, s.summary.jobs, x);
    assert Coherent(u, s);
    hide Effect, Book, Coherent, World, Waiting, PathLegal, Grounded, Visitable, Censor, UnderClosed, Script, Nearer;
    SearchEffect(u, s, x, Script(u, c, n));
    ScopeRound(u.scope, [], x);
    BookCoherent(u, s, u.scope + x, rec);
    Answers(u, s, x, rec);
    var t := Book(u, s, u.scope + x, rec);
    if x <= c {
      WaitFree(u, s, t, c, x);
      FreeNearer(u, s, t, rank, x);
    } else {
      WaitDraw(u, s, t, c, x);
      DrawNearer(u, s, t, rank, x);
    }
  }

  /** The node an iteration works on, and the node `x` it searches, if it does. */
  ghost predicate Picks(u: Setup, s: State, a: Act, rel: Path, x: Path)
  {
    && IsFirst(s.order, rel)
    && (a.Retire? ==> a.rel == rel && Worked(u, s, rel) && AllHandled(u, s, u.scope + rel))
    && (a.Search? ==> a.key == u.scope + x && Visitable(u, s, a.key) && PathLegal(u.g, u.start, a.key))
    && (a.Search? ==> if x == rel then !Worked(u, s, rel)
                      else x != [] && rel == Up(x) && Worked(u, s, rel) && !Handled(u, s, u.scope + x))
    && !a.Done? && !a.Unplayable?
  }

  lemma {:induction false} Picked(u: Setup, s: State, a: Act) returns (rel: Path, x: Path)
    requires Grounded(u) && Sound(u, s) && s.order != {} && Chooses(u, s, a)
    ensures Picks(u, s, a, rel, x)
  {
    if a.Search? {
      SearchVisitable(u, s, a);
    }
    rel := ChoiceCases(u, s, a);
    FirstSound(u, s, rel);
    hide Sound, Chooses, Grounded, PathLegal, Visitable, RootDone, IsFirst;
    x := PickedAt(u, s, a, rel);
  }

  lemma {:induction false} FirstSound(u: Setup, s: State, rel: Path)
    requires Sound(u, s) && IsFirst(s.order, rel)
    ensures PathLegal(u.g, u.start, u.scope + rel)
  {
  }

  lemma {:induction false} PickedAt(u: Setup, s: State, a: Act, rel: Path) returns (x: Path)
    requires IsFirst(s.order, rel) && ChoosesAt(u, s, rel, a) && PathLegal(u.g, u.start, u.scope + rel)
    requires a.Search? ==> Visitable(u, s, a.key)
    ensures Picks(u, s, a, rel, x)
  {
    hide PathLegal, Visitable, AllHandled, Handled, WorkOf, IsFirst, Replay;
    x := rel;
    if a.Search? && Worked(u, s, rel) {
      var m :| LeastUnhandled(u, s, u.scope + rel, m) && a == Search(u.scope + rel + [m]);
      x := rel + [m];
      assert u.scope + rel + [m] == u.scope + x && Up(x) == rel;
      ChildLegal(u.g, u.start, u.scope + rel, m);
    }
  }

  lemma {:induction false} WaitStep(u: Setup, s: State, c: Path, a: Act, n: nat, rank: Position -> nat)
    requires Grounded(u) && Waiting(u, s, c) && Chooses(u, s, a) && !IsFirst(s.order, c)
    requires u.base <= U64_MAX && u.g.Ranked(rank) && s.summary.jobs < n
    ensures var t := Effect(u, s, a, Script(u, c, n));
            Waiting(u, t, c) && Nearer(World(u.g, u.start, rank, u.scope), t, s)
            && t.summary.jobs == s.summary.jobs + if a.Search? then 1 else 0
  {
    assert c in s.order && Sound(u, s) && Orphan(u, s, c);
    hide Waiting, Chooses, Grounded, Effect, Script, Nearer, Sound, IsFirst, Orphan, PathLegal, Visitable, AllHandled,
      Handled;
    var rel, x := Picked(u, s, a);
    NotWorkedPrefix(u, s, c, rel);
    NotBeyond(s.order, c, rel);
    if a.Search? {
      assert a == Search(u.scope + x);
      hide Worked;
      WaitSearch(u, s, c, x, n, rank);
    } else {
      assert a == Retire(rel);
      WaitRetire(u, s, c, rel);
      RetireNearer(u, s, a, rank, Script(u, c, n));
    }
  }

  /** The first candidate is not below `c`. */
  lemma {:induction false} NotBeyond(order: set<Path>, c: Path, rel: Path)
    requires IsFirst(order, rel) && c in order && !IsFirst(order, c)
    ensures rel in order && rel != c && !(c <= rel)
  {
  }

  lemma {:induction false} NotWorkedPrefix(u: Setup, s: State, c: Path, rel: Path)
    requires Orphan(u, s, c)
    ensures Worked(u, s, rel) ==> !(rel <= c)
  {
    if rel <= c {
      assert rel == c[..|rel|];
    }
  }

  lemma {:induction false} RetireNearer(u: Setup, s: State, a: Act, rank: Position -> nat,
          oracle: (nat, Path) -> JobRecord)
    requires a.Retire? && a.rel in s.order
    ensures var t := Effect(u, s, a, oracle);
            t == Retired(s, a.rel) && Nearer(World(u.g, u.start, rank, u.scope), t, s) && t.summary == s.summary
  {
    hide World;
    Loses(s.order, a.rel);
    RetireKeeps(s, a.rel);
  }

  /** The orphan comes first at some point; until then what is above it is searched for nothing. */
  lemma {:induction false} UntilFirst(u: Setup, s: State, c: Path, rank: Position -> nat)
    returns (n: nat, trace: seq<State>)
    requires Grounded(u) && Waiting(u, s, c) && u.base <= U64_MAX && u.g.Ranked(rank)
    ensures IsRun(u, Script(u, c, n), trace) && trace[0] == s
    ensures var t := trace[|trace| - 1];
            Waiting(u, t, c) && IsFirst(t.order, c) && t.summary.jobs == n >= s.summary.jobs
    decreases |World(u.g, u.start, rank, u.scope) - Resolved(s)|, |s.order|
  {
    hide Grounded, Chooses, Waiting, Effect, Script, World, Resolved, IsFirst, StepAt;
    if IsFirst(s.order, c) {
      n, trace := s.summary.jobs, [s];
      OneState(u, Script(u, c, n), s);
    } else {
      var a := ChoiceExists(u, s);
      var k := s.summary.jobs + 1;
      WaitStep(u, s, c, a, k, rank);
      var t := Effect(u, s, a, Script(u, c, k));
      var rest;
      n, rest := UntilFirst(u, t, c, rank);
      SameStep(u, s, a, c, n);
      StepThenRun(u, Script(u, c, n), s, a, rest);
      trace := [s] + rest;
    }
  }

  /** Before job `n` the script does not depend on `n`. */
  lemma {:induction false} SameStep(u: Setup, s: State, a: Act, c: Path, n: nat)
    requires a.Search? ==> s.summary.jobs < n
    ensures Effect(u, s, a, Script(u, c, s.summary.jobs + 1)) == Effect(u, s, a, Script(u, c, n))
  {
    hide Book, PathLegal, Retired;
  }

  // ----- the orphan closes its parent -----

  /** The parent is or-closed, has no record, and the records on its line are exactly the first `d + 1`
      nodes, of which the last is a candidate. */
  ghost predicate Coming(u: Setup, s: State, c: Path, d: int)
    requires c != []
  {
    && Sound(u, s) && |c| >= 2 && -1 <= d < |c| - 1 && Up(c) in s.orDyn
    && c in s.decided && c !in s.order
    && !UnderClosed(Up(Up(c)), ClosedIn(u, s)) && Up(c) !in s.drawn && Up(c) !in s.decided
    && u.scope + Up(c) !in s.entries && u.scope + c[..1] !in u.rows && u.base > 0
    && (forall i :: 0 <= i <= d ==> Worked(u, s, c[..i]))
    && (forall i :: d < i < |c| - 1 ==> !Worked(u, s, c[..i]) && c[..i] !in s.order)
    && (if d < 0 then [] !in s.complete else c[..d] in s.order)
  }

  lemma {:induction false} OrphanLost(u: Setup, s: State, c: Path, n: nat) returns (a: Act)
    requires Grounded(u) && Waiting(u, s, c) && IsFirst(s.order, c)
    ensures Chooses(u, s, a) && Coming(u, Effect(u, s, a, Script(u, c, n)), c, -1)
    ensures Effect(u, s, a, Script(u, c, n)).summary.jobs == s.summary.jobs + 1
  {
    a := Search(u.scope + c);
    var rec := JobRecord(Decisive(Loss), 0);
    OrphanChosen(u, s, c);
    WaitingParts(u, s, c);
    LossBooked(u, s, c);
    assert Script(u, c, n)(s.summary.jobs, u.scope + c) == rec;
    hide PathLegal, Grounded, Effect, Book, Chooses, UnderClosed, Coherent, Waiting, Script;
    SearchEffect(u, s, c, Script(u, c, n));
    ScopeRound(u.scope, [], c);
    BookCoherent(u, s, u.scope + c, rec);
    LostComing(u, s, Book(u, s, u.scope + c, rec), c);
  }

  lemma {:induction false} OrphanChosen(u: Setup, s: State, c: Path)
    requires Orphan(u, s, c) && IsFirst(s.order, c)
    ensures Chooses(u, s, Search(u.scope + c))
  {
    assert c[..|c|] == c && !Worked(u, s, c[..|c|]);
    hide RootDone, AllHandled, LeastUnhandled, PathLegal;
    assert ChoosesAt(u, s, c, Search(u.scope + c));
  }

  lemma {:induction false} WaitingParts(u: Setup, s: State, c: Path)
    requires Waiting(u, s, c)
    ensures c != [] && PathLegal(u.g, u.start, u.scope + c) && Coherent(u, s)
    ensures |u.scope + c| % 2 == 1 && Up(c) !in s.complete
  {
  }

  ghost predicate LostAt(u: Setup, s: State, t: State, c: Path)
    requires c != []
  {
    t == s.(order := Swept(Swept(s.order, c), Up(c)), shards := s.shards + {u.scope + c}, decided := s.decided + {c},
            orDyn := s.orDyn + {Up(c)}, complete := s.complete + {Up(c)}, summary := t.summary)
  }

  lemma {:induction false} LossBooked(u: Setup, s: State, c: Path)
    requires c != [] && |u.scope + c| % 2 == 1 && Up(c) !in s.complete
    ensures var t := Book(u, s, u.scope + c, JobRecord(Decisive(Loss), 0));
            LostAt(u, s, t, c) && t.summary.jobs == s.summary.jobs + 1
  {
    var key := u.scope + c;
    ScopeRound(u.scope, [], c);
    assert key[..|key| - 1] == u.scope + Up(c);
    ScopeRound(u.scope, [], Up(c));
    hide Swept;
  }

  lemma {:induction false} LostComing(u: Setup, s: State, t: State, c: Path)
    requires Waiting(u, s, c) && IsFirst(s.order, c) && LostAt(u, s, t, c) && Coherent(u, t)
    ensures Coming(u, t, c, -1)
  {
    SameWork(u, s, t);
    LostClear(u, s, t, c);
    LostSound(u, s, t, c);
    NoneAbove(u, s, c);
    LineIdle(u, s, c);
    hide Sound, Coherent, UnderClosed, Worked, Swept, ClosedIn, Orphan;
  }

  /** No node from the scope root to the orphan has work. */
  lemma {:induction false} LineIdle(u: Setup, s: State, c: Path)
    requires Orphan(u, s, c)
    ensures |c| >= 2 && u.base > 0 && forall i :: 0 <= i < |c| ==> !Worked(u, s, c[..i])
    ensures u.scope + Up(c) !in s.entries && u.scope + c[..1] !in u.rows
  {
    assert !Worked(u, s, c[..0]);
  }

  /** The closed parent covers nothing above it. */
  lemma {:induction false} LostClear(u: Setup, s: State, t: State, c: Path)
    requires Waiting(u, s, c) && LostAt(u, s, t, c)
    ensures !UnderClosed(Up(Up(c)), ClosedIn(u, t)) && Up(c) !in t.drawn && Up(c) !in t.decided
  {
    var q := Up(c);
    hide PathLegal, Worked;
    Uncovered(u, s, c);
    UnderLonger(c, |c| - 2, ClosedIn(u, s));
    assert Up(q) == c[..|c| - 2];
    NotItself(q, ClosedIn(u, s));
    assert ClosedIn(u, t) == ClosedIn(u, s) + {q, c};
    ShortClear(Up(q), ClosedIn(u, s), q, c);
  }

  lemma {:induction false} SameWork(u: Setup, s: State, t: State)
    requires s.entries == t.entries
    ensures forall k: Path :: Worked(u, t, k) == Worked(u, s, k)
  {
  }

  lemma {:induction false} LostSound(u: Setup, s: State, t: State, c: Path)
    requires c != [] && Sound(u, s) && LostAt(u, s, t, c) && Coherent(u, t)
    ensures Sound(u, t) && c !in t.order && forall k :: k in t.order ==> k in s.order
  {
    hide PathLegal, Coherent;
  }

  lemma {:induction false} ShortClear(key: Path, closed: set<Path>, a: Path, b: Path)
    requires !UnderClosed(key, closed) && |key| < |a| && |key| < |b|
    ensures !UnderClosed(key, closed + {a, b})
  {
  }

  // ----- the expansion comes down to the closed parent -----

  lemma {:induction false} ComingDraw(u: Setup, s: State, t: State, c: Path, d: int, x: Path)
    requires c != [] && Coming(u, s, c, d) && DrawnAway(u, s, t, x) && !(x <= c) && Coherent(u, t)
    ensures Coming(u, t, c, d)
  {
    var q := Up(c);
    DrawSound(u, s, t, x);
    assert ClosedIn(u, t) == ClosedIn(u, s) + {x};
    UnderMore(Up(q), ClosedIn(u, s), {x});
    UnderOne(Up(q), x);
    assert Up(q) <= c && q <= c;
    hide Sound, UnderClosed, Coherent, ClosedIn;
  }

  lemma {:induction false} ComingRetire(u: Setup, s: State, c: Path, d: int, rel: Path)
    requires c != [] && Coming(u, s, c, d) && rel in s.order && (d >= 0 ==> rel != c[..d])
    ensures Coming(u, Retired(s, rel), c, d)
  {
    var t := Retired(s, rel);
    assert ClosedIn(u, t) == ClosedIn(u, s);
    assert Sound(u, t) by {
      hide UnderClosed, PathLegal;
    }
    hide Sound, UnderClosed, ClosedIn;
    assert d < 0 ==> c[..0] !in s.order;
  }

  lemma {:induction false} PaidWorked(u: Setup, s: State, t: State, rel: Path)
    requires Paid(u, s, t, rel) && u.base <= U64_MAX
    ensures Worked(u, t, rel) && forall k: Path :: k != rel ==> Worked(u, t, k) == Worked(u, s, k)
    ensures t.entries.Keys == s.entries.Keys + {u.scope + rel}
  {
    BumpedHas(s.entries, u.scope + rel, u.base);
    forall k: Path | k != rel
      ensures Worked(u, t, k) == Worked(u, s, k)
    {
      PrefixKey(u.scope, k, rel);
    }
  }

  lemma {:induction false} ComingPaid(u: Setup, s: State, t: State, c: Path, d: int)
    requires c != [] && Coming(u, s, c, d) && d + 1 < |c| - 1 && Paid(u, s, t, c[..d + 1]) && Coherent(u, t)
    requires u.base <= U64_MAX && PathLegal(u.g, u.start, u.scope + c)
    ensures Coming(u, t, c, d + 1)
  {
    var x := c[..d + 1];
    PaidWorked(u, s, t, x);
    PrefixLegal(u, c, d + 1);
    PrefixKey(u.scope, x, Up(c));
    assert ClosedIn(u, t) == ClosedIn(u, s);
    PaidSound(u, s, t, x);
    LineOnce(c, d + 1);
    hide Sound, UnderClosed, ClosedIn, Worked, Coherent, PathLegal, Bumped;
    assert forall i :: 0 <= i < |c| && i != d + 1 ==> Worked(u, t, c[..i]) == Worked(u, s, c[..i]);
  }

  lemma {:induction false} LineOnce(c: Path, n: nat)
    requires n <= |c|
    ensures forall i :: 0 <= i <= |c| && i != n ==> c[..i] != c[..n]
  {
  }

  lemma {:induction false} PaidSound(u: Setup, s: State, t: State, x: Path)
    requires Sound(u, s) && Paid(u, s, t, x) && Coherent(u, t) && PathLegal(u.g, u.start, u.scope + x)
    ensures Sound(u, t)
  {
    hide Coherent, PathLegal, Bumped;
  }

  /** The rows are closed upwards. */
  lemma {:induction false} NotInRows(u: Setup, c: Path, i: nat)
    requires Grounded(u) && 1 <= i <= |c| && u.scope + c[..1] !in u.rows
    ensures u.scope + c[..i] !in u.rows
  {
    if i > 1 {
      NotInRows(u, c, i - 1);
      var k := u.scope + c[..i];
      assert k[..|k| - 1] == u.scope + c[..i - 1];
    }
  }

  /** The next node on the line is not handled. */
  lemma {:induction false} NextOpen(u: Setup, s: State, c: Path, d: int)
    requires Grounded(u) && c != [] && Coming(u, s, c, d) && 0 <= d
    ensures !Handled(u, s, u.scope + c[..d + 1])
  {
    var x := c[..d + 1];
    NotInRows(u, c, d + 1);
    ScopeRound(u.scope, [], x);
    NotCovered(u, s, c, d + 1);
    hide UnderClosed, Grounded, PathLegal;
    if d + 1 < |c| - 1 {
      assert !Worked(u, s, c[..d + 1]);
    }
  }

  /** No node on the line above `c` is drawn, proven, or decided. */
  lemma {:induction false} NotCovered(u: Setup, s: State, c: Path, i: nat)
    requires Grounded(u) && c != [] && i < |c| && |c| >= 2
    requires
      && !UnderClosed(Up(Up(c)), ClosedIn(u, s)) && Up(c) !in s.drawn && Up(c) !in s.decided
      && u.scope + c[..1] !in u.rows
    ensures c[..i] !in s.drawn && c[..i] !in s.decided && c[..i] !in u.proven
  {
    RelativeIs(u.scope, ProvenKeys(u.rows));
    if i == |c| - 1 {
      NotInRows(u, c, i);
    } else {
      assert Up(Up(c))[..i] == c[..i];
      UnderLonger(Up(Up(c)), i, ClosedIn(u, s));
      NotItself(c[..i], ClosedIn(u, s));
    }
  }

  /** Nothing or-closed is a candidate, nor is what is under it. */
  lemma {:induction false} CandidateOff(u: Setup, s: State, c: Path, d: int, rel: Path)
    requires c != [] && Coming(u, s, c, d) && rel in s.order
    ensures rel != c && rel != Up(c)
  {
    hide UnderClosed, PathLegal;
    NotItself(rel, ClosedIn(u, s));
  }

  /** The first search on the line is the next node, or the closed parent. */
  lemma {:induction false} LineNext(u: Setup, s: State, c: Path, d: int, rel: Path, x: Path)
    requires c != [] && Coming(u, s, c, d) && rel in s.order && x <= c && x != Up(c)
    requires if x == rel then !Worked(u, s, rel)
             else x != [] && rel == Up(x) && !Handled(u, s, u.scope + x)
    ensures d + 1 < |c| - 1 && x == c[..d + 1]
  {
    CandidateOff(u, s, c, d, rel);
    assert x == c[..|x|] && rel == c[..|rel|];
    hide Sound, UnderClosed, ClosedIn, Worked, Handled;
    assert x != c;
    if |x| <= d {
      WorkedHandled(u, s, c[..|x|]);
    }
  }

  lemma {:induction false} StepDraw(u: Setup, s: State, c: Path, d: int, x: Path, n: nat, rank: Position -> nat)
    requires c != [] && Coming(u, s, c, d) && u.g.Ranked(rank) && !(x <= c)
    requires PathLegal(u.g, u.start, u.scope + x) && Visitable(u, s, u.scope + x)
    ensures var t := Effect(u, s, Search(u.scope + x), Script(u, c, n));
            && Coming(u, t, c, d) && Nearer(World(u.g, u.start, rank, u.scope), t, s)
            && t.summary.jobs == s.summary.jobs + 1
  {
    var rec := JobRecord(ProvenDraw, 0);
    ScriptSays(u, c, n, s.summary.jobs, x);
    assert Coherent(u, s);
    hide Effect, Book, Coherent, World, PathLegal, Visitable, Censor, UnderClosed, ClosedIn, Coming, Script;
    SearchEffect(u, s, x, Script(u, c, n));
    ScopeRound(u.scope, [], x);
    BookCoherent(u, s, u.scope + x, rec);
    Answers(u, s, x, rec);
    var t := Book(u, s, u.scope + x, rec);
    assert DrawnAway(u, s, t, x);
    ComingDraw(u, s, t, c, d, x);
    DrawNearer(u, s, t, rank, x);
  }

  lemma {:induction false} StepPaid(u: Setup, s: State, c: Path, d: int, n: nat)
    requires c != [] && Coming(u, s, c, d) && d + 1 < |c| - 1 && n <= s.summary.jobs && u.base <= U64_MAX
    requires PathLegal(u.g, u.start, u.scope + c)
    ensures var t := Effect(u, s, Search(u.scope + c[..d + 1]), Script(u, c, n));
            Coming(u, t, c, d + 1) && t.summary.jobs == s.summary.jobs + 1
  {
    var x, rec := c[..d + 1], JobRecord(Censored, u.base);
    ScriptSays(u, c, n, s.summary.jobs, x);
    PrefixLegal(u, c, d + 1);
    LineUncovered(u, s, c, d, d + 1);
    hide Effect, Book, Coherent, PathLegal, Censor, UnderClosed, ClosedIn, Coming, Script;
    SearchEffect(u, s, x, Script(u, c, n));
    ScopeRound(u.scope, [], x);
    BookCoherent(u, s, u.scope + x, rec);
    Answers(u, s, x, rec);
    ComingPaid(u, s, Book(u, s, u.scope + x, rec), c, d);
  }

  lemma {:induction false} LineUncovered(u: Setup, s: State, c: Path, d: int, i: nat)
    requires c != [] && Coming(u, s, c, d) && i < |c| - 1
    ensures !UnderClosed(c[..i], ClosedIn(u, s)) && u.base > 0 && Coherent(u, s)
  {
    hide UnderClosed, PathLegal, Coherent;
    assert Up(Up(c))[..i] == c[..i];
    UnderLonger(Up(Up(c)), i, ClosedIn(u, s));
  }

  /** With no candidate left the scope root is not done. */
  lemma {:induction false} RootOpen(u: Setup, s: State, c: Path, d: int)
    requires Grounded(u) && c != [] && Coming(u, s, c, d) && s.order == {}
    ensures d == -1 && !RootDone(u, s)
  {
    UnderLonger(Up(Up(c)), 0, ClosedIn(u, s));
    NotItself([], ClosedIn(u, s));
    RelativeIs(u.scope, ProvenKeys(u.rows));
    ScopeRound(u.scope, u.scope, []);
    hide UnderClosed, PathLegal;
  }

  lemma {:induction false} ComingStep(u: Setup, s: State, c: Path, d: int, a: Act, n: nat, rank: Position -> nat)
    returns (e: int)
    requires Grounded(u) && c != [] && Coming(u, s, c, d) && Chooses(u, s, a) && !Revisit(u, s, a)
    requires u.base <= U64_MAX && u.g.Ranked(rank) && n <= s.summary.jobs && PathLegal(u.g, u.start, u.scope + c)
    ensures var t := Effect(u, s, a, Script(u, c, n));
            Coming(u, t, c, e) && t.summary.jobs >= s.summary.jobs
            && (d < e < |c| || (d == e && Nearer(World(u.g, u.start, rank, u.scope), t, s)))
  {
    SoundHere(u, s, c, d);
    hide *;
    if s.order == {} {
      e := StepRoot(u, s, c, d, a, n);
    } else {
      var rel, x := Picked(u, s, a);
      e := StepPicked(u, s, c, d, a, rel, x, n, rank);
    }
  }

  /** The scope root is searched when nothing else is left. */
  lemma {:induction false} StepRoot(u: Setup, s: State, c: Path, d: int, a: Act, n: nat) returns (e: int)
    requires Grounded(u) && c != [] && Coming(u, s, c, d) && Chooses(u, s, a) && s.order == {}
    requires u.base <= U64_MAX && n <= s.summary.jobs && PathLegal(u.g, u.start, u.scope + c)
    ensures d < e < |c|
    ensures var t := Effect(u, s, a, Script(u, c, n)); Coming(u, t, c, e) && t.summary.jobs >= s.summary.jobs
  {
    e := 0;
    RootOpen(u, s, c, d);
    SoundHere(u, s, c, d);
    assert a == Search(u.scope) && u.scope + c[..0] == u.scope;
    hide *;
    StepPaid(u, s, c, d, n);
  }

  lemma {:induction false} SoundHere(u: Setup, s: State, c: Path, d: int)
    requires c != [] && Coming(u, s, c, d)
    ensures Sound(u, s) && |c| >= 2 && -1 <= d < |c| - 1 && Up(c) in s.orDyn
    ensures d >= 0 ==> c[..d] in s.order
  {
    hide Sound, UnderClosed;
  }

  lemma {:induction false} StepPicked(u: Setup, s: State, c: Path, d: int, a: Act, rel: Path, x: Path, n: nat,
          rank: Position -> nat) returns (e: int)
    requires Grounded(u) && c != [] && Coming(u, s, c, d) && Picks(u, s, a, rel, x) && !Revisit(u, s, a)
    requires u.base <= U64_MAX && u.g.Ranked(rank) && n <= s.summary.jobs && PathLegal(u.g, u.start, u.scope + c)
    ensures var t := Effect(u, s, a, Script(u, c, n));
            Coming(u, t, c, e) && t.summary.jobs >= s.summary.jobs
            && (d < e < |c| || (d == e && Nearer(World(u.g, u.start, rank, u.scope), t, s)))
  {
    e := d;
    hide Coming, Effect, Grounded, Script, Nearer, AllHandled, PathLegal;
    if a.Retire? {
      assert a == Retire(rel) && rel in s.order;
      RetireElse(u, s, c, d, rel);
      ComingRetire(u, s, c, d, rel);
      RetireNearer(u, s, a, rank, Script(u, c, n));
    } else if x <= c {
      e := StepLine(u, s, c, d, a, rel, x, n);
    } else {
      assert a == Search(u.scope + x);
      StepDraw(u, s, c, d, x, n, rank);
    }
  }

  /** A search on the line goes one node further. */
  lemma {:induction false} StepLine(u: Setup, s: State, c: Path, d: int, a: Act, rel: Path, x: Path, n: nat)
    returns (e: int)
    requires c != [] && Coming(u, s, c, d) && Picks(u, s, a, rel, x) && a.Search? && !Revisit(u, s, a) && x <= c
    requires u.base <= U64_MAX && n <= s.summary.jobs && PathLegal(u.g, u.start, u.scope + c)
    ensures e == d + 1 < |c|
    ensures var t := Effect(u, s, a, Script(u, c, n)); Coming(u, t, c, e) && t.summary.jobs >= s.summary.jobs
  {
    e := d + 1;
    assert a == Search(u.scope + x) && rel in s.order;
    ScopeRound(u.scope, [], x);
    SoundHere(u, s, c, d);
    hide Coming, Effect, Script, AllHandled, PathLegal, Visitable, Worked, Handled, IsFirst;
    assert x != Up(c);
    LineNext(u, s, c, d, rel, x);
    StepPaid(u, s, c, d, n);
  }

  /** The last worked node on the line has a child to visit. */
  lemma {:induction false} RetireElse(u: Setup, s: State, c: Path, d: int, rel: Path)
    requires Grounded(u) && c != [] && Coming(u, s, c, d) && AllHandled(u, s, u.scope + rel)
    requires PathLegal(u.g, u.start, u.scope + c)
    ensures d >= 0 ==> rel != c[..d]
  {
    if d >= 0 {
      NextOpen(u, s, c, d);
      hide Handled, AllHandled, PathLegal, Grounded, Replay, Coming;
      assert d < |c| - 1 by { SoundHere(u, s, c, d); }
      HandledNext(u, s, c, d);
    }
  }

  lemma {:induction false} HandledNext(u: Setup, s: State, c: Path, i: nat)
    requires PathLegal(u.g, u.start, u.scope + c) && i < |c|
    ensures AllHandled(u, s, u.scope + c[..i]) ==> Handled(u, s, u.scope + c[..i + 1])
  {
    NextLegal(u, c, i);
    hide Handled, PathLegal, Replay;
    assert c[..i + 1] == c[..i] + [c[i]];
    assert u.scope + c[..i] + [c[i]] == u.scope + c[..i + 1];
  }

  /** The session comes to search the closed parent. */
  lemma {:induction false} Arrives(u: Setup, s: State, c: Path, d: int, n: nat, rank: Position -> nat)
    returns (trace: seq<State>, last: Act)
    requires Grounded(u) && c != [] && Coming(u, s, c, d) && u.base <= U64_MAX && u.g.Ranked(rank)
    requires n <= s.summary.jobs && PathLegal(u.g, u.start, u.scope + c)
    ensures RevisitsBy(u, s, Script(u, c, n), trace, last)
    decreases |c| - d, |World(u.g, u.start, rank, u.scope) - Resolved(s)|, |s.order|
  {
    hide Grounded, Chooses, Coming, Effect, Script, World, Resolved, StepAt, PathLegal, Revisit;
    var a := ChoiceExists(u, s);
    if Revisit(u, s, a) {
      trace, last := [s], a;
      OneState(u, Script(u, c, n), s);
    } else {
      var e := ComingStep(u, s, c, d, a, n, rank);
      var t := Effect(u, s, a, Script(u, c, n));
      var rest;
      rest, last := Arrives(u, t, c, e, n, rank);
      StepThenRun(u, Script(u, c, n), s, a, rest);
      trace := [s] + rest;
    }
  }

  // ----- the exact condition -----

  lemma {:induction false} OrphanRevisit(u: Setup, s: State, c: Path, rank: Position -> nat)
    requires Grounded(u) && Waiting(u, s, c) && u.base <= U64_MAX && u.g.Ranked(rank)
    ensures Revisits(u, s)
  {
    hide Grounded, Chooses, Waiting, Coming, Effect, Script, World, PathLegal, Revisit, StepAt;
    var n, head := UntilFirst(u, s, c, rank);
    var t := head[|head| - 1];
    WaitingParts(u, t, c);
    var a := OrphanLost(u, t, c, n);
    var rest, last := Arrives(u, Effect(u, t, a, Script(u, c, n)), c, -1, n, rank);
    StepThenRun(u, Script(u, c, n), t, a, rest);
    JoinRuns(u, Script(u, c, n), head, [t] + rest);
    assert RevisitsBy(u, s, Script(u, c, n), head[..|head| - 1] + ([t] + rest), last);
  }

  lemma {:induction false} StartWaits(u: Setup, s: State, c: Path)
    requires Starts(u, s) && Orphan(u, s, c)
    requires forall k :: k in s.order ==> PathLegal(u.g, u.start, u.scope + k)
    ensures Waiting(u, s, c)
  {
    StartCoherent(u, s);
    StartMarked(u, s);
    hide UnderClosed, PathLegal, Orphan, Relative;
  }

  lemma {:induction false} StartMarked(u: Setup, s: State)
    requires Starts(u, s)
    ensures forall k: Path :: u.scope + k in s.marks ==> k in s.drawn
  {
    RelativeIs(u.scope, s.marks);
    hide Relative;
    forall k: Path | u.scope + k in s.marks
      ensures k in s.drawn
    {
      ScopeRound(u.scope, u.scope + k, k);
    }
  }

  /** Every record in scope, the scope root's apart, has a handled parent. */
  ghost predicate Rooted(u: Setup, s: State)
  {
    forall k: Path :: k != [] && u.scope + k in s.entries ==> Handled(u, s, u.scope + Up(k))
  }

  /** A session over records with handled parents searches no or-closed node. */
  lemma {:induction false} RootedNoRevisit(u: Setup, s: State)
    requires Starts(u, s) && Rooted(u, s) && u.base <= U64_MAX
    ensures !Revisits(u, s)
  {
    StartCoherent(u, s);
    StartMarked(u, s);
    forall c
      ensures !Orphan(u, s, c)
    {
      if Orphan(u, s, c) {
        RootedNoOrphan(u, s, c);
      }
    }
    NoOrphanNoRevisit(u, s);
  }

  lemma {:induction false} RootedNoOrphan(u: Setup, s: State, c: Path)
    requires Grounded(u) && Coherent(u, s) && Rooted(u, s) && c in s.order && |c| >= 2 && u.scope + Up(c) !in s.entries
    requires forall k: Path :: u.scope + k in s.marks ==> k in s.drawn
    ensures u.scope + c[..1] in u.rows
  {
    var q := Up(c);
    Uncovered(u, s, c);
    NotItself(q, ClosedIn(u, s));
    ScopeRound(u.scope, [], q);
    assert Handled(u, s, u.scope + q);
    hide UnderClosed, RowsClosed, Rooted, PathLegal;
    assert u.scope + q in u.rows;
    RowPrefix(u.rows, u.scope, q, 1);
    assert q[..1] == c[..1];
  }

  /** Over a store whose candidates replay, some session searches an or-closed node if and only if some
      candidate is an orphan. */
  lemma {:induction false} RevisitsIff(u: Setup, s: State, rank: Position -> nat)
    requires Starts(u, s) && u.base <= U64_MAX && u.g.Ranked(rank)
    requires forall k :: k in s.order ==> PathLegal(u.g, u.start, u.scope + k)
    ensures Revisits(u, s) <==> exists c :: Orphan(u, s, c)
  {
    hide PathLegal, Orphan, Revisits;
    if c :| Orphan(u, s, c) {
      StartWaits(u, s, c);
      OrphanRevisit(u, s, c, rank);
    } else {
      NoOrphanNoRevisit(u, s);
    }
  }
}
