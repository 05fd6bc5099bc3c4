/** The batch's choices are forced, and every reachable state is coherent. */
module FrontierState {
  import opened Game
  import opened Paths
  import opened PathOrder
  import opened Frontier
  import opened FrontierBatch
  import opened FrontierRun

  // ----- one choice in every state -----

  lemma {:induction false} BeforeTotal(a: Path, b: Path)
    requires a != b
    ensures Before(a, b) || Before(b, a)
  {
    if |a| == |b| {
      LexDecides(a, b, 0);
    }
  }

  lemma {:induction false} BeforeTrans(a: Path, b: Path, c: Path)
    requires Before(a, b) && Before(b, c)
    ensures Before(a, c)
  {
    if |a| == |b| == |c| {
      LexTrans(a, b, c);
    }
  }

  lemma {:induction false} FirstUnique(order: set<Path>, a: Path, b: Path)
    requires IsFirst(order, a) && IsFirst(order, b)
    ensures a == b
  {
    if a != b && |a| == |b| {
      LexAsym(a, b);
    }
  }

  lemma {:induction false} FirstExists(order: set<Path>) returns (rel: Path)
    requires order != {}
    ensures IsFirst(order, rel)
    decreases |order|
  {
    hide Before;
    var k :| k in order;
    var rest := order - {k};
    if rest == {} {
      assert order == {k};
      rel := k;
    } else {
      rel := FirstExists(rest);
      BeforeTotal(k, rel);
      if Before(k, rel) {
        forall x | x in rest && x != rel
          ensures Before(k, x)
        {
          BeforeTrans(k, rel, x);
        }
        rel := k;
      }
    }
  }

  lemma {:induction false} LeastBelow(u: Setup, s: State, key: Path, legal: seq<Move>, x: Move) returns (m: Move)
    requires x in legal && !Handled(u, s, key + [x])
    ensures m in legal && !Handled(u, s, key + [m])
    ensures forall y :: y in legal && !Handled(u, s, key + [y]) ==> m <= y
    decreases x
  {
    hide Handled;
    if y :| y in legal && !Handled(u, s, key + [y]) && y < x {
      m := LeastBelow(u, s, key, legal, y);
    } else {
      m := x;
    }
  }

  /** Some child needs a visit, hence there is a first one. */
  lemma {:induction false} LeastExists(u: Setup, s: State, key: Path) returns (m: Move)
    requires !AllHandled(u, s, key)
    ensures LeastUnhandled(u, s, key, m)
  {
    hide Handled, Replay;
    var legal := u.g.legal(Replay(u.g, u.start, key));
    var x :| x in legal && !Handled(u, s, key + [x]);
    m := LeastBelow(u, s, key, legal, x);
  }

  lemma {:induction false} ChoiceAtUnique(u: Setup, s: State, rel: Path, a: Act, b: Act)
    requires ChoosesAt(u, s, rel, a) && ChoosesAt(u, s, rel, b)
    ensures a == b
  {
    hide Handled, Replay, PathLegal, AllHandled;
    var key := u.scope + rel;
    if WorkOf(s.entries, key) >= u.base && PathLegal(u.g, u.start, key) && !AllHandled(u, s, key) {
      var m :| LeastUnhandled(u, s, key, m) && a == Search(key + [m]);
      var n :| LeastUnhandled(u, s, key, n) && b == Search(key + [n]);
    }
  }

  /** What an iteration does is forced. */
  lemma {:induction false} ChoiceUnique(u: Setup, s: State, a: Act, b: Act)
    requires Chooses(u, s, a) && Chooses(u, s, b)
    ensures a == b
  {
    hide RootDone, IsFirst, ChoosesAt;
    if s.order != {} {
      var p :| IsFirst(s.order, p) && ChoosesAt(u, s, p, a);
      var q :| IsFirst(s.order, q) && ChoosesAt(u, s, q, b);
      FirstUnique(s.order, p, q);
      ChoiceAtUnique(u, s, p, a, b);
    }
  }

  lemma {:induction false} ChoiceAtExists(u: Setup, s: State, rel: Path) returns (a: Act)
    ensures ChoosesAt(u, s, rel, a)
  {
    hide Handled, Replay, PathLegal, AllHandled, LeastUnhandled;
    var key := u.scope + rel;
    if WorkOf(s.entries, key) < u.base {
      a := Search(key);
    } else if !PathLegal(u.g, u.start, key) {
      a := Unplayable(key);
    } else if AllHandled(u, s, key) {
      a := Retire(rel);
    } else {
      var m := LeastExists(u, s, key);
      a := Search(key + [m]);
    }
  }

  lemma {:induction false} ChoiceExists(u: Setup, s: State) returns (a: Act)
    ensures Chooses(u, s, a)
  {
    hide RootDone, IsFirst, ChoosesAt;
    if s.order == {} {
      a := if RootDone(u, s) then Done else Search(u.scope);
    } else {
      var rel := FirstExists(s.order);
      a := ChoiceAtExists(u, s, rel);
    }
  }

  /** The four ways to choose a search, or not to. */
  lemma {:induction false} ChoiceCases(u: Setup, s: State, a: Act) returns (rel: Path)
    requires Chooses(u, s, a)
    ensures s.order == {} ==> rel == [] && a == if RootDone(u, s) then Done else Search(u.scope)
    ensures s.order != {} ==> IsFirst(s.order, rel) && ChoosesAt(u, s, rel, a)
  {
    hide RootDone, IsFirst, ChoosesAt;
    rel := [];
    if s.order != {} {
      rel :| IsFirst(s.order, rel) && ChoosesAt(u, s, rel, a);
    }
  }

  // ----- reachable states are coherent -----

  /** Whatever is searched may be visited. */
  lemma {:induction false} SearchVisitable(u: Setup, s: State, a: Act)
    requires Grounded(u) && Coherent(u, s) && Chooses(u, s, a) && a.Search?
    ensures Visitable(u, s, a.key)
  {
    var rel := ChoiceCases(u, s, a);
    hide Chooses, RootDone, Grounded, Coherent, Visitable, Handled, AllHandled, PathLegal;
    if s.order == {} {
      RootVisitable(u, s);
    } else if a.key == u.scope + rel {
      CandidateVisitable(u, s, rel);
    } else {
      var m :| LeastUnhandled(u, s, u.scope + rel, m) && a == Search(u.scope + rel + [m]);
      ChildVisitable(u, s, rel, m);
    }
  }

  lemma {:induction false} CensorCoherent(u: Setup, s: State, key: Path, evals: nat)
    requires Coherent(u, s) && InScope(u.scope, key)
    ensures Coherent(u, Censor(u, s, key, evals))
  {
    ScopeRound(u.scope, key, []);
    hide UnderClosed;
    assert key in Bumped(s.entries, key, evals);
    assert ClosedIn(u, Censor(u, s, key, evals)) == ClosedIn(u, s);
  }

  lemma {:induction false} DrawCoherent(u: Setup, s: State, key: Path)
    requires Coherent(u, s) && InScope(u.scope, key)
    ensures Coherent(u, NoteDraw(u, s, key))
  {
    var rel, t := RelOf(u.scope, key), NoteDraw(u, s, key);
    ScopeRound(u.scope, key, []);
    SweptClear(s.order, t.order, ClosedIn(u, s), rel);
    hide UnderClosed;
    assert ClosedIn(u, t) == ClosedIn(u, s) + {rel};
  }

  lemma {:induction false} StoredCoherent(u: Setup, s: State, key: Path)
    requires Coherent(u, s) && InScope(u.scope, key)
    ensures Coherent(u, Stored(u, s, key))
  {
    var rel, t := RelOf(u.scope, key), Stored(u, s, key);
    ScopeRound(u.scope, key, []);
    SweptClear(s.order, t.order, ClosedIn(u, s), rel);
    hide UnderClosed;
    assert ClosedIn(u, t) == ClosedIn(u, s) + {rel};
  }

  lemma {:induction false} ClosedUpCoherent(u: Setup, s: State, key: Path)
    requires Coherent(u, s)
    ensures Coherent(u, ClosedUp(u, s, key))
  {
    var t := ClosedUp(u, s, key);
    hide UnderClosed;
    if t != s {
      var up := ParentRel(u.scope, key);
      SweptClear(s.order, t.order, ClosedIn(u, s), up);
      assert ClosedIn(u, t) == ClosedIn(u, s) + {up};
    }
  }

  lemma {:induction false} BookCoherent(u: Setup, s: State, key: Path, rec: JobRecord)
    requires Coherent(u, s) && InScope(u.scope, key)
    ensures Coherent(u, Book(u, s, key, rec))
  {
    var s1 := s.(summary := s.summary.(jobs := s.summary.jobs + 1, evals := s.summary.evals + rec.evals));
    assert Coherent(u, s1);
    hide Coherent, Censor, NoteDraw, Stored, ClosedUp;
    match rec.end {
      case Censored => CensorCoherent(u, s1, key, rec.evals);
      case ProvenDraw => DrawCoherent(u, s1, key);
      case Decisive(o) =>
        StoredCoherent(u, s1, key);
        ClosedUpCoherent(u, Stored(u, s1, key), key);
    }
  }

  lemma {:induction false} StepCoherent(u: Setup, s: State, a: Act, oracle: (nat, Path) -> JobRecord)
    requires Coherent(u, s)
    ensures Coherent(u, Effect(u, s, a, oracle))
  {
    match a {
      case Search(key) =>
        hide Coherent, Book, PathLegal;
        if InScope(u.scope, key) {
          BookCoherent(u, s, key, oracle(s.summary.jobs, key));
        }
      case Retire(rel) => hide UnderClosed;
      case Done =>
      case Unplayable(key) =>
    }
  }

  // ----- where a session starts -----

  /** The state the batch starts from. */
  ghost predicate Starts(u: Setup, s: State)
  {
    && Grounded(u) && (forall k :: k in s.shards ==> k in ProvenKeys(u.rows))
    && s == State(Admitted(u, s.entries.Keys, s.marks), Relative(u.scope, s.marks), {}, {}, {}, 0, s.entries, s.marks,
                  s.shards, NO_SUMMARY)
  }

  lemma {:induction false} StartCoherent(u: Setup, s: State)
    requires Starts(u, s)
    ensures Coherent(u, s)
  {
    RelativeIs(u.scope, s.entries.Keys);
    RelativeIs(u.scope, s.marks);
    RelativeIs(u.scope, ProvenKeys(u.rows));
    assert ClosedIn(u, s) == u.proven + u.orClosed + Relative(u.scope, s.marks);
    hide UnderClosed, Relative, OrParents, RowsClosed;
  }

  // ----- runs -----

  lemma {:induction false} OneState(u: Setup, oracle: (nat, Path) -> JobRecord, s: State)
    ensures IsRun(u, oracle, [s])
  {
  }

  lemma {:induction false} StepThenRun(u: Setup, oracle: (nat, Path) -> JobRecord, s: State, a: Act, rest: seq<State>)
    requires Chooses(u, s, a) && IsRun(u, oracle, rest) && rest[0] == Effect(u, s, a, oracle)
    ensures IsRun(u, oracle, [s] + rest) && ([s] + rest)[|rest|] == rest[|rest| - 1]
  {
    hide Chooses, Effect;
    var trace := [s] + rest;
    assert StepAt(u, oracle, s, rest[0]);
    forall i | 0 < i < |trace|
      ensures StepAt(u, oracle, trace[i - 1], trace[i])
    {
      if i > 1 {
        assert StepAt(u, oracle, rest[i - 2], rest[i - 1]);
      }
    }
  }

  lemma {:induction false} JoinRuns(u: Setup, oracle: (nat, Path) -> JobRecord, head: seq<State>, rest: seq<State>)
    requires IsRun(u, oracle, head) && IsRun(u, oracle, rest) && head[|head| - 1] == rest[0]
    ensures var trace := head[..|head| - 1] + rest;
            IsRun(u, oracle, trace) && trace[0] == head[0] && trace[|trace| - 1] == rest[|rest| - 1]
  {
    hide StepAt;
  }
}
