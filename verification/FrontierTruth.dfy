/** What the walk closes is settled: every closed node's value is known and true, so nothing below a
    closed node can change the value of the scope root. */
module FrontierTruth {
  import opened Game
  import opened Paths
  import opened PathTruth
  import opened PathShards
  import opened Frontier
  import opened FrontierBatch
  import opened FrontierRun

  ghost function AtRel(u: Setup, rel: Path): Position { Replay(u.g, u.start, u.scope + rel) }

  /** What a job may report of its position. */
  ghost predicate RecordTrue(g: Rules, p: Position, r: JobRecord)
  {
    match r.end
    case Censored => g.terminal(p).None?
    case ProvenDraw => Drawn(g, p)
    case Decisive(o) => Holds(g, p, o)
  }

  ghost predicate Drawn(g: Rules, p: Position) { !Holds(g, p, Win) && !Holds(g, p, Loss) }

  ghost predicate OracleTrue(u: Setup, oracle: (nat, Path) -> JobRecord)
  {
    forall n: nat, key: Path :: RecordTrue(u.g, Replay(u.g, u.start, key), oracle(n, key))
  }

  /** A record is an open position, reached through open positions. */
  ghost predicate OpenRecord(u: Setup, key: Path)
  {
    StemLegal(u.g, u.start, key) && u.g.terminal(Replay(u.g, u.start, key)).None?
  }

  /** The stored outcomes are true, and the frontier was built from them. */
  ghost predicate SetupTrue(u: Setup)
  {
    && StemLegal(u.g, u.start, u.scope)
    && (forall k :: k in u.proven ==>
         u.scope + k in u.rows && u.rows[u.scope + k].Some? && Holds(u.g, AtRel(u, k), u.rows[u.scope + k].value))
    && (forall k :: k in u.orClosed ==> Holds(u.g, AtRel(u, k), Win))
  }

  /** Every closed node has the value it was closed for, and every candidate is an open record. */
  ghost predicate FactsTrue(u: Setup, s: State)
  {
    && (forall k :: k in s.orDyn ==> Holds(u.g, AtRel(u, k), Win))
    && (forall k :: k in s.decided ==> Holds(u.g, AtRel(u, k), Win) || Holds(u.g, AtRel(u, k), Loss))
    && (forall k :: k in s.drawn ==> Drawn(u.g, AtRel(u, k)))
    && (forall key :: key in s.entries ==> OpenRecord(u, key))
    && (forall k :: k in s.order ==> u.scope + k in s.entries)
  }

  // ----- a session keeps its facts true -----

  /** Every visit goes to a node reached through open positions. */
  lemma {:induction false} VisitedOpen(u: Setup, s: State, a: Act)
    requires SetupTrue(u) && FactsTrue(u, s) && Chooses(u, s, a) && a.Search?
    ensures StemLegal(u.g, u.start, a.key)
  {
    hide RootDone, Holds, Drawn, Replay, AllHandled;
    if s.order != {} {
      var rel :| IsFirst(s.order, rel) && ChoosesAt(u, s, rel, a);
      var key := u.scope + rel;
      assert OpenRecord(u, key);
      if a.key != key {
        var m :| LeastUnhandled(u, s, key, m) && a == Search(key + [m]);
        StemMore(u, key, m);
      }
    }
  }

  lemma {:induction false} StemMore(u: Setup, key: Path, m: Move)
    requires OpenRecord(u, key) && m in u.g.legal(Replay(u.g, u.start, key))
    ensures StemLegal(u.g, u.start, key + [m])
  {
    hide Replay;
    var longer := key + [m];
    forall k | 0 <= k < |longer|
      ensures StepLegal(u.g, u.start, longer[..k], longer[k])
    {
      if k < |key| {
        assert longer[..k] == key[..k] && StepLegal(u.g, u.start, key[..k], key[k]);
      } else {
        assert longer[..k] == key;
      }
    }
  }

  /** A lost node's parent is won. */
  lemma {:induction false} ParentWon(u: Setup, key: Path)
    requires StemLegal(u.g, u.start, key) && Closes(u.scope, key) && Holds(u.g, Replay(u.g, u.start, key), Loss)
    ensures Holds(u.g, AtRel(u, ParentRel(u.scope, key)), Win)
  {
    var up, m := key[..|key| - 1], key[|key| - 1];
    assert StepLegal(u.g, u.start, up, m);
    assert up + [m] == key;
    ReplaySnoc(u.g, u.start, up, m);
    WinByReply(u.g, Replay(u.g, u.start, up), m);
    ScopeRound(u.scope, up, []);
  }

  lemma {:induction false} CensorKeeps(u: Setup, s: State, key: Path, evals: nat)
    requires FactsTrue(u, s) && InScope(u.scope, key) && OpenRecord(u, key)
    ensures FactsTrue(u, Censor(u, s, key, evals))
  {
    ScopeRound(u.scope, key, []);
    hide OpenRecord, UnderClosed, Drawn, Holds, AtRel;
  }

  lemma {:induction false} DrawKeeps(u: Setup, s: State, key: Path)
    requires FactsTrue(u, s) && InScope(u.scope, key) && Drawn(u.g, Replay(u.g, u.start, key))
    ensures FactsTrue(u, NoteDraw(u, s, key))
  {
    ScopeRound(u.scope, key, []);
    hide OpenRecord, Drawn, Holds, Replay;
  }

  lemma {:induction false} StoredKeeps(u: Setup, s: State, key: Path, o: Outcome)
    requires FactsTrue(u, s) && InScope(u.scope, key) && Holds(u.g, Replay(u.g, u.start, key), o)
    ensures FactsTrue(u, Stored(u, s, key))
  {
    ScopeRound(u.scope, key, []);
    HoldsDecisive(u.g, Replay(u.g, u.start, key), o);
    hide OpenRecord, Drawn, Holds, Replay;
  }

  lemma {:induction false} CloseKeeps(u: Setup, s: State, key: Path)
    requires FactsTrue(u, s) && StemLegal(u.g, u.start, key) && Holds(u.g, Replay(u.g, u.start, key), Loss)
    ensures FactsTrue(u, ClosedUp(u, s, key))
  {
    if Closes(u.scope, key) {
      ParentWon(u, key);
    }
    hide OpenRecord, Drawn, Holds, Replay, ParentRel, Closes, StemLegal;
  }

  lemma {:induction false} SearchKeeps(u: Setup, s: State, key: Path, rec: JobRecord)
    requires FactsTrue(u, s) && InScope(u.scope, key) && StemLegal(u.g, u.start, key)
    requires RecordTrue(u.g, Replay(u.g, u.start, key), rec)
    ensures FactsTrue(u, Book(u, s, key, rec))
  {
    var s1 := s.(summary := s.summary.(jobs := s.summary.jobs + 1, evals := s.summary.evals + rec.evals));
    assert FactsTrue(u, s1);
    hide FactsTrue, Holds, Drawn, Censor, NoteDraw, Stored, ClosedUp;
    match rec.end {
      case Censored => CensorKeeps(u, s1, key, rec.evals);
      case ProvenDraw => DrawKeeps(u, s1, key);
      case Decisive(o) =>
        StoredKeeps(u, s1, key, o);
        if o == Loss {
          CloseKeeps(u, Stored(u, s1, key), key);
        }
    }
  }

  lemma {:induction false} HoldsDecisive(g: Rules, p: Position, o: Outcome)
    ensures Holds(g, p, o) ==> o == Win || o == Loss
  {
    if Holds(g, p, o) {
      var n: nat :| Forced(g, p, o, n);
    }
  }

  /** Every iteration keeps the facts true. */
  lemma {:induction false} StepKeeps(u: Setup, s: State, a: Act, oracle: (nat, Path) -> JobRecord)
    requires SetupTrue(u) && FactsTrue(u, s) && OracleTrue(u, oracle) && Chooses(u, s, a)
    ensures FactsTrue(u, Effect(u, s, a, oracle))
  {
    if a.Search? {
      VisitedOpen(u, s, a);
      assert RecordTrue(u.g, Replay(u.g, u.start, a.key), oracle(s.summary.jobs, a.key));
      hide FactsTrue, Chooses, Book, PathLegal, StemLegal, SetupTrue, RecordTrue, OracleTrue;
      if InScope(u.scope, a.key) && PathLegal(u.g, u.start, a.key) {
        SearchKeeps(u, s, a.key, oracle(s.summary.jobs, a.key));
      }
    } else {
      hide Holds, Drawn, OpenRecord, AtRel, Chooses, SetupTrue, OracleTrue;
    }
  }

  /** In every reachable state of every session the facts are true. */
  lemma {:induction false} RunKeepsFacts(u: Setup, oracle: (nat, Path) -> JobRecord, trace: seq<State>, n: nat)
    requires SetupTrue(u) && OracleTrue(u, oracle) && IsRun(u, oracle, trace) && FactsTrue(u, trace[0]) && n < |trace|
    ensures FactsTrue(u, trace[n])
  {
    hide SetupTrue, OracleTrue, FactsTrue, Chooses, Effect;
    if n > 0 {
      RunKeepsFacts(u, oracle, trace, n - 1);
      assert StepAt(u, oracle, trace[n - 1], trace[n]);
      var a :| Chooses(u, trace[n - 1], a) && trace[n] == Effect(u, trace[n - 1], a, oracle);
      StepKeeps(u, trace[n - 1], a, oracle);
    }
  }

  // ----- where a session starts -----

  /** The stored rows are legal open play and their outcomes are true. */
  ghost predicate StoredTrue(g: Rules, start: Position, rows: map<Path, Option<Outcome>>)
  {
    forall k :: k in rows ==> RowFact(g, start, rows, k)
  }

  ghost predicate RowFact(g: Rules, start: Position, rows: map<Path, Option<Outcome>>, k: Path)
    requires k in rows
  {
    && (k != [] ==> StepLegal(g, start, k[..|k| - 1], k[|k| - 1]))
    && (rows[k].Some? ==> Holds(g, Replay(g, start, k), rows[k].value))
  }

  lemma {:induction false} WonParent(g: Rules, start: Position, rows: map<Path, Option<Outcome>>, k: Path)
    requires StoredTrue(g, start, rows) && k in LossKeys(rows) && k != []
    ensures Holds(g, Replay(g, start, k[..|k| - 1]), Win)
  {
    var up, m := k[..|k| - 1], k[|k| - 1];
    assert RowFact(g, start, rows, k) && up + [m] == k;
    ReplaySnoc(g, start, up, m);
    WinByReply(g, Replay(g, start, up), m);
  }

  /** A session over a true store, true draws and open records starts with true facts. */
  lemma {:induction false} StartsTrue(u: Setup, entries: map<Path, Entry>, drawn: set<Path>, shards: set<Path>)
    requires StoredTrue(u.g, u.start, u.rows) && StemLegal(u.g, u.start, u.scope)
    requires u.proven == Relative(u.scope, ProvenKeys(u.rows)) && u.orClosed == OrParents(u.scope, LossKeys(u.rows))
    requires forall k :: k in drawn ==> Drawn(u.g, Replay(u.g, u.start, k))
    requires forall k :: k in entries ==> OpenRecord(u, k)
    ensures SetupTrue(u)
    ensures FactsTrue(u, State(Admitted(u, entries.Keys, drawn), Relative(u.scope, drawn), {}, {}, {}, 0, entries,
            drawn, shards, NO_SUMMARY))
  {
    hide Holds, Drawn, OpenRecord, UnderClosed, StepLegal, Replay, StemLegal, Relative, OrParents, LossKeys;
    RelativeIs(u.scope, ProvenKeys(u.rows));
    RelativeIs(u.scope, entries.Keys);
    RelativeIs(u.scope, drawn);
    forall k | k in u.proven
      ensures u.scope + k in u.rows && u.rows[u.scope + k].Some? && Holds(u.g, AtRel(u, k), u.rows[u.scope + k].value)
    {
      assert RowFact(u.g, u.start, u.rows, u.scope + k);
    }
    forall k | k in u.orClosed
      ensures Holds(u.g, AtRel(u, k), Win)
    {
      var lost := OrParentOf(u.scope, LossKeys(u.rows), k);
      WonParent(u.g, u.start, u.rows, lost);
    }
  }

  lemma {:induction false} OrParentOf(scope: Path, lossRows: set<Path>, rel: Path) returns (lost: Path)
    requires rel in OrParents(scope, lossRows)
    ensures lost in lossRows && lost != [] && scope + rel == lost[..|lost| - 1]
  {
    var k :| k in lossRows && |k| % 2 == 1 && InScope(scope, k[..|k| - 1]) && RelOf(scope, k[..|k| - 1]) == rel;
    assert scope + rel == k[..|k| - 1];
    lost := k;
  }

  // ----- the value of the scope root -----

  /** A valuation of the nodes obeys the rules of the game at `key`. */
  ghost predicate Local(u: Setup, v: Path -> Outcome, key: Path)
  {
    var p := Replay(u.g, u.start, key);
    match u.g.terminal(p)
    case Some(o) => v(key) == o
    case None =>
      && (v(key) == Win <==> exists m :: m in u.g.legal(p) && v(key + [m]) == Loss)
      && (v(key) == Loss <==> forall m :: m in u.g.legal(p) ==> v(key + [m]) == Win)
  }

  /** It agrees with what is known of the closed nodes. */
  ghost predicate Agrees(u: Setup, s: State, v: Path -> Outcome)
  {
    && (forall k :: k in u.proven ==> Holds(u.g, AtRel(u, k), v(u.scope + k)))
    && (forall k :: k in u.orClosed + s.orDyn ==> v(u.scope + k) == Win)
    && (forall k :: k in s.decided ==> Holds(u.g, AtRel(u, k), v(u.scope + k)))
    && (forall k :: k in s.drawn ==> v(u.scope + k) == Draw)
  }

  /** Outside the closed subtrees it is a valuation; inside, it may say anything. */
  ghost predicate Outside(u: Setup, s: State, v: Path -> Outcome)
  {
    forall rel: Path :: !UnderClosed(rel, ClosedIn(u, s)) ==> Local(u, v, u.scope + rel)
  }

  ghost function TrueValue(g: Rules, p: Position): Outcome
  {
    if Holds(g, p, Win) then Win else if Holds(g, p, Loss) then Loss else Draw
  }

  /** A closed node's value is settled. */
  lemma {:induction false} ClosedValue(u: Setup, s: State, v: Path -> Outcome, rel: Path)
    requires SetupTrue(u) && FactsTrue(u, s) && Agrees(u, s, v) && rel in ClosedIn(u, s)
    ensures v(u.scope + rel) == TrueValue(u.g, AtRel(u, rel))
  {
    var p := AtRel(u, rel);
    ValueOfHolds(u.g, p, v(u.scope + rel));
    ValueOfHolds(u.g, p, Win);
    hide Holds, AtRel, OpenRecord, StemLegal, TrueValue;
    if rel in s.drawn {
      DrawnValue(u.g, p);
    }
  }

  lemma {:induction false} DrawnValue(g: Rules, p: Position)
    requires Drawn(g, p)
    ensures TrueValue(g, p) == Draw
  {
  }

  lemma {:induction false} ValueOfHolds(g: Rules, p: Position, o: Outcome)
    ensures Holds(g, p, o) ==> TrueValue(g, p) == o
  {
    HoldsDecisive(g, p, o);
    if Holds(g, p, o) {
      if Holds(g, p, Win) {
        HoldsUnique(g, p, o, Win);
      }
    }
  }

  /** The true values obey the rules of the game. */
  lemma {:induction false} TruthLocal(g: Rules, p: Position)
    ensures g.terminal(p).Some? ==> TrueValue(g, p) == g.terminal(p).value
    ensures g.terminal(p).None? && g.legal(p) != [] ==>
              (TrueValue(g, p) == Win <==> exists m :: m in g.legal(p) && TrueValue(g, g.play(p, m)) == Loss)
              && (TrueValue(g, p) == Loss <==> forall m :: m in g.legal(p) ==> TrueValue(g, g.play(p, m)) == Win)
  {
    if g.terminal(p).Some? {
      TerminalValue(g, p);
    } else if g.legal(p) != [] {
      HoldsIff(g, p);
      forall m | m in g.legal(p)
        ensures TrueValue(g, g.play(p, m)) == Loss <==> Holds(g, g.play(p, m), Loss)
        ensures TrueValue(g, g.play(p, m)) == Win <==> Holds(g, g.play(p, m), Win)
      {
        ValueIff(g, g.play(p, m));
      }
      ValueIff(g, p);
      hide Holds, TrueValue;
    }
  }

  lemma {:induction false} ValueIff(g: Rules, p: Position)
    ensures TrueValue(g, p) == Loss <==> Holds(g, p, Loss)
    ensures TrueValue(g, p) == Win <==> Holds(g, p, Win)
  {
    ValueOfHolds(g, p, Loss);
  }

  lemma {:induction false} TerminalValue(g: Rules, p: Position)
    requires g.terminal(p).Some?
    ensures TrueValue(g, p) == g.terminal(p).value
  {
    var t := g.terminal(p).value;
    if t != Draw {
      assert Forced(g, p, t, 0);
      ValueOfHolds(g, p, t);
    }
    forall o | Holds(g, p, o)
      ensures o == t
    {
      var n: nat :| Forced(g, p, o, n);
    }
  }

  /** A node that is not strictly below a closed one has its true value in every such valuation. */
  lemma {:induction false} ValueKept(u: Setup, s: State, v: Path -> Outcome, rank: Position -> nat, rel: Path)
    requires u.g.Sane() && u.g.Ranked(rank) && SetupTrue(u) && FactsTrue(u, s) && Agrees(u, s, v) && Outside(u, s, v)
    requires !UnderClosed(rel, ClosedIn(u, s)) || rel in ClosedIn(u, s)
    ensures v(u.scope + rel) == TrueValue(u.g, AtRel(u, rel))
    decreases rank(AtRel(u, rel))
  {
    if rel in ClosedIn(u, s) {
      ClosedValue(u, s, v, rel);
    } else {
      assert Local(u, v, u.scope + rel);
      var p := AtRel(u, rel);
      TruthLocal(u.g, p);
      hide SetupTrue, FactsTrue, Agrees, Outside, Holds, TrueValue, ClosedIn, UnderClosed;
      if u.g.terminal(p).None? {
        forall m | m in u.g.legal(p)
          ensures v(u.scope + rel + [m]) == TrueValue(u.g, u.g.play(p, m))
        {
          UnderChild(rel, m, ClosedIn(u, s));
          assert u.scope + (rel + [m]) == u.scope + rel + [m];
          ReplaySnoc(u.g, u.start, u.scope + rel, m);
          RankDown(u.g, rank, p, m);
          ValueKept(u, s, v, rank, rel + [m]);
        }
      }
    }
  }

  /** Whatever is below the closed nodes, a valuation that agrees with what is known gives the scope
      root its true value. */
  lemma {:induction false} PruningKeepsValue(u: Setup, s: State, v: Path -> Outcome, rank: Position -> nat)
    requires u.g.Sane() && u.g.Ranked(rank) && SetupTrue(u) && FactsTrue(u, s) && Agrees(u, s, v) && Outside(u, s, v)
    ensures v(u.scope) == TrueValue(u.g, Replay(u.g, u.start, u.scope))
  {
    hide SetupTrue, FactsTrue, Agrees, Outside, Holds, TrueValue, ClosedIn;
    RootUnder(ClosedIn(u, s));
    ValueKept(u, s, v, rank, []);
    assert u.scope + [] == u.scope;
  }

  lemma {:induction false} RootUnder(closed: set<Path>)
    ensures UnderClosed([], closed) ==> [] in closed
  {
  }
}
