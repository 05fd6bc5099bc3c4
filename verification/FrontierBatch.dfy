/** The harvest batch: shallowest candidate first, expansion instead of deepening. */
module FrontierBatch {
  import opened Game
  import opened Paths
  import opened Frontier

  datatype Entry = Entry(work: nat, passes: nat)

  function WorkOf(entries: map<Path, Entry>, key: Path): nat { if key in entries then entries[key].work else 0 }

  /** One more censored visit; the work saturates. */
  function Bumped(entries: map<Path, Entry>, key: Path, work: nat): map<Path, Entry>
  {
    var total := WorkOf(entries, key) + work;
    var passes := if key in entries then entries[key].passes else 0;
    entries[key := Entry(if total <= U64_MAX then total else U64_MAX, passes + 1)]
  }

  lemma {:induction false} BumpedHas(entries: map<Path, Entry>, key: Path, work: nat)
    ensures Bumped(entries, key, work).Keys == entries.Keys + {key}
  {
  }

  /** The censor records and the proven-draw marks. */
  class Ledger {
    var entries: map<Path, Entry>
    var drawn: set<Path>

    constructor (entries: map<Path, Entry>, drawn: set<Path>)
      ensures this.entries == entries && this.drawn == drawn
    {
      this.entries, this.drawn := entries, drawn;
    }

    method Bump(key: Path, work: nat)
      modifies this`entries
      ensures entries == Bumped(old(entries), key, work)
    {
      var cur := if key in entries then entries[key] else Entry(0, 0);
      var total := cur.work + work;
      entries := entries[key := Entry(if total <= U64_MAX then total else U64_MAX, cur.passes + 1)];
    }

    method MarkDrawn(key: Path)
      modifies this`drawn
      ensures drawn == old(drawn) + {key}
    {
      drawn := drawn + {key};
    }
  }

  datatype JobEnd = Censored | ProvenDraw | Decisive(o: Outcome)
  datatype JobRecord = JobRecord(end: JobEnd, evals: nat)

  datatype Summary = Summary(jobs: nat, decisive: nat, censored: nat, drawn: nat, freshCensored: nat, evals: nat,
      orCloses: nat)

  const NO_SUMMARY: Summary := Summary(0, 0, 0, 0, 0, 0, 0)

  /** A visit, and what was closed when it was made. */
  datatype Visited = Visited(rel: Path, known: set<Path>, orDyn: set<Path>)

  /** A visit is never at or under a node whose value was known, nor strictly below an or-closed node. */
  ghost predicate VisitFine(v: Visited)
  {
    !UnderClosed(v.rel, v.known) && (v.rel != [] ==> !UnderClosed(v.rel[..|v.rel| - 1], v.orDyn))
  }

  /** The stored rows are a tree. */
  ghost predicate RowsClosed(rows: map<Path, Option<Outcome>>)
  {
    forall k :: k in rows && k != [] ==> k[..|k| - 1] in rows
  }

  function ProvenKeys(rows: map<Path, Option<Outcome>>): set<Path> { set k | k in rows && rows[k].Some? }
  function LossKeys(rows: map<Path, Option<Outcome>>): set<Path> { set k | k in rows && rows[k] == Some(Loss) }

  datatype Stop = Exhausted | Budget | MaxJobs | StopFile | BadPath

  // ----- the batch as a state machine -----

  /** What does not change in a session. */
  datatype Setup = Setup(g: Rules, start: Position, base: nat, rows: map<Path, Option<Outcome>>, scope: Path,
      proven: set<Path>, orClosed: set<Path>)

  /** What does. */
  datatype State = State(order: set<Path>, drawn: set<Path>, orDyn: set<Path>, complete: set<Path>, decided: set<Path>,
      completes: nat,
                         entries: map<Path, Entry>, marks: set<Path>, shards: set<Path>, summary: Summary)

  /** Nodes with a known value, or-closed ones apart. */
  ghost function Known(u: Setup, s: State): set<Path>
  {
    u.proven + u.orClosed + s.drawn + s.decided
  }

  /** Every closed node. */
  ghost function ClosedIn(u: Setup, s: State): set<Path> { u.proven + u.orClosed + s.orDyn + s.drawn + s.decided }

  /** Nodes resolved in this session or drawn before. */
  ghost function Resolved(s: State): set<Path> { s.decided + s.drawn }

  ghost predicate Handled(u: Setup, s: State, key: Path)
  {
    key in u.rows || key in s.shards || key in s.marks || (key in s.entries && s.entries[key].work >= u.base)
  }

  ghost predicate RootDone(u: Setup, s: State)
  {
    || (u.scope in u.rows && u.rows[u.scope].Some?) || u.scope in s.shards
    || [] in u.orClosed || [] in s.orDyn || [] in s.drawn || [] in s.complete
  }

  /** The record's new history. */
  ghost function Noted(s: State, key: Path, evals: nat): State
  {
    var fresh_record := if key in s.entries then 0 else 1;
    s.(entries := Bumped(s.entries, key, evals),
       summary := s.summary.(censored := s.summary.censored + 1,
           freshCensored := s.summary.freshCensored + fresh_record))
  }

  /** A censor that cost nothing completes its node, any other makes it a candidate. */
  ghost function Censor(u: Setup, s: State, key: Path, evals: nat): State
    requires InScope(u.scope, key)
  {
    var rel, s1 := RelOf(u.scope, key), Noted(s, key, evals);
    if evals == 0 then Retired(s1, rel)
    else if UnderClosed(rel, ClosedIn(u, s)) then s1
    else s1.(order := s.order + {rel})
  }

  ghost function NoteDraw(u: Setup, s: State, key: Path): State
    requires InScope(u.scope, key)
  {
    var rel := RelOf(u.scope, key);
    s.(drawn := s.drawn + {rel}, marks := s.marks + {key}, order := Swept(s.order, rel),
        summary := s.summary.(drawn := s.summary.drawn + 1))
  }

  /** The shard is stored and its subtree pruned. */
  ghost function Stored(u: Setup, s: State, key: Path): State
    requires InScope(u.scope, key)
  {
    var rel := RelOf(u.scope, key);
    s.(shards := s.shards + {key}, decided := s.decided + {rel}, order := Swept(s.order, rel),
       summary := s.summary.(decisive := s.summary.decisive + 1))
  }

  /** The parent of a lost node is or-closed, unless it is complete already. */
  ghost function ClosedUp(u: Setup, s: State, key: Path): State
  {
    if Closes(u.scope, key) && ParentRel(u.scope, key) !in s.complete then
      var up := ParentRel(u.scope, key);
      s.(complete := s.complete + {up}, orDyn := s.orDyn + {up}, order := Swept(s.order, up),
         summary := s.summary.(orCloses := s.summary.orCloses + 1))
    else s
  }

  ghost function Decide(u: Setup, s: State, key: Path, o: Outcome): State
    requires InScope(u.scope, key)
  {
    if o == Loss then ClosedUp(u, Stored(u, s, key), key) else Stored(u, s, key)
  }

  /** Booking a job: a censor is recorded and its node admitted or completed; a draw prunes its
      subtree; a decision is stored, prunes its subtree, and a loss closes the parent. */
  ghost function Book(u: Setup, s: State, key: Path, rec: JobRecord): State
    requires InScope(u.scope, key)
  {
    var s1 := s.(summary := s.summary.(jobs := s.summary.jobs + 1, evals := s.summary.evals + rec.evals));
    Ended(u, s1, key, rec)
  }

  ghost function Ended(u: Setup, s: State, key: Path, rec: JobRecord): State
    requires InScope(u.scope, key)
  {
    match rec.end
    case Censored => Censor(u, s, key, rec.evals)
    case ProvenDraw => NoteDraw(u, s, key)
    case Decisive(o) => Decide(u, s, key, o)
  }

  /** What an iteration decides to do. */
  datatype Act = Done | Search(key: Path) | Retire(rel: Path) | Unplayable(key: Path)

  ghost predicate IsFirst(order: set<Path>, rel: Path)
  {
    rel in order && forall k :: k in order ==> k == rel || Before(rel, k)
  }

  ghost predicate LeastUnhandled(u: Setup, s: State, key: Path, m: Move)
  {
    var legal := u.g.legal(Replay(u.g, u.start, key));
    m in legal && !Handled(u, s, key + [m]) && forall x :: x in legal && !Handled(u, s, key + [x]) ==> m <= x
  }

  ghost predicate AllHandled(u: Setup, s: State, key: Path)
  {
    forall m :: m in u.g.legal(Replay(u.g, u.start, key)) ==> Handled(u, s, key + [m])
  }

  /** The root rule, the search visit, the expansion visit, and the complete rule. */
  ghost predicate Chooses(u: Setup, s: State, a: Act)
  {
    if s.order == {} then a == if RootDone(u, s) then Done else Search(u.scope)
    else exists rel :: IsFirst(s.order, rel) && ChoosesAt(u, s, rel, a)
  }

  ghost predicate ChoosesAt(u: Setup, s: State, rel: Path, a: Act)
  {
    var key := u.scope + rel;
    if WorkOf(s.entries, key) < u.base then a == Search(key)
    else if !PathLegal(u.g, u.start, key) then a == Unplayable(key)
    else if AllHandled(u, s, key) then a == Retire(rel)
    else exists m :: LeastUnhandled(u, s, key, m) && a == Search(key + [m])
  }

  ghost function Retired(s: State, rel: Path): State
  {
    s.(complete := s.complete + {rel}, completes := s.completes + (if rel in s.complete then 0 else 1),
        order := s.order - {rel})
  }

  /** The iteration's effect; nothing happens when the batch stops. */
  ghost function Effect(u: Setup, s: State, a: Act, oracle: (nat, Path) -> JobRecord): State
  {
    match a
    case Search(key) =>
      if InScope(u.scope, key) && PathLegal(u.g, u.start, key) then Book(u, s, key, oracle(s.summary.jobs, key)) else s
    case Retire(rel) => Retired(s, rel)
    case _ => s
  }

  ghost function StopOf(u: Setup, a: Act): Option<Stop>
  {
    match a
    case Done => Some(Exhausted)
    case Unplayable(key) => Some(BadPath)
    case Search(key) => if PathLegal(u.g, u.start, key) then None else Some(BadPath)
    case Retire(rel) => None
  }

  /** The frontier was built from the stored rows. */
  ghost predicate Grounded(u: Setup)
  {
    && RowsClosed(u.rows) && u.proven == Relative(u.scope, ProvenKeys(u.rows))
    && u.orClosed == OrParents(u.scope, LossKeys(u.rows))
  }

  /** No candidate is covered by a closed node, and every fact has its record, mark or shard. */
  ghost predicate Coherent(u: Setup, s: State)
  {
    && (forall k :: k in s.order ==> !UnderClosed(k, ClosedIn(u, s)))
    && (forall k :: k in s.order ==> u.scope + k in s.entries)
    && (forall k :: k in s.drawn ==> u.scope + k in s.marks)
    && (forall k :: k in s.decided ==> u.scope + k in s.shards)
    && (forall x :: x in s.shards && InScope(u.scope, x) ==> RelOf(u.scope, x) in u.proven + s.decided)
  }

  // ----- what may be visited -----

  /** A key whose visit is fine. */
  ghost predicate Visitable(u: Setup, s: State, key: Path)
  {
    InScope(u.scope, key) && VisitFine(Visited(RelOf(u.scope, key), Known(u, s), s.orDyn))
  }

  /** Visited nodes are in none of the known sets. */
  lemma {:induction false} NotKnown(u: Setup, s: State, rel: Path)
    requires !UnderClosed(rel, Known(u, s))
    ensures rel !in s.decided && rel !in s.drawn && rel !in u.proven && !UnderClosed(rel, s.decided)
  {
    UnderMore(rel, u.proven + u.orClosed + s.drawn, s.decided);
    assert rel[..|rel|] == rel;
  }

  /** A candidate is under neither kind of closed node. */
  lemma {:induction false} CandidateClear(u: Setup, s: State, rel: Path)
    requires Coherent(u, s) && rel in s.order
    ensures !UnderClosed(rel, Known(u, s)) && !UnderClosed(rel, s.orDyn)
  {
    hide UnderClosed;
    assert ClosedIn(u, s) == Known(u, s) + s.orDyn;
    UnderMore(rel, Known(u, s), s.orDyn);
  }

  /** A candidate may be visited. */
  lemma {:induction false} CandidateVisitable(u: Setup, s: State, rel: Path)
    requires Coherent(u, s) && rel in s.order
    ensures Visitable(u, s, u.scope + rel)
  {
    hide UnderClosed, Known, Coherent;
    ScopeRound(u.scope, [], rel);
    CandidateClear(u, s, rel);
    if rel != [] {
      UnderChild(rel[..|rel| - 1], rel[|rel| - 1], s.orDyn);
      assert rel[..|rel| - 1] + [rel[|rel| - 1]] == rel;
    }
  }

  lemma {:induction false} ChildUnknown(u: Setup, s: State, child: Path)
    requires Grounded(u) && Coherent(u, s) && child != [] && !Handled(u, s, u.scope + child)
    ensures child !in Known(u, s)
  {
    RelativeIs(u.scope, ProvenKeys(u.rows));
    hide UnderClosed, OrParents;
    if child in u.orClosed {
      OrParentRow(u.rows, u.scope, child);
    }
  }

  /** An unhandled child of a candidate may be visited; it is closed only if it was or-closed in this
      session. */
  lemma {:induction false} ChildVisitable(u: Setup, s: State, rel: Path, m: Move)
    requires Grounded(u) && Coherent(u, s) && rel in s.order && !Handled(u, s, u.scope + rel + [m])
    ensures Visitable(u, s, u.scope + rel + [m])
  {
    var child := rel + [m];
    assert u.scope + rel + [m] == u.scope + child;
    ScopeRound(u.scope, [], child);
    CandidateClear(u, s, rel);
    ChildUnknown(u, s, child);
    hide UnderClosed, Known, Coherent, Grounded, Handled;
    UnderChild(rel, m, Known(u, s));
    assert child[..|child| - 1] == rel;
  }

  lemma {:induction false} RootVisitable(u: Setup, s: State)
    requires Grounded(u) && Coherent(u, s) && !RootDone(u, s)
    ensures Visitable(u, s, u.scope)
  {
    RelativeIs(u.scope, ProvenKeys(u.rows));
    assert RelOf(u.scope, u.scope) == [];
    assert u.scope + [] == u.scope;
    assert forall k :: k in s.decided ==> u.scope + k in s.shards;
  }

  class WalkBatch {
    const g: Rules
    const start: Position
    const base: nat
    const rows: map<Path, Option<Outcome>>
    const oracle: (nat, Path) -> JobRecord
    const frontier: WalkFrontier
    const ledger: Ledger
    var shards: set<Path>
    var summary: Summary
    ghost var log: seq<Visited>

    constructor (g: Rules, start: Position, base: nat, rows: map<Path, Option<Outcome>>,
            oracle: (nat, Path) -> JobRecord, entries: map<Path, Entry>, drawn: set<Path>, shards: set<Path>,
            scope: Path)
      requires RowsClosed(rows) && forall s :: s in shards ==> s in ProvenKeys(rows)
      ensures Valid() && fresh(frontier) && fresh(ledger) && log == [] && this.oracle == oracle
      ensures Fixed() ==
                Setup(g, start, base, rows, scope, Relative(scope, ProvenKeys(rows)), OrParents(scope, LossKeys(rows)))
      ensures Now() == State(Admitted(Fixed(), entries.Keys, drawn), Relative(scope, drawn), {}, {}, {}, 0, entries,
              drawn, shards, NO_SUMMARY)
    {
      this.g, this.start, this.base, this.rows, this.oracle := g, start, base, rows, oracle;
      frontier := new WalkFrontier(scope, entries.Keys, ProvenKeys(rows), LossKeys(rows), drawn);
      ledger := new Ledger(entries, drawn);
      this.shards := shards;
      summary := NO_SUMMARY;
      log := [];
      new;
      RelativeIs(scope, entries.Keys);
      RelativeIs(scope, drawn);
      RelativeIs(scope, ProvenKeys(rows));
    }

    ghost function Fixed(): Setup
    {
      Setup(g, start, base, rows, frontier.scope, frontier.proven, frontier.orClosed)
    }

    ghost function Now(): State
      reads this, frontier, ledger
    {
      State(frontier.order, frontier.drawn, frontier.orClosedDyn, frontier.complete, frontier.decided,
              frontier.completes,
            ledger.entries, ledger.drawn, shards, summary)
    }

    ghost predicate Valid()
      reads this, frontier, ledger
    {
      && frontier.Valid() && Grounded(Fixed()) && Coherent(Fixed(), Now())
      && forall v :: v in log ==> VisitFine(v)
    }

    // ----- one visit -----

    /** Run one job at `key` and book its outcome. */
    method Visit(key: Path) returns (ok: bool)
      requires Valid() && Visitable(Fixed(), Now(), key)
      modifies this`shards, this`summary, this`log, frontier, ledger
      ensures Valid() && (ok <==> PathLegal(g, start, key))
      ensures InScope(Fixed().scope, key)
      ensures Now() == if ok then Book(Fixed(), old(Now()), key, oracle(old(summary).jobs, key)) else old(Now())
      ensures var v := Visited(RelOf(frontier.scope, key), old(Known(Fixed(), Now())), old(frontier.orClosedDyn));
              log == old(log) + if ok then [v] else []
    {
      hide UnderClosed, Relative, OrParents, RowsClosed, ProvenKeys, LossKeys, Swept, Bumped, PathLegal,
        Ended;
      var at := ReplayPath(g, start, key);
      if at.None? {
        return false;
      }
      var rec := oracle(summary.jobs, key);
      log := log + [Visited(RelOf(frontier.scope, key), Known(Fixed(), Now()), frontier.orClosedDyn)];
      summary := summary.(jobs := summary.jobs + 1, evals := summary.evals + rec.evals);
      NotKnown(Fixed(), Now(), RelOf(frontier.scope, key));
      BookEnd(key, rec);
      ok := true;
    }

    method BookEnd(key: Path, rec: JobRecord)
      requires Valid() && InScope(frontier.scope, key) && key !in shards
               && !UnderClosed(RelOf(frontier.scope, key), frontier.decided)
      modifies this`shards, this`summary, frontier, ledger
      ensures Valid() && Now() == Ended(Fixed(), old(Now()), key, rec)
    {
      hide Valid, UnderClosed, Censor, NoteDraw, Decide;
      match rec.end {
        case Censored => BookCensor(key, rec.evals);
        case ProvenDraw => BookDraw(key);
        case Decisive(o) => BookDecisive(key, o);
      }
    }

    method NoteCensor(key: Path, evals: nat)
      requires Valid()
      modifies this`summary, ledger
      ensures Valid() && Now() == Noted(old(Now()), key, evals) && key in ledger.entries
    {
      hide UnderClosed, Relative, OrParents, RowsClosed, ProvenKeys, LossKeys, Bumped;
      BumpedHas(ledger.entries, key, evals);
      var fresh_record := if key in ledger.entries then 0 else 1;
      summary := summary.(censored := summary.censored + 1, freshCensored := summary.freshCensored + fresh_record);
      ledger.Bump(key, evals);
    }

    method BookCensor(key: Path, evals: nat)
      requires Valid() && InScope(frontier.scope, key) && !UnderClosed(RelOf(frontier.scope, key), frontier.decided)
      modifies this`summary, frontier, ledger
      ensures Valid() && Now() == Censor(Fixed(), old(Now()), key, evals)
    {
      hide UnderClosed, Relative, OrParents, RowsClosed, ProvenKeys, LossKeys, Bumped;
      NoteCensor(key, evals);
      ScopeRound(frontier.scope, key, []);
      if evals == 0 {
        frontier.MarkComplete(key);
      } else {
        frontier.Admit(key);
      }
    }

    method BookDraw(key: Path)
      requires Valid() && InScope(frontier.scope, key)
      modifies this`summary, frontier, ledger
      ensures Valid() && Now() == NoteDraw(Fixed(), old(Now()), key)
    {
      hide UnderClosed, Relative, OrParents, RowsClosed, ProvenKeys, LossKeys;
      summary := summary.(drawn := summary.drawn + 1);
      ledger.MarkDrawn(key);
      ScopeRound(frontier.scope, key, []);
      frontier.MarkDrawn(key);
    }

    /** A decisive job stores a shard; no shard of that path exists yet. */
    method BookDecisive(key: Path, o: Outcome)
      requires Valid() && InScope(frontier.scope, key) && key !in shards
      modifies this`shards, this`summary, frontier
      ensures Valid() && Now() == Decide(Fixed(), old(Now()), key, o)
    {
      hide Valid, Stored, ClosedUp;
      StoreShard(key);
      if o == Loss {
        CloseUp(key);
      }
    }

    method StoreShard(key: Path)
      requires Valid() && InScope(frontier.scope, key) && key !in shards
      modifies this`shards, this`summary, frontier
      ensures Valid() && Now() == Stored(Fixed(), old(Now()), key)
    {
      hide UnderClosed, Relative, OrParents, RowsClosed, ProvenKeys, LossKeys, Swept;
      ScopeRound(frontier.scope, key, []);
      shards := shards + {key};
      frontier.MarkDecided(key);
      summary := summary.(decisive := summary.decisive + 1);
      SweptFewer(old(frontier.order), RelOf(frontier.scope, key));
    }

    method CloseUp(key: Path)
      requires Valid()
      modifies this`summary, frontier
      ensures Valid() && Now() == ClosedUp(Fixed(), old(Now()), key)
    {
      hide UnderClosed, Relative, OrParents, RowsClosed, ProvenKeys, LossKeys, Swept, Closes, ParentRel;
      var closed := frontier.OrCloseParent(key);
      if closed {
        SweptFewer(old(frontier.order), ParentRel(frontier.scope, key));
        summary := summary.(orCloses := summary.orCloses + 1);
      }
    }

    // ----- one iteration -----

    predicate IsHandled(key: Path)
      reads this, ledger
      ensures IsHandled(key) <==> Handled(Fixed(), Now(), key)
    {
      key in rows || key in shards || key in ledger.drawn || (key in ledger.entries && ledger.entries[key].work >= base)
    }

    /** The first legal move, by name, whose node needs a visit. */
    method FirstUnhandled(key: Path, p: Position) returns (r: Option<Move>)
      requires p == Replay(g, start, key)
      ensures r.None? <==> AllHandled(Fixed(), Now(), key)
      ensures r.Some? ==> LeastUnhandled(Fixed(), Now(), key, r.value)
    {
      var moves := g.legal(p);
      r := None;
      for i := 0 to |moves|
        invariant r.None? ==> forall j :: 0 <= j < i ==> IsHandled(key + [moves[j]])
        invariant r.Some? ==> r.value in moves && !IsHandled(key + [r.value])
        invariant r.Some? ==> forall j :: 0 <= j < i && !IsHandled(key + [moves[j]]) ==> r.value <= moves[j]
      {
        if !IsHandled(key + [moves[i]]) && (r.None? || moves[i] < r.value) {
          r := Some(moves[i]);
        }
      }
    }

    /** The scope root is out: proven, or-closed, drawn, or complete. */
    predicate RootOut()
      reads this, frontier, ledger
      ensures RootOut() <==> RootDone(Fixed(), Now())
    {
      (frontier.scope in rows && rows[frontier.scope].Some?) || frontier.scope in shards
      || frontier.RootOrClosed() || frontier.RootDrawn() || frontier.RootBlocked()
    }

    /** What an iteration leaves behind. */
    ghost predicate Moved(u: Setup, was: State, before: seq<Visited>, a: Act)
      reads this, frontier, ledger
    {
      && u == Fixed() && Now() == Effect(u, was, a, oracle)
      && log == before + if a.Search? && InScope(u.scope, a.key) && StopOf(u, a).None?
                         then [Visited(RelOf(u.scope, a.key), Known(u, was), was.orDyn)] else []
    }

    /** One iteration of the batch. */
    method Iterate() returns (stop: Option<Stop>, ghost act: Act)
      requires Valid()
      modifies this`shards, this`summary, this`log, frontier, ledger
      ensures Valid() && Chooses(Fixed(), old(Now()), act) && stop == StopOf(Fixed(), act)
      ensures act.Search? ==> InScope(Fixed().scope, act.key)
      ensures Moved(Fixed(), old(Now()), old(log), act)
    {
      hide Valid, Visitable, UnderClosed, RootDone, Handled, AllHandled, LeastUnhandled, Book, IsFirst, Known,
        PathLegal, Coherent, Grounded;
      InValid();
      ghost var was := Now();
      var picked := frontier.Pick();
      if picked.None? {
        if RootOut() {
          return Some(Exhausted), Done;
        }
        RootVisitable(Fixed(), Now());
        act := Search(frontier.scope);
        var ok := Visit(frontier.scope);
        stop := if ok then None else Some(BadPath);
        return;
      }
      var key := picked.value;
      ScopeRound(frontier.scope, key, []);
      FirstIs(frontier.order, RelOf(frontier.scope, key));
      if (if key in ledger.entries then ledger.entries[key].work else 0) < base {
        CandidateVisitable(Fixed(), Now(), RelOf(frontier.scope, key));
        act := Search(key);
        var ok := Visit(key);
        stop := if ok then None else Some(BadPath);
        assert ChoosesAt(Fixed(), was, RelOf(frontier.scope, key), act);
        return;
      }
      var at := ReplayPath(g, start, key);
      if at.None? {
        act := Unplayable(key);
        assert ChoosesAt(Fixed(), was, RelOf(frontier.scope, key), act);
        return Some(BadPath), act;
      }
      var target := FirstUnhandled(key, at.value);
      if target.None? {
        RetireCandidate(key);
        act := Retire(RelOf(frontier.scope, key));
        assert ChoosesAt(Fixed(), was, RelOf(frontier.scope, key), act);
        return None, act;
      }
      NeedsVisit(key, target.value);
      ChildVisitable(Fixed(), Now(), RelOf(frontier.scope, key), target.value);
      act := Search(key + [target.value]);
      var ok := Visit(key + [target.value]);
      stop := if ok then None else Some(BadPath);
      assert ChoosesAt(Fixed(), was, RelOf(frontier.scope, key), act);
    }

    lemma {:induction false} NeedsVisit(key: Path, m: Move)
      requires LeastUnhandled(Fixed(), Now(), key, m)
      ensures !Handled(Fixed(), Now(), key + [m]) && !AllHandled(Fixed(), Now(), key)
    {
    }

    lemma {:induction false} LogFine()
      requires Valid()
      ensures forall v :: v in log ==> VisitFine(v)
    {
    }

    lemma {:induction false} InValid()
      requires Valid()
      ensures frontier.Valid() && Grounded(Fixed()) && Coherent(Fixed(), Now())
    {
    }

    /** A candidate without an unhandled child is complete. */
    method RetireCandidate(key: Path)
      requires Valid() && InScope(frontier.scope, key)
      modifies frontier
      ensures Valid() && Now() == Retired(old(Now()), RelOf(frontier.scope, key))
    {
      hide UnderClosed, Relative, OrParents, RowsClosed, ProvenKeys, LossKeys;
      frontier.MarkComplete(key);
    }
  }

  lemma {:induction false} SweptFewer(order: set<Path>, rel: Path)
    ensures forall k :: k in Swept(order, rel) ==> k in order
  {
  }

  lemma {:induction false} FirstIs(order: set<Path>, rel: Path)
    requires rel in order && forall k :: k in order ==> k == rel || Before(rel, k)
    ensures IsFirst(order, rel)
  {
  }

  /** The initial candidates. */
  ghost function Admitted(u: Setup, records: set<Path>, drawn: set<Path>): set<Path>
  {
    set k | k in Relative(u.scope, records) && !UnderClosed(k, u.proven + u.orClosed + Relative(u.scope, drawn))
  }

  /** An or-closed parent is a stored row. */
  lemma {:induction false} OrParentRow(rows: map<Path, Option<Outcome>>, scope: Path, rel: Path)
    requires RowsClosed(rows) && rel in OrParents(scope, LossKeys(rows))
    ensures scope + rel in rows
  {
    var k :| k in LossKeys(rows) && |k| % 2 == 1 && InScope(scope, k[..|k| - 1]) && RelOf(scope, k[..|k| - 1]) == rel;
    assert scope + rel == k[..|k| - 1];
  }

  lemma {:induction false} RelativeIs(scope: Path, keys: set<Path>)
    ensures forall k :: k in Relative(scope, keys) ==> scope + k in keys
    ensures forall k :: k in keys && InScope(scope, k) ==> RelOf(scope, k) in Relative(scope, keys)
  {
    forall k | k in Relative(scope, keys)
      ensures scope + k in keys
    {
      var key :| key in keys && InScope(scope, key) && RelOf(scope, key) == k;
      assert scope + k == key;
    }
  }
}
