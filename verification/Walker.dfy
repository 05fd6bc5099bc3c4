/** The reconstruction walk.  The snapshot map, the fill search's answers and the memory flag
    are arbitrary; nothing they say is believed without the rules agreeing. */
module Walker {
  import opened Game
  import opened Lists
  import opened Worker
  import opened Walk

  datatype Record = Record(key: nat, outcome: Outcome, depth: U32, best: Move)

  datatype Config = Config(fillBase: U32, fillDepthCap: U32, fillAttemptBudget: nat, fillTotalBudget: nat)

  datatype ExitReason = Complete | BudgetExhausted | Aborted

  /** One bounded fill search: its outcome, win depth and cost, why it stopped, and the solved
      entries its table holds afterwards. */
  datatype Fill = Fill(outcome: Outcome, winDepth: U32, evals: nat, exit: ExitReason, table: seq<Record>)

  datatype WalkError =
    | MemoryLimit | NotDecisive | WrongOutcome | RepetitionContext | NoHarvestedRecord | NoBestMove | IllegalBestMove
    | Unfillable | FillBudget | FillCensored | FillAborted

  type WalkResult<+T> = Result<T, WalkError>

  datatype Resolution = Hit(record: Record) | ClockHit(record: Record) | ClockMissDraw | Repetition | Absent

  datatype Stats = Stats(hit: nat, terminal: nat, clockHit: nat, clockMissDraw: nat, repetition: nat, absent: nat,
                         filled: nat, unfillable: nat, anomalies: nat, duplicateKeys: nat)
  {
    /** Each node counted once by its lookup class. */
    function Total(): nat { hit + terminal + clockHit + clockMissDraw + repetition + absent }
  }

  /** Zobrist keys: `board` leaves the clock out, `clock(b, c)` puts clock `c` back in. */
  datatype Keys = Keys(board: Position -> nat, clock: (nat, nat) -> nat)

  const CLOCKS := 101

  function NextFillBound(bound: U32, cap: U32): (b: U32)
    ensures 0 < bound < cap ==> bound < b <= cap
  {
    var doubled: U32 := if 2 * bound > U32_MAX then U32_MAX else 2 * bound;
    if doubled < cap then doubled else cap
  }

  /** First-wins map of the snapshot's records. */
  method BuildSolvedMap(solved: seq<Record>) returns (m: map<nat, Record>, duplicates: nat)
    ensures forall k :: k in m <==> exists i :: 0 <= i < |solved| && solved[i].key == k
    ensures forall k :: k in m ==> exists i :: 0 <= i < |solved| && solved[i] == m[k] && solved[i].key == k
                                           && forall j :: 0 <= j < i ==> solved[j].key != k
    ensures duplicates + |m| == |solved|
  {
    m, duplicates := map[], 0;
    for n := 0 to |solved|
      invariant forall k :: k in m <==> exists i :: 0 <= i < n && solved[i].key == k
      invariant forall k :: k in m ==> exists i :: 0 <= i < n && solved[i] == m[k] && solved[i].key == k
                                             && forall j :: 0 <= j < i ==> solved[j].key != k
      invariant duplicates + |m| == n
    {
      var key := solved[n].key;
      if key in m {
        duplicates := duplicates + 1;
      } else {
        m := m[key := solved[n]];
      }
    }
  }

  /** `c` is the smallest clock under which the board has a record. */
  ghost predicate FirstClock(keys: Keys, m: map<nat, Record>, boardKey: nat, c: nat)
  {
    c < CLOCKS && keys.clock(boardKey, c) in m && forall d: nat :: d < c ==> keys.clock(boardKey, d) !in m
  }

  ghost predicate NoClock(keys: Keys, m: map<nat, Record>, boardKey: nat)
  {
    forall c: nat :: c < CLOCKS ==> keys.clock(boardKey, c) !in m
  }

  /** A record stored for the same board under any clock, smallest clock first. */
  method ClockScan(keys: Keys, m: map<nat, Record>, boardKey: nat) returns (r: Option<Record>)
    ensures r.None? <==> NoClock(keys, m, boardKey)
    ensures r.Some? ==> exists c: nat :: FirstClock(keys, m, boardKey, c) && m[keys.clock(boardKey, c)] == r.value
  {
    for c := 0 to CLOCKS
      invariant forall d: nat :: d < c ==> keys.clock(boardKey, d) !in m
    {
      if keys.clock(boardKey, c) in m {
        assert FirstClock(keys, m, boardKey, c);
        return Some(m[keys.clock(boardKey, c)]);
      }
    }
    r := None;
  }

  /** Exact hit first, then any clock (a drawn record only marks a hole), then the repetition
      context, else absent. */
  method ClassifyNode(keys: Keys, m: map<nat, Record>, hash: nat, boardKey: nat, repOnPrefix: bool)
    returns (r: Resolution)
    ensures r.Hit? <==> hash in m
    ensures r.Hit? ==> r.record == m[hash]
    ensures (r.Repetition? || r.Absent?) <==> hash !in m && NoClock(keys, m, boardKey)
    ensures r.Repetition? ==> repOnPrefix
    ensures r.Absent? ==> !repOnPrefix
    ensures r.ClockHit? ==>
              && r.record.outcome != Draw
              && exists c: nat :: FirstClock(keys, m, boardKey, c) && m[keys.clock(boardKey, c)] == r.record
    ensures r.ClockMissDraw? ==>
        exists c: nat :: FirstClock(keys, m, boardKey, c) && m[keys.clock(boardKey, c)].outcome == Draw
  {
    if hash in m {
      return Hit(m[hash]);
    }
    var scanned := ClockScan(keys, m, boardKey);
    if scanned.Some? {
      return if scanned.value.outcome == Draw then ClockMissDraw else ClockHit(scanned.value);
    }
    r := if repOnPrefix then Repetition else Absent;
  }

  /** The `i`-th bound a fill tries: doubling from `start`, never past `cap`. */
  function BoundAt(start: U32, cap: U32, i: nat): U32
  {
    if i == 0 then start else NextFillBound(BoundAt(start, cap, i - 1), cap)
  }

  /** A search that finished without finding a decision. */
  predicate Inconclusive(f: Fill) { f.outcome == Draw && f.exit == Complete }

  function FillStart(config: Config, parentDepth: Option<U32>): U32
  {
    Max(1, if parentDepth.Some? then parentDepth.value else config.fillBase)
  }

  function FillCap(config: Config, start: U32): U32 { Max(start, config.fillDepthCap) }

  class Walker {
    const g: Rules
    const keys: Keys
    const config: Config
    /** What the `i`-th fill search answers, and what the `i`-th look at the memory flag sees. */
    const fill: nat -> Fill
    const limited: nat -> bool
    ghost const rank: Position -> nat
    const pos: Board
    var known: map<nat, Record>
    var path: seq<Move>
    var prefix: seq<nat>
    var stats: Stats
    var fillEvals: nat
    var fills: nat
    var polls: nat
    var events: seq<Event>

    constructor (g: Rules, keys: Keys, config: Config, fill: nat -> Fill, limited: nat -> bool,
            ghost rank: Position -> nat, root: Position, solved: map<nat, Record>, duplicates: nat)
      requires g.Sane() && g.Ranked(rank)
      ensures Valid() && fresh(pos) && pos.cur == root && path == [] && events == [] && this.g == g && this.rank == rank
      ensures stats == Stats(0, 0, 0, 0, 0, 0, 0, 0, 0, duplicates)
    {
      this.g, this.keys, this.config, this.fill, this.limited, this.rank := g, keys, config, fill, limited, rank;
      pos := new Board(g, root);
      known, path, prefix := solved, [], [keys.board(root)];
      stats := Stats(0, 0, 0, 0, 0, 0, 0, 0, 0, duplicates);
      fillEvals, fills, polls, events := 0, 0, 0, [];
    }

    ghost predicate Valid()
      reads this, pos
    {
      && g.Sane() && g.Ranked(rank) && pos.g == g
      && |prefix| == |path| + 1 == |pos.undo| + 1
    }

    /** Where the walk stands: board, undo stack, path and repetition prefix. */
    ghost function Place(): (Position, seq<Position>, seq<Move>, seq<nat>)
      reads this, pos
    {
      (pos.cur, pos.undo, path, prefix)
    }

    method Emit(outcome: Outcome, depth: U32)
      modifies this`events
      ensures events == old(events) + [Event(path, g.hash(pos.cur), outcome, depth)]
    {
      events := events + [Event(path, g.hash(pos.cur), outcome, depth)];
    }

    /** The resolution against what the parent's proof requires. */
    method Expect(expected: Option<Outcome>, resolved: Outcome) returns (r: WalkResult<()>)
      modifies this`stats
      ensures r.Ok? <==> if expected.None? then resolved != Draw else resolved == expected.value
      ensures r.Err? ==> r.error == if expected.None? then NotDecisive else WrongOutcome
      ensures stats ==
              if r.Err? && expected.Some? then old(stats).(anomalies := old(stats).anomalies + 1) else old(stats)
    {
      if expected.None? {
        return if resolved == Draw then Err(NotDecisive) else Ok(());
      }
      if expected.value == resolved {
        return Ok(());
      }
      stats := stats.(anomalies := stats.anomalies + 1);
      r := Err(WrongOutcome);
    }

    /** The fill's solved entries join the map; entries already there win. */
    method Harvest(table: seq<Record>)
      modifies this`known
      ensures forall k :: k in old(known) ==> k in known && known[k] == old(known)[k]
      ensures forall k :: k in known <==> k in old(known) || exists i :: 0 <= i < |table| && table[i].key == k
      ensures forall k :: k in known && k !in old(known) ==> exists i :: 0 <= i < |table| && table[i] == known[k]
    {
      for i := 0 to |table|
        invariant forall k :: k in old(known) ==> k in known && known[k] == old(known)[k]
        invariant forall k :: k in known <==> k in old(known) || exists j :: 0 <= j < i && table[j].key == k
        invariant forall k :: k in known && k !in old(known) ==> exists j :: 0 <= j < i && table[j] == known[k]
      {
        if table[i].key !in known {
          known := known[table[i].key := table[i]];
        }
      }
    }

    /** Iterative doubling from the parent's depth.  Only searches that finished without a
        decision raise the bound, and only one that finished at the cap makes a hole
        unfillable. */
    method FillHole(expected: Option<Outcome>, parentDepth: Option<U32>) returns (r: WalkResult<(Outcome, U32)>)
      modifies this`stats, this`fillEvals, this`fills, this`known
      ensures old(fills) <= fills
      ensures forall i :: old(fills) <= i < fills - 1 ==> Inconclusive(fill(i))
      ensures r == Err(Unfillable) || r.Ok? ==> old(fills) < fills
      ensures r == Err(Unfillable) ==>
                var start := FillStart(config, parentDepth);
                Inconclusive(fill(fills - 1))
                && BoundAt(start, FillCap(config, start), fills - 1 - old(fills)) == FillCap(config, start)
      ensures r.Ok? ==>
                var start := FillStart(config, parentDepth);
                var last := fill(fills - 1);
                && last.outcome != Draw && (expected.Some? ==> last.outcome == expected.value)
                && r.value == (last.outcome, if last.outcome == Win then last.winDepth
                                             else BoundAt(start, FillCap(config, start), fills - 1 - old(fills)))
      ensures stats.Total() == old(stats.Total())
      ensures forall k :: k in old(known) ==> k in known && known[k] == old(known)[k]
    {
      var start := FillStart(config, parentDepth);
      var cap := FillCap(config, start);
      var bound := start;
      while true
        invariant old(fills) <= fills && start <= bound <= cap && bound == BoundAt(start, cap, fills - old(fills))
        invariant forall i :: old(fills) <= i < fills ==> Inconclusive(fill(i))
        invariant stats == old(stats) && known == old(known)
        decreases cap - bound
      {
        if config.fillTotalBudget > 0 && fillEvals >= config.fillTotalBudget {
          return Err(FillBudget);
        }
        var answer := fill(fills);
        fills := fills + 1;
        fillEvals := fillEvals + answer.evals;
        if answer.outcome == Draw {
          match answer.exit {
            case Complete =>
              if bound >= cap {
                stats := stats.(unfillable := stats.unfillable + 1);
                return Err(Unfillable);
              }
              bound := NextFillBound(bound, cap);
            case BudgetExhausted => return Err(FillCensored);
            case Aborted => return Err(FillAborted);
          }
        } else {
          if expected.Some? && answer.outcome != expected.value {
            stats := stats.(anomalies := stats.anomalies + 1);
            return Err(WrongOutcome);
          }
          Harvest(answer.table);
          stats := stats.(filled := stats.filled + 1);
          return Ok((answer.outcome, if answer.outcome == Win then answer.winDepth else bound));
        }
      }
    }

    /** Lookup classes 2 to 5: the outcome, depth and best move a node is resolved to. */
    method Resolve(expected: Option<Outcome>, parentDepth: Option<U32>) returns (r: WalkResult<(Outcome, U32, Move)>)
      requires Valid() && expected != Some(Draw)
      modifies this`stats, this`fillEvals, this`fills, this`known
      ensures Valid()
      ensures r.Ok? ==> r.value.0 != Draw && (expected.Some? ==> r.value.0 == expected.value)
      ensures stats.Total() == old(stats.Total()) + 1
    {
      var hash := g.hash(pos.cur);
      var boardKey := keys.board(pos.cur);
      var repOnPrefix := boardKey in prefix[..|prefix| - 1];
      var resolution := ClassifyNode(keys, known, hash, boardKey, repOnPrefix);
      if resolution.Hit? || resolution.ClockHit? {
        stats := if resolution.Hit? then stats.(hit := stats.hit + 1) else stats.(clockHit := stats.clockHit + 1);
        var record := resolution.record;
        var ok := Expect(expected, record.outcome);
        return if ok.Err? then Err(ok.error) else Ok((record.outcome, record.depth, record.best));
      }
      if resolution.Repetition? {
        stats := stats.(repetition := stats.repetition + 1, anomalies := stats.anomalies + 1);
        return Err(RepetitionContext);
      }
      stats := if resolution.Absent? then stats.(absent := stats.absent + 1)
        else stats.(clockMissDraw := stats.clockMissDraw + 1);
      var filled := FillHole(expected, parentDepth);
      if filled.Err? {
        return Err(filled.error);
      }
      if hash in known && known[hash].outcome == filled.value.0 {
        return Ok((filled.value.0, filled.value.1, known[hash].best));
      }
      stats := stats.(anomalies := stats.anomalies + 1);
      r := Err(NoHarvestedRecord);
    }

    /** What a finished visit leaves: on success a proof term whose events were appended in
        preorder and counted once each; on failure only a longer event list. */
    ghost predicate Walked(before: seq<Event>, total: nat, expected: Option<Outcome>, r: WalkResult<Outcome>, t: Term)
      reads this, pos
    {
      && before <= events
      && (r.Ok? ==>
            && Proves(g, pos.cur, t) && t.outcome == r.value && t.mv == LastMove(path)
            && (expected.Some? ==> r.value == expected.value)
            && events == before + Preorder(g, pos.cur, path, t)
            && stats.Total() == total + |events| - |before|)
      && (r.Err? ==> total + |events| - |before| <= stats.Total() <= total + |events| - |before| + 1)
    }

    /** Resolve the node at the current position and walk its proven subtree. */
    method Visit(expected: Option<Outcome>, parentDepth: Option<U32>) returns (r: WalkResult<Outcome>, ghost t: Term)
      requires Valid() && expected != Some(Draw)
      modifies this, pos
      ensures Valid() && Place() == old(Place())
      ensures Walked(old(events), old(stats.Total()), expected, r, t)
      decreases rank(pos.cur), 2
    {
      t := Term(LastMove(path), Draw, 0, []);
      polls := polls + 1;
      if limited(polls - 1) {
        return Err(MemoryLimit), t;
      }
      var legal := g.legal(pos.cur);
      if g.terminal(pos.cur).Some? {
        var terminal := g.terminal(pos.cur).value;
        stats := stats.(terminal := stats.terminal + 1);
        var ok := Expect(expected, terminal);
        if ok.Err? {
          return Err(ok.error), t;
        }
        Emit(terminal, 0);
        t := t.(outcome := terminal);
        return Ok(terminal), t;
      }
      var resolved := Resolve(expected, parentDepth);
      if resolved.Err? {
        return Err(resolved.error), t;
      }
      var (outcome, depth, best) := resolved.value;
      Emit(outcome, depth);
      if outcome == Win {
        r, t := DescendBest(best, depth, old(events), old(stats.Total()));
      } else {
        r, t := ExpandAll(legal, depth, old(events), old(stats.Total()));
      }
    }

    /** Validate a Win node's best move and descend into it. */
    method DescendBest(best: Move, depth: U32, ghost before: seq<Event>, ghost total: nat)
      returns (r: WalkResult<Outcome>, ghost t: Term)
      requires Valid() && g.terminal(pos.cur).None?
      requires events == before + [Event(path, g.hash(pos.cur), Win, depth)] && stats.Total() == total + 1
      modifies this, pos
      ensures Valid() && Place() == old(Place())
      ensures Walked(before, total, Some(Win), r, t)
      decreases rank(pos.cur), 1
    {
      t := Term(LastMove(path), Win, depth, []);
      if best == NO_MOVE {
        stats := stats.(anomalies := stats.anomalies + 1);
        return Err(NoBestMove), t;
      }
      if best !in g.legal(pos.cur) {
        stats := stats.(anomalies := stats.anomalies + 1);
        return Err(IllegalBestMove), t;
      }
      ghost var kid: Term;
      r, kid := Step(best, Loss, depth);
      if r.Ok? {
        Descended(g, pos.cur, path, depth, kid, before, events);
        t := t.(kids := [kid]);
        r := Ok(Win);
      }
    }

    /** Walk every legal reply of a Loss node. */
    method ExpandAll(legal: seq<Move>, depth: U32, ghost before: seq<Event>, ghost total: nat)
      returns (r: WalkResult<Outcome>, ghost t: Term)
      requires Valid() && g.terminal(pos.cur).None? && legal == g.legal(pos.cur)
      requires events == before + [Event(path, g.hash(pos.cur), Loss, depth)] && stats.Total() == total + 1
      modifies this, pos
      ensures Valid() && Place() == old(Place())
      ensures Walked(before, total, Some(Loss), r, t)
      decreases rank(pos.cur), 1
    {
      hide Proves, Preorder, PreorderKids;
      t := Term(LastMove(path), Loss, depth, []);
      ExpandStart(g, pos.cur, path, depth, before);
      for i := 0 to |legal|
        invariant Valid() && Place() == old(Place()) && before <= events
        invariant Expanding(g, pos.cur, path, depth, t, i, before, events)
        invariant stats.Total() == total + |events| - |before|
      {
        ghost var kid: Term;
        ghost var was := events;
        var stepped;
        stepped, kid := Step(legal[i], Win, depth);
        if stepped.Err? {
          return stepped, t;
        }
        ExpandMore(g, pos.cur, path, depth, t, i, before, was, kid, events);
        t := t.(kids := t.kids + [kid]);
      }
      ExpandDone(g, pos.cur, path, depth, t, before, events);
      r := Ok(Loss);
    }

    /** Play `mv`, visit the child, and undo. */
    method Step(mv: Move, childExpected: Outcome, parentDepth: U32) returns (r: WalkResult<Outcome>, ghost kid: Term)
      requires Valid() && mv in g.legal(pos.cur) && childExpected != Draw
      modifies this, pos
      ensures Valid() && Place() == old(Place())
      ensures old(events) <= events
      ensures r.Ok? ==>
                && Proves(g, g.play(pos.cur, mv), kid) && kid.outcome == childExpected && kid.mv == mv
                && events == old(events) + Preorder(g, g.play(pos.cur, mv), path + [mv], kid)
                && stats.Total() == old(stats.Total()) + |events| - |old(events)|
      ensures r.Err? ==>
                var seen := old(stats.Total()) + |events| - |old(events)|; seen <= stats.Total() <= seen + 1
      decreases rank(pos.cur), 0
    {
      RankDown(g, rank, pos.cur, mv);
      path := path + [mv];
      pos.DoMove(mv);
      prefix := prefix + [keys.board(pos.cur)];
      r, kid := Visit(Some(childExpected), Some(parentDepth));
      prefix := Front(prefix);
      pos.UndoMove();
      path := Front(path);
    }
  }
}
