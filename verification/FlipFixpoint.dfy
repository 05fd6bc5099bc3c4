/** The converged claim map: a Jacobi iteration over all open rows, shown to be the bottom-up
    recursion over the path tree. */
module FlipFixpoint {
  import opened Game
  import opened Lists
  import opened Flip

  datatype FlipError = IllegalPath | DroppedClaim | RaisedBound | NotConverged | NoRootRow
                     | RecursionLimit | NotARow | ProvenRow | TerminalRow | MissingReply | NoWitness | Mismatch

  type FlipResult<+T> = Result<T, FlipError>

  // ----- the iteration -----

  function Classify(g: Rules, root: Position, s: Store, path: Path, claims: Claims): Option<Claim>
  {
    Summarise(Statuses(s, path, g.legal(Game.Replay(g, root, path)), claims))
  }

  /** One pass, from the previous pass's claims only. */
  function Pass(g: Rules, root: Position, s: Store, claims: Claims): Claims
  {
    map p | p in s.byPath && s.HasOpen(p)
    && Classify(g, root, s, p, claims).Some? :: Classify(g, root, s, p, claims).value
  }

  function State(g: Rules, root: Position, s: Store, k: nat): Claims
  {
    if k == 0 then map[] else Pass(g, root, s, State(g, root, s, k - 1))
  }

  function Lookup(claims: Claims, p: Path): Option<Claim> { if p in claims then Some(claims[p]) else None }

  lemma {:induction false} StateStep(g: Rules, root: Position, s: Store, k: nat)
    ensures State(g, root, s, k + 1) == Pass(g, root, s, State(g, root, s, k))
  {
    hide Pass;
  }

  lemma {:induction false} PassAt(g: Rules, root: Position, s: Store, claims: Claims, p: Path)
    requires s.HasOpen(p)
    ensures Lookup(Pass(g, root, s, claims), p) == Classify(g, root, s, p, claims)
  {
    hide Classify;
  }

  // ----- the bottom-up recursion -----

  /** `q` lies strictly below `p`. */
  predicate Below(p: Path, q: Path) { |p| < |q| && q[..|p|] == p }

  ghost function OpenBelow(s: Store, p: Path): set<nat>
  {
    set i | 0 <= i < |s.rows| && s.rows[i].outcome.None? && Below(p, s.rows[i].path)
  }

  ghost function OpenRows(s: Store): set<nat>
  {
    set i | 0 <= i < |s.rows| && s.rows[i].outcome.None?
  }

  lemma {:induction false} Smaller<T>(a: set<T>, b: set<T>, x: T)
    requires a <= b && x in b && x !in a
    ensures |a| < |b|
  {
    var rest := b - {x};
    assert a <= rest;
    SubsetSize(a, rest);
  }

  lemma {:induction false} KidBelow(s: Store, p: Path, m: Move)
    requires s.Indexed() && s.HasOpen(p + [m])
    ensures |OpenBelow(s, p + [m])| < |OpenBelow(s, p)|
  {
    var key := p + [m];
    var i := s.byPath[key];
    forall j | j in OpenBelow(s, key)
      ensures j in OpenBelow(s, p)
    {
      var q := s.rows[j].path;
      assert q[..|p|] == q[..|key|][..|p|] == p;
    }
    assert key[..|p|] == p;
    assert i in OpenBelow(s, p) && i !in OpenBelow(s, key);
    Smaller(OpenBelow(s, key), OpenBelow(s, p), i);
  }

  lemma {:induction false} BelowOpen(s: Store, p: Path)
    requires s.Indexed() && s.HasOpen(p)
    ensures |OpenBelow(s, p)| < |OpenRows(s)|
  {
    Smaller(OpenBelow(s, p), OpenRows(s), s.byPath[p]);
  }

  /** The claim of an open row, straight from its replies' rows and claims. */
  ghost function Direct(g: Rules, root: Position, s: Store, p: Path): Option<Claim>
    requires s.Indexed() && s.HasOpen(p)
    decreases |OpenBelow(s, p)|, 1
  {
    var moves := g.legal(Game.Replay(g, root, p));
    Summarise(seq(|moves|, i requires 0 <= i < |moves| => DirectReply(g, root, s, p, moves[i])))
  }

  ghost function DirectReply(g: Rules, root: Position, s: Store, p: Path, m: Move): Status
    requires s.Indexed()
    decreases |OpenBelow(s, p)|, 0
  {
    var key := p + [m];
    if key !in s.byPath then Unresolved
    else if s.rows[s.byPath[key]].outcome.Some? then ReplyStatus(s, key, map[])
    else
      KidBelow(s, p, m);
      var d := Direct(g, root, s, key);
      if d.Some? then Resolved(!d.value.stmWin, d.value.bound, d.value.exact) else Unresolved
  }

  /** The claims of all open rows. */
  ghost function DirectClaims(g: Rules, root: Position, s: Store): Claims
    requires s.Indexed()
  {
    map p | p in s.byPath && s.HasOpen(p) && Direct(g, root, s, p).Some? :: Direct(g, root, s, p).value
  }

  lemma {:induction false} SameStatus(g: Rules, root: Position, s: Store, p: Path, m: Move, claims: Claims)
    requires s.Indexed() && (forall q :: q in claims ==> s.HasOpen(q))
    requires s.HasOpen(p + [m]) ==> Lookup(claims, p + [m]) == Direct(g, root, s, p + [m])
    ensures ReplyStatus(s, p + [m], claims) == DirectReply(g, root, s, p, m)
  {
  }

  lemma {:induction false} StateOpen(g: Rules, root: Position, s: Store, k: nat)
    ensures forall q :: q in State(g, root, s, k) ==> s.HasOpen(q)
  {
    hide Classify;
  }

  /** Classifying from settled replies gives the bottom-up claim. */
  lemma {:induction false} ClassifySettled(g: Rules, root: Position, s: Store, p: Path, claims: Claims)
    requires s.Indexed() && s.HasOpen(p) && (forall q :: q in claims ==> s.HasOpen(q))
    requires forall m :: m in g.legal(Game.Replay(g, root, p)) && s.HasOpen(p + [m]) ==>
               Lookup(claims, p + [m]) == Direct(g, root, s, p + [m])
    ensures Classify(g, root, s, p, claims) == Direct(g, root, s, p)
  {
    var moves := g.legal(Game.Replay(g, root, p));
    forall i | 0 <= i < |moves|
      ensures ReplyStatus(s, p + [moves[i]], claims) == DirectReply(g, root, s, p, moves[i])
    {
      SameStatus(g, root, s, p, moves[i], claims);
    }
    assert Statuses(s, p, moves, claims) == seq(|moves|,
        i requires 0 <= i < |moves| => DirectReply(g, root, s, p, moves[i]));
  }

  /** After `k` passes a row with fewer than `k` open rows below it has its final claim,
      metadata included. */
  lemma {:induction false} Settled(g: Rules, root: Position, s: Store, k: nat, p: Path)
    requires s.Indexed() && s.HasOpen(p) && |OpenBelow(s, p)| < k
    ensures Lookup(State(g, root, s, k), p) == Direct(g, root, s, p)
    decreases k
  {
    hide State, Pass, Classify, Direct, Game.Replay;
    var prev := State(g, root, s, k - 1);
    StateOpen(g, root, s, k - 1);
    StateStep(g, root, s, k - 1);
    PassAt(g, root, s, prev, p);
    forall m | m in g.legal(Game.Replay(g, root, p)) && s.HasOpen(p + [m])
      ensures Lookup(prev, p + [m]) == Direct(g, root, s, p + [m])
    {
      KidBelow(s, p, m);
      Settled(g, root, s, k - 1, p + [m]);
    }
    ClassifySettled(g, root, s, p, prev);
  }

  /** After as many passes as there are open rows the claims are the bottom-up ones. */
  lemma {:induction false} Converged(g: Rules, root: Position, s: Store, k: nat)
    requires s.Indexed() && |OpenRows(s)| <= k
    ensures State(g, root, s, k) == DirectClaims(g, root, s)
  {
    hide State, Direct;
    var state := State(g, root, s, k);
    StateOpen(g, root, s, k);
    forall p | p in s.byPath && s.HasOpen(p)
      ensures Lookup(state, p) == Direct(g, root, s, p)
    {
      BelowOpen(s, p);
      Settled(g, root, s, k, p);
    }
  }

  // ----- monotonicity -----

  ghost predicate SharperMap(a: Claims, b: Claims)
  {
    forall p :: p in a ==> SharperClaim(Some(a[p]), Lookup(b, p))
  }

  lemma {:induction false} PassMonotone(g: Rules, root: Position, s: Store, a: Claims, b: Claims)
    requires SharperMap(a, b)
    ensures SharperMap(Pass(g, root, s, a), Pass(g, root, s, b))
  {
    forall p | p in Pass(g, root, s, a)
      ensures SharperClaim(Classify(g, root, s, p, a), Classify(g, root, s, p, b))
    {
      var moves := g.legal(Game.Replay(g, root, p));
      var x := Statuses(s, p, moves, a);
      var y := Statuses(s, p, moves, b);
      forall i | 0 <= i < |x|
        ensures Sharper(x[i], y[i])
      {
        assert p + [moves[i]] in a ==> SharperClaim(Some(a[p + [moves[i]]]), Lookup(b, p + [moves[i]]));
      }
      SummariseMonotone(x, y);
    }
  }

  lemma {:induction false} StateStart(g: Rules, root: Position, s: Store)
    ensures State(g, root, s, 0) == map[]
  {
  }

  /** From pass to pass no claim is dropped, no polarity changes and no bound grows. */
  lemma {:induction false} StateMonotone(g: Rules, root: Position, s: Store, k: nat)
    ensures SharperMap(State(g, root, s, k), State(g, root, s, k + 1))
  {
    hide State, Pass;
    StateStart(g, root, s);
    if k > 0 {
      StateStep(g, root, s, k - 1);
      StateStep(g, root, s, k);
      StateMonotone(g, root, s, k - 1);
      PassMonotone(g, root, s, State(g, root, s, k - 1), State(g, root, s, k));
    }
  }

  // ----- the analysis -----

  /** Every claim once, with the pass that first derived it. */
  ghost predicate OrderOk(g: Rules, root: Position, s: Store, order: seq<(Path, nat)>, state: Claims, rounds: nat)
  {
    && (forall i :: 0 <= i < |order| ==> FirstDerived(g, root, s, order[i], state, rounds))
    && (forall i, j :: 0 <= i < j < |order| ==> order[i].0 != order[j].0)
    && (forall p :: p in state ==> exists i :: 0 <= i < |order| && order[i].0 == p)
  }

  ghost predicate FirstDerived(g: Rules, root: Position, s: Store, e: (Path, nat), state: Claims, rounds: nat)
  {
    e.0 in state && 0 < e.1 <= rounds && e.0 in State(g, root, s, e.1) && e.0 !in State(g, root, s, e.1 - 1)
  }

  class Analysis {
    const g: Rules
    const root: Position
    const s: Store
    var claims: Claims
    var order: seq<(Path, nat)>
    var rounds: nat

    constructor (g: Rules, root: Position, s: Store)
      requires s.Indexed()
      ensures this.g == g && this.root == root && this.s == s && claims == map[] && order == []
    {
      this.g, this.root, this.s := g, root, s;
      claims, order, rounds := map[], [], 0;
    }

    method CountOpen() returns (n: nat)
      requires s.Indexed()
      ensures n == |OpenRows(s)|
    {
      n := 0;
      ghost var seen: set<nat> := {};
      for i := 0 to |s.rows|
        invariant seen == (set j | 0 <= j < i && s.rows[j].outcome.None?) && n == |seen|
      {
        if s.rows[i].outcome.None? {
          n := n + 1;
          seen := seen + {i};
        }
      }
      assert seen == OpenRows(s);
    }

    /** Classify one open row from the previous pass's claims. */
    method ClassifyRow(path: Path, prev: Claims) returns (r: FlipResult<Option<Claim>>)
      ensures r.Err? <==> !PathLegal(g, root, path)
      ensures r.Err? ==> r.error == IllegalPath
      ensures r.Ok? ==> r.value == Classify(g, root, s, path, prev)
    {
      var replayed := ReplayPath(g, root, path);
      if replayed.None? {
        return Err(IllegalPath);
      }
      var moves := g.legal(replayed.value);
      ghost var ss := Statuses(s, path, moves, prev);
      if moves == [] {
        return Ok(None);
      }
      var census := Census([], 0, true, 0);
      for i := 0 to |moves|
        invariant census == Count(ss, i)
      {
        match ReplyStatus(s, path + [moves[i]], prev) {
          case Resolved(loss, bound, exact) =>
            census := census.(maxBound := Max(census.maxBound, bound), allExact := census.allExact && exact);
            if loss {
              census := census.(witnesses := census.witnesses + [(bound, exact)]);
            }
          case Unresolved =>
            census := census.(unresolved := census.unresolved + 1);
        }
      }
      r := Ok(Conclude(census));
    }

    /** One pass over the open rows. */
    method NextState(prev: Claims) returns (r: FlipResult<Claims>)
      requires s.Indexed()
      ensures r.Err? <==>
                exists i :: 0 <= i < |s.rows| && s.rows[i].outcome.None? && !PathLegal(g, root, s.rows[i].path)
      ensures r.Err? ==> r.error == IllegalPath
      ensures r.Ok? ==> r.value == Pass(g, root, s, prev)
    {
      hide Classify, PathLegal;
      var next: Claims := map[];
      for i := 0 to |s.rows|
        invariant forall p :: p in next <==>
                    p in s.byPath && s.byPath[p] < i && s.HasOpen(p) && Classify(g, root, s, p, prev).Some?
        invariant forall p :: p in next ==> Some(next[p]) == Classify(g, root, s, p, prev)
        invariant forall j :: 0 <= j < i && s.rows[j].outcome.None? ==> PathLegal(g, root, s.rows[j].path)
      {
        if s.rows[i].outcome.None? {
          var path := s.rows[i].path;
          var claim := ClassifyRow(path, prev);
          if claim.Err? {
            return Err(claim.error);
          }
          if claim.value.Some? {
            next := next[path := claim.value.value];
          }
        }
      }
      r := Ok(next);
    }

    /** The monotonicity tripwire. */
    method CheckMonotone(state: Claims, next: Claims) returns (r: Option<FlipError>)
      ensures r.None? <==> forall p :: p in state ==> p in next && next[p].bound <= state[p].bound
      ensures r.Some? ==> r.value == DroppedClaim || r.value == RaisedBound
    {
      var left := state.Keys;
      while left != {}
        invariant left <= state.Keys
        invariant forall p :: p in state && p !in left ==> p in next && next[p].bound <= state[p].bound
        decreases left
      {
        var p :| p in left;
        if p !in next {
          return Some(DroppedClaim);
        }
        if next[p].bound > state[p].bound {
          return Some(RaisedBound);
        }
        left := left - {p};
      }
      r := None;
    }

    /** Record the claims first derived in this pass, in no particular order. */
    method RecordNew(state: Claims, next: Claims, round: nat)
      requires round > 0 && state == State(g, root, s, round - 1) && next == State(g, root, s, round)
      requires SharperMap(state, next) && OrderOk(g, root, s, order, state, round - 1)
      modifies this`order
      ensures OrderOk(g, root, s, order, next, round)
    {
      var added := next.Keys - state.Keys;
      hide State;
      assert forall p :: p in state ==> SharperClaim(Some(state[p]), Lookup(next, p));
      while added != {}
        invariant added <= next.Keys - state.Keys
        invariant forall i :: 0 <= i < |order| ==>
                    FirstDerived(g, root, s, order[i], next, round) && order[i].0 !in added
        invariant forall i, j :: 0 <= i < j < |order| ==> order[i].0 != order[j].0
        invariant forall p :: p in next && p !in added ==> exists i :: 0 <= i < |order| && order[i].0 == p
        decreases added
      {
        var p :| p in added;
        ghost var was := order;
        order := order + [(p, round)];
        added := added - {p};
        Appended(was, (p, round), next, added);
      }
    }

    /** Converge the claim map.  With replayable rows none of the defect errors can occur, the
        number of passes is at most one more than the number of open rows, and the result is
        the bottom-up claim map. */
    method Solve() returns (r: FlipResult<nat>)
      requires s.Indexed()
      modifies this
      ensures r.Err? <==>
                exists i :: 0 <= i < |s.rows| && s.rows[i].outcome.None? && !PathLegal(g, root, s.rows[i].path)
      ensures r.Err? ==> r.error == IllegalPath
      ensures r.Ok? ==>
                && claims == DirectClaims(g, root, s) && rounds == r.value <= |OpenRows(s)| + 1
                && OrderOk(g, root, s, order, claims, rounds)
    {
      hide State, Pass, DirectClaims, SharperMap, OrderOk, PathLegal;
      StateStart(g, root, s);
      var open := CountOpen();
      var ceiling := open + 8;
      var state: Claims := map[];
      order := [];
      EmptyOrder(g, root, s);
      var n := 0;
      while true
        invariant n <= open && state == State(g, root, s, n) && OrderOk(g, root, s, order, state, n)
        decreases open - n
      {
        n := n + 1;
        var next := NextState(state);
        if next.Err? {
          return Err(next.error);
        }
        StateStep(g, root, s, n - 1);
        StateMonotone(g, root, s, n - 1);
        NoTrip(state, next.value);
        var trip := CheckMonotone(state, next.value);
        if trip.Some? {
          assert false; // the defect tripwire
        }
        RecordNew(state, next.value, n);
        if n > open {
          Converged(g, root, s, n - 1);
          Converged(g, root, s, n);
        }
        if next.value == state {
          FixedIsDirect(g, root, s, n - 1);
          claims, rounds := state, n;
          return Ok(n);
        }
        if n >= ceiling {
          assert false; // the convergence tripwire
        }
        state := next.value;
      }
    }
  }

  lemma {:induction false} Appended(order: seq<(Path, nat)>, e: (Path, nat), next: Claims, added: set<Path>)
    requires forall p :: p in next && p !in added + {e.0} ==> exists i :: 0 <= i < |order| && order[i].0 == p
    ensures forall p :: p in next && p !in added ==> exists i :: 0 <= i < |order + [e]| && (order + [e])[i].0 == p
  {
    var longer := order + [e];
    forall p | p in next && p !in added
      ensures exists i :: 0 <= i < |longer| && longer[i].0 == p
    {
      if p == e.0 {
        assert longer[|order|].0 == p;
      } else {
        var i :| 0 <= i < |order| && order[i].0 == p;
        assert longer[i].0 == p;
      }
    }
  }

  lemma {:induction false} EmptyOrder(g: Rules, root: Position, s: Store)
    ensures OrderOk(g, root, s, [], map[], 0)
  {
  }

  lemma {:induction false} NoTrip(a: Claims, b: Claims)
    requires SharperMap(a, b)
    ensures forall p :: p in a ==> p in b && b[p].bound <= a[p].bound
  {
    forall p | p in a
      ensures p in b && b[p].bound <= a[p].bound
    {
      assert SharperClaim(Some(a[p]), Lookup(b, p));
    }
  }

  /** A pass that changes nothing has converged for good. */
  lemma {:induction false} FixedIsDirect(g: Rules, root: Position, s: Store, k: nat)
    requires s.Indexed() && State(g, root, s, k) == State(g, root, s, k + 1)
    ensures State(g, root, s, k) == DirectClaims(g, root, s)
  {
    hide State, DirectClaims;
    FixedStays(g, root, s, k, |OpenRows(s)|);
    Converged(g, root, s, k + |OpenRows(s)|);
  }

  lemma {:induction false} FixedStays(g: Rules, root: Position, s: Store, k: nat, n: nat)
    requires State(g, root, s, k) == State(g, root, s, k + 1)
    ensures State(g, root, s, k + n) == State(g, root, s, k)
  {
    hide State, Pass;
    if n > 0 {
      FixedStays(g, root, s, k, n - 1);
      StateStep(g, root, s, k + n - 1);
      StateStep(g, root, s, k);
    }
  }
}
