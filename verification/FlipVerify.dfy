/** Two independent reasons to believe a flip: the fixpoint is sound, and the recursive verifier
    is sound whatever claim map it is given and accepts what the fixpoint derived. */
module FlipVerify {
  import opened Game
  import opened Lists
  import opened Flip
  import opened FlipFixpoint

  const MAX_DEPTH := 200

  /** The stored proven rows are true and decisive. */
  ghost predicate RowsTrue(g: Rules, root: Position, s: Store)
  {
    forall i :: 0 <= i < |s.rows| ==> RowTrue(g, root, s.rows[i])
  }

  ghost predicate RowTrue(g: Rules, root: Position, r: Row)
  {
    r.outcome.Some? ==> r.outcome != Some(Draw) && ClaimTrue(g, Game.Replay(g, root, r.path), r.outcome.value, Bound(r))
  }

  /** No open row sits on a position that the rules have already ended. */
  ghost predicate OpenLive(g: Rules, root: Position, s: Store)
  {
    forall i :: 0 <= i < |s.rows| && s.rows[i].outcome.None? ==> g.terminal(Game.Replay(g, root, s.rows[i].path)).None?
  }

  ghost predicate TrueAt(g: Rules, root: Position, p: Path, c: Claim)
  {
    ClaimTrue(g, Game.Replay(g, root, p), c.Value(), c.bound)
  }

  lemma {:induction false} RowStatusTrue(g: Rules, root: Position, s: Store, p: Path, m: Move, claims: Claims)
    requires s.Indexed() && RowsTrue(g, root, s)
    requires p + [m] in s.byPath && s.rows[s.byPath[p + [m]]].outcome.Some?
    ensures StatusTrue(g, g.play(Game.Replay(g, root, p), m), ReplyStatus(s, p + [m], claims))
  {
    ReplaySnoc(g, root, p, m);
    assert RowTrue(g, root, s.rows[s.byPath[p + [m]]]);
  }

  // ----- the fixpoint is sound -----

  /** Every claim the bottom-up recursion, and so the fixpoint, makes is true. */
  lemma {:induction false} DirectSound(g: Rules, root: Position, s: Store, p: Path)
    requires s.Indexed() && RowsTrue(g, root, s) && OpenLive(g, root, s) && s.HasOpen(p)
    ensures Direct(g, root, s, p).Some? ==> TrueAt(g, root, p, Direct(g, root, s, p).value)
    decreases |OpenBelow(s, p)|
  {
    hide RowsTrue, ClaimTrue, Summarise;
    var here := Game.Replay(g, root, p);
    var moves := g.legal(here);
    var ss := seq(|moves|, i requires 0 <= i < |moves| => DirectReply(g, root, s, p, moves[i]));
    forall i | 0 <= i < |ss|
      ensures StatusTrue(g, g.play(here, moves[i]), ss[i])
    {
      var key := p + [moves[i]];
      if s.HasOpen(key) {
        KidBelow(s, p, moves[i]);
        DirectSound(g, root, s, key);
        ReplaySnoc(g, root, p, moves[i]);
      } else if key in s.byPath {
        RowStatusTrue(g, root, s, p, moves[i], map[]);
      }
    }
    SummariseSound(g, here, ss);
  }

  // ----- the verifier -----

  /** The claim a reply's status rests on, if it is an implied one. */
  function Implied(s: Store, key: Path, claims: Claims): bool
  {
    !(key in s.byPath && s.byPath[key] < |s.rows| && s.rows[s.byPath[key]].outcome.Some?) && key in claims
  }

  /** The verifier recurses into every implied reply of a loss claim and into the implied loss
      witnesses of a win claim. */
  function Followed(s: Store, key: Path, claims: Claims, stmWin: bool): (f: bool)
    ensures f ==> key in claims
  {
    Implied(s, key, claims) && (stmWin ==> !claims[key].stmWin)
  }

  /** The verifier accepts `want` at `path`. */
  ghost predicate Verified(g: Rules, root: Position, s: Store, claims: Claims, path: Path, want: Claim, depth: nat)
    decreases MAX_DEPTH + 1 - depth
  {
    && depth <= MAX_DEPTH && s.HasOpen(path) && PathLegal(g, root, path)
    && var moves := g.legal(Game.Replay(g, root, path));
       && moves != [] && Summarise(Statuses(s, path, moves, claims)) == Some(want)
       && forall i :: 0 <= i < |moves| && Followed(s, path + [moves[i]], claims, want.stmWin) ==>
            Verified(g, root, s, claims, path + [moves[i]], claims[path + [moves[i]]], depth + 1)
  }

  /** The replies a claim rests on. */
  lemma {:induction false} ReplyTrue(g: Rules, root: Position, s: Store, claims: Claims, path: Path, m: Move,
          stmWin: bool)
    requires s.Indexed() && RowsTrue(g, root, s)
    requires Followed(s, path + [m], claims, stmWin) ==> TrueAt(g, root, path + [m], claims[path + [m]])
    requires stmWin ==> ReplyStatus(s, path + [m], claims).Resolved? && ReplyStatus(s, path + [m], claims).loss
    ensures StatusTrue(g, g.play(Game.Replay(g, root, path), m), ReplyStatus(s, path + [m], claims))
  {
    ReplaySnoc(g, root, path, m);
    if path + [m] in s.byPath && s.rows[s.byPath[path + [m]]].outcome.Some? {
      RowStatusTrue(g, root, s, path, m, claims);
    }
  }

  /** Acceptance proves the claim against any claim map, even a circular or invented one: the
      recursion is cut at the depth limit with a refusal. */
  lemma {:induction false} VerifiedSound(g: Rules, root: Position, s: Store, claims: Claims, path: Path, want: Claim,
          depth: nat)
    requires s.Indexed() && RowsTrue(g, root, s) && OpenLive(g, root, s)
    requires Verified(g, root, s, claims, path, want, depth)
    ensures TrueAt(g, root, path, want)
    decreases MAX_DEPTH + 1 - depth
  {
    hide RowsTrue, ClaimTrue, Summarise, Followed, ReplyStatus, StatusTrue;
    var here := Game.Replay(g, root, path);
    var moves := g.legal(here);
    var ss := Statuses(s, path, moves, claims);
    forall i | 0 <= i < |moves| && Followed(s, path + [moves[i]], claims, want.stmWin)
      ensures TrueAt(g, root, path + [moves[i]], claims[path + [moves[i]]])
    {
      VerifiedSound(g, root, s, claims, path + [moves[i]], claims[path + [moves[i]]], depth + 1);
    }
    ClaimIff(ss);
    if want.stmWin {
      var i :| 0 <= i < |ss| && LossAt(ss, i) && want.bound == SatInc(ss[i].bound);
      ReplyTrue(g, root, s, claims, path, moves[i], true);
      WinSound(g, here, moves[i], ss[i], want.bound);
    } else {
      forall i | 0 <= i < |ss|
        ensures StatusTrue(g, g.play(here, moves[i]), ss[i])
      {
        ReplyTrue(g, root, s, claims, path, moves[i], false);
      }
      LossSound(g, here, ss, want);
    }
  }

  // ----- the verifier accepts the fixpoint -----

  /** The longest chain of implied claims the verifier follows below `p`. */
  ghost function ChainDepth(g: Rules, root: Position, s: Store, p: Path): nat
    requires s.Indexed() && s.HasOpen(p)
    decreases |OpenBelow(s, p)|, 2, 0
  {
    var moves := g.legal(Game.Replay(g, root, p));
    ChainMax(g, root, s, p, moves, |moves|)
  }

  ghost function ChainMax(g: Rules, root: Position, s: Store, p: Path, moves: seq<Move>, n: nat): nat
    requires s.Indexed() && s.HasOpen(p) && n <= |moves|
    decreases |OpenBelow(s, p)|, 1, n
  {
    if n == 0 then 0
    else
      var rest := ChainMax(g, root, s, p, moves, n - 1);
      var key := p + [moves[n - 1]];
      if Follows(g, root, s, p, key) then
        KidBelow(s, p, moves[n - 1]);
        Max(rest, 1 + ChainDepth(g, root, s, key))
      else rest
  }

  ghost predicate Follows(g: Rules, root: Position, s: Store, p: Path, key: Path): (f: bool)
    requires s.Indexed() && s.HasOpen(p)
    ensures f ==> s.HasOpen(key)
  {
    && s.HasOpen(key) && Direct(g, root, s, key).Some? && Direct(g, root, s, p).Some?
    && (Direct(g, root, s, p).value.stmWin ==> !Direct(g, root, s, key).value.stmWin)
  }

  lemma {:induction false} ChainMaxBounds(g: Rules, root: Position, s: Store, p: Path, moves: seq<Move>, n: nat,
          limit: int)
    requires s.Indexed() && s.HasOpen(p) && n <= |moves|
    ensures ChainMax(g, root, s, p, moves, n) <= limit <==>
            0 <= limit && forall i :: 0 <= i < n && Follows(g, root, s, p, p + [moves[i]]) ==>
                            1 + ChainDepth(g, root, s, p + [moves[i]]) <= limit
    decreases n
  {
    hide Follows, ChainDepth;
    if n > 0 {
      ChainMaxBounds(g, root, s, p, moves, n - 1, limit);
    }
  }

  lemma {:induction false} FollowedIs(g: Rules, root: Position, s: Store, p: Path, key: Path)
    requires s.Indexed() && s.HasOpen(p) && Direct(g, root, s, p).Some?
    ensures var claims := DirectClaims(g, root, s);
            && (Followed(s, key, claims, Direct(g, root, s, p).value.stmWin) <==> Follows(g, root, s, p, key))
            && (s.HasOpen(key) ==> Lookup(claims, key) == Direct(g, root, s, key))
  {
    hide Direct;
  }

  lemma {:induction false} DirectIsClassify(g: Rules, root: Position, s: Store, p: Path)
    requires s.Indexed() && s.HasOpen(p)
    ensures Classify(g, root, s, p, DirectClaims(g, root, s)) == Direct(g, root, s, p)
  {
    var claims := DirectClaims(g, root, s);
    forall m | m in g.legal(Game.Replay(g, root, p)) && s.HasOpen(p + [m])
      ensures Lookup(claims, p + [m]) == Direct(g, root, s, p + [m])
    {
      hide Direct;
    }
    hide Direct, Classify;
    assert forall q :: q in claims ==> s.HasOpen(q);
    ClassifySettled(g, root, s, p, claims);
  }

  /** The verifier accepts a derived claim exactly when no chain of implied claims below it
      passes the depth limit. */
  lemma {:induction false} VerifiedIff(g: Rules, root: Position, s: Store, p: Path, depth: nat)
    requires s.Indexed() && s.HasOpen(p) && Direct(g, root, s, p).Some?
    requires forall i :: 0 <= i < |s.rows| && s.rows[i].outcome.None? ==> PathLegal(g, root, s.rows[i].path)
    ensures Verified(g, root, s, DirectClaims(g, root, s), p, Direct(g, root, s, p).value, depth) <==>
            depth + ChainDepth(g, root, s, p) <= MAX_DEPTH
    decreases |OpenBelow(s, p)|
  {
    hide Direct, DirectClaims, Summarise, Followed, Follows, Statuses, PathLegal, OpenBelow;
    var claims := DirectClaims(g, root, s);
    var want := Direct(g, root, s, p).value;
    var moves := g.legal(Game.Replay(g, root, p));
    ChainMaxBounds(g, root, s, p, moves, |moves|, MAX_DEPTH - depth);
    DirectIsClassify(g, root, s, p);
    ClaimedMoves(g, root, s, p, claims);
    assert PathLegal(g, root, s.rows[s.byPath[p]].path);
    if depth <= MAX_DEPTH {
      forall i | 0 <= i < |moves|
        ensures Followed(s, p + [moves[i]], claims, want.stmWin) <==> Follows(g, root, s, p, p + [moves[i]])
        ensures Follows(g, root, s, p, p + [moves[i]]) ==>
                  p + [moves[i]] in claims &&
                  (Verified(g, root, s, claims, p + [moves[i]], claims[p + [moves[i]]], depth + 1) <==>
                   1 + ChainDepth(g, root, s, p + [moves[i]]) <= MAX_DEPTH - depth)
      {
        var key := p + [moves[i]];
        FollowedIs(g, root, s, p, key);
        if Follows(g, root, s, p, key) {
          FollowsOpen(g, root, s, p, key);
          KidBelow(s, p, moves[i]);
          VerifiedIff(g, root, s, key, depth + 1);
        }
      }
    }
  }

  lemma {:induction false} FollowsOpen(g: Rules, root: Position, s: Store, p: Path, key: Path)
    requires s.Indexed() && s.HasOpen(p) && Follows(g, root, s, p, key)
    ensures s.HasOpen(key) && Direct(g, root, s, key).Some?
  {
  }

  lemma {:induction false} ClaimedMoves(g: Rules, root: Position, s: Store, p: Path, claims: Claims)
    requires Classify(g, root, s, p, claims).Some?
    ensures g.legal(Game.Replay(g, root, p)) != []
    ensures Summarise(Statuses(s, p, g.legal(Game.Replay(g, root, p)), claims)) == Classify(g, root, s, p, claims)
  {
  }

  // ----- the verifier's own code -----

  /** One reply of a row being verified. */
  datatype Reply = Known(loss: bool, bound: U32, exact: bool, implied: Option<Path>) | NoRow | OpenRow

  function ReplyOf(s: Store, key: Path, claims: Claims): Reply
  {
    if key in s.byPath && s.byPath[key] < |s.rows| && s.rows[s.byPath[key]].outcome.Some? then
      var r := s.rows[s.byPath[key]];
      Known(r.outcome == Some(Loss), Bound(r), r.exact, None)
    else if key in claims then Known(!claims[key].stmWin, claims[key].bound, claims[key].exact, Some(key))
    else if key in s.byPath then OpenRow
    else NoRow
  }

  lemma {:induction false} SummariseIs(ss: seq<Status>)
    requires ss != []
    ensures Summarise(ss) == Conclude(Count(ss, |ss|))
    ensures Summarise(ss).None? <==> Count(ss, |ss|).witnesses == [] && Count(ss, |ss|).unresolved != 0
  {
  }

  class Verifier {
    const g: Rules
    const root: Position
    const s: Store
    const claims: Claims

    constructor (g: Rules, root: Position, s: Store, claims: Claims)
      ensures this.g == g && this.root == root && this.s == s && this.claims == claims
    {
      this.g, this.root, this.s, this.claims := g, root, s, claims;
    }

    ghost predicate Accepts(path: Path, want: Claim, depth: nat)
    {
      Verified(g, root, s, claims, path, want, depth)
    }

    /** Verify the implied replies of a strict claim; false names a missing or failing reply. */
    method CheckStrict(path: Path, moves: seq<Move>, depth: nat) returns (r: FlipResult<()>)
      requires depth <= MAX_DEPTH && s.Indexed()
      ensures r.Ok? <==> forall i :: 0 <= i < |moves| ==>
                           var key := path + [moves[i]];
                           ReplyOf(s, key, claims).Known?
                           && (Implied(s, key, claims) ==> Accepts(key, claims[key], depth + 1))
      decreases MAX_DEPTH + 1 - depth, 0
    {
      for i := 0 to |moves|
        invariant forall j :: 0 <= j < i ==>
                    var key := path + [moves[j]];
                    ReplyOf(s, key, claims).Known? && (Implied(s, key, claims) ==> Accepts(key, claims[key], depth + 1))
      {
        match ReplyOf(s, path + [moves[i]], claims) {
          case NoRow => return Err(MissingReply);
          case OpenRow => return Err(MissingReply);
          case Known(_, _, _, implied) =>
            if implied.Some? {
              var nested := Verify(implied.value, claims[implied.value], depth + 1);
              if nested.Err? {
                return nested;
              }
            }
        }
      }
      r := Ok(());
    }

    /** The reply census and the implied loss witnesses. */
    method CountReplies(path: Path, moves: seq<Move>) returns (census: Census, implied: seq<Path>)
      requires s.Indexed()
      ensures census == Count(Statuses(s, path, moves, claims), |moves|)
      ensures forall j :: 0 <= j < |implied| ==> Nested(path, moves, |moves|, implied[j])
      ensures forall j :: 0 <= j < |moves| && Followed(s, path + [moves[j]], claims, true) ==>
                path + [moves[j]] in implied
      ensures implied != [] ==> census.witnesses != []
    {
      ghost var ss := Statuses(s, path, moves, claims);
      census := Census([], 0, true, 0);
      implied := [];
      for i := 0 to |moves|
        invariant census == Count(ss, i)
        invariant forall j :: 0 <= j < |implied| ==> Nested(path, moves, i, implied[j])
        invariant forall j :: 0 <= j < i && Followed(s, path + [moves[j]], claims, true) ==>
                    path + [moves[j]] in implied
        invariant implied != [] ==> census.witnesses != []
      {
        match ReplyOf(s, path + [moves[i]], claims) {
          case Known(loss, bound, exact, key) =>
            census := census.(maxBound := Max(census.maxBound, bound), allExact := census.allExact && exact);
            if loss {
              census := census.(witnesses := census.witnesses + [(bound, exact)]);
              if key.Some? {
                implied := implied + [key.value];
              }
            }
          case _ => census := census.(unresolved := census.unresolved + 1);
        }
      }
    }

    ghost predicate Nested(path: Path, moves: seq<Move>, n: nat, key: Path)
      requires n <= |moves|
    {
      key in claims
      && exists i :: 0 <= i < n && key == path + [moves[i]] && Followed(s, path + [moves[i]], claims, true)
    }

    /** Recompute the claim from the replies, verifying the implied loss witnesses. */
    method Expected(path: Path, moves: seq<Move>, depth: nat) returns (r: FlipResult<Claim>)
      requires depth <= MAX_DEPTH && moves != [] && s.Indexed()
      ensures r.Ok? ==> Some(r.value) == Summarise(Statuses(s, path, moves, claims))
      ensures r.Ok? <==>
                && Summarise(Statuses(s, path, moves, claims)).Some?
                && forall i :: 0 <= i < |moves| && Followed(s, path + [moves[i]], claims, true) ==>
                     Accepts(path + [moves[i]], claims[path + [moves[i]]], depth + 1)
      decreases MAX_DEPTH + 1 - depth, 0
    {
      hide Followed, Count, Conclude, Statuses, Verified;
      var census, implied := CountReplies(path, moves);
      SummariseIs(Statuses(s, path, moves, claims));
      if census.witnesses == [] && census.unresolved != 0 {
        return Err(NoWitness);
      }
      for j := 0 to |implied|
        invariant forall k :: 0 <= k < j ==> implied[k] in claims && Accepts(implied[k], claims[implied[k]], depth + 1)
      {
        assert Nested(path, moves, |moves|, implied[j]);
        var nested := Verify(implied[j], claims[implied[j]], depth + 1);
        if nested.Err? {
          return Err(nested.error);
        }
      }
      r := Ok(Conclude(census).value);
    }

    /** Independently verify one claim, value and metadata. */
    method Verify(path: Path, want: Claim, depth: nat) returns (r: FlipResult<()>)
      requires depth <= MAX_DEPTH + 1 && s.Indexed()
      ensures r.Ok? <==> Accepts(path, want, depth)
      decreases MAX_DEPTH + 1 - depth, 1
    {
      if depth > MAX_DEPTH {
        return Err(RecursionLimit);
      }
      if path !in s.byPath {
        return Err(NotARow);
      }
      if s.rows[s.byPath[path]].outcome.Some? {
        return Err(ProvenRow);
      }
      var replayed := ReplayPath(g, root, path);
      if replayed.None? {
        return Err(IllegalPath);
      }
      var moves := g.legal(replayed.value);
      if moves == [] {
        return Err(TerminalRow);
      }
      StrictFollows(path, moves, want, depth);
      if !want.stmWin {
        var strict := CheckStrict(path, moves, depth);
        if strict.Err? {
          return strict;
        }
      }
      var derived := Expected(path, moves, depth);
      if derived.Err? {
        return Err(derived.error);
      }
      if derived.value != want {
        return Err(Mismatch);
      }
      r := Ok(());
    }

    /** What the two polarities ask of the replies, in terms of what is followed. */
    lemma {:induction false} StrictFollows(path: Path, moves: seq<Move>, want: Claim, depth: nat)
      requires s.Indexed() && moves != []
      ensures !want.stmWin && Summarise(Statuses(s, path, moves, claims)) == Some(want) ==>
                forall i :: 0 <= i < |moves| ==>
                  ReplyOf(s, path + [moves[i]], claims).Known? && !Followed(s, path + [moves[i]], claims, true)
    {
      var ss := Statuses(s, path, moves, claims);
      ClaimIff(ss);
      if !want.stmWin && Summarise(ss) == Some(want) {
        forall i | 0 <= i < |moves|
          ensures ReplyOf(s, path + [moves[i]], claims).Known? && !Followed(s, path + [moves[i]], claims, true)
        {
          assert ss[i].Resolved? && !LossAt(ss, i);
        }
      }
    }

    /** Verify every claim in discovery order. */
    method VerifyAll(order: seq<(Path, nat)>) returns (r: FlipResult<nat>)
      requires s.Indexed()
      ensures r.Ok? <==> forall i :: 0 <= i < |order| ==>
                order[i].0 in claims && Accepts(order[i].0, claims[order[i].0], 0)
      ensures r.Ok? ==> r.value == |order|
    {
      for i := 0 to |order|
        invariant forall j :: 0 <= j < i ==> order[j].0 in claims && Accepts(order[j].0, claims[order[j].0], 0)
      {
        if order[i].0 !in claims {
          return Err(Mismatch);
        }
        var one := Verify(order[i].0, claims[order[i].0], 0);
        if one.Err? {
          return Err(one.error);
        }
      }
      r := Ok(|order|);
    }
  }

  /** The whole analysis: converge, then verify every claim from scratch. */
  method SolveAndVerify(g: Rules, root: Position, s: Store) returns (claims: Claims, r: FlipResult<nat>)
    requires s.Indexed()
    requires forall i :: 0 <= i < |s.rows| && s.rows[i].outcome.None? ==> PathLegal(g, root, s.rows[i].path)
    ensures claims == DirectClaims(g, root, s)
    ensures r.Ok? <==> forall p :: p in claims ==> s.HasOpen(p) && ChainDepth(g, root, s, p) <= MAX_DEPTH
    ensures r.Ok? ==> r.value == |claims|
    ensures RowsTrue(g, root, s) && OpenLive(g, root, s) ==> forall p :: p in claims ==> TrueAt(g, root, p, claims[p])
  {
    hide DirectClaims, Direct, RowsTrue, OpenLive, PathLegal, TrueAt, ChainDepth, Store.Indexed, Store.HasOpen;
    var a := new Analysis(g, root, s);
    var solved := a.Solve();
    claims := a.claims;
    hide OrderOk;
    var v := new Verifier(g, root, s, claims);
    r := v.VerifyAll(a.order);
    AllVerified(g, root, s, a.order, a.rounds);
    if RowsTrue(g, root, s) && OpenLive(g, root, s) {
      AllTrue(g, root, s);
    }
  }

  lemma {:induction false} AllTrue(g: Rules, root: Position, s: Store)
    requires s.Indexed() && RowsTrue(g, root, s) && OpenLive(g, root, s)
    ensures var claims := DirectClaims(g, root, s); forall p :: p in claims ==> TrueAt(g, root, p, claims[p])
  {
    hide Direct, RowsTrue, OpenLive, TrueAt;
    var claims := DirectClaims(g, root, s);
    forall p | p in claims
      ensures TrueAt(g, root, p, claims[p])
    {
      DirectSound(g, root, s, p);
    }
  }

  lemma {:induction false} AllVerified(g: Rules, root: Position, s: Store, order: seq<(Path, nat)>, rounds: nat)
    requires s.Indexed() && OrderOk(g, root, s, order, DirectClaims(g, root, s), rounds)
    requires forall i :: 0 <= i < |s.rows| && s.rows[i].outcome.None? ==> PathLegal(g, root, s.rows[i].path)
    ensures var claims := DirectClaims(g, root, s);
            && |order| == |claims|
            && ((forall i :: 0 <= i < |order| ==>
                 order[i].0 in claims && Verified(g, root, s, claims, order[i].0, claims[order[i].0], 0)) <==>
                forall p :: p in claims ==> s.HasOpen(p) && ChainDepth(g, root, s, p) <= MAX_DEPTH)
  {
    hide Direct, Verified, ChainDepth, PathLegal, State;
    var claims := DirectClaims(g, root, s);
    forall p | p in claims
      ensures s.HasOpen(p)
              && (Verified(g, root, s, claims, p, claims[p], 0) <==> ChainDepth(g, root, s, p) <= MAX_DEPTH)
    {
      VerifiedIff(g, root, s, p, 0);
    }
    forall i | 0 <= i < |order|
      ensures order[i].0 in claims
    {
      assert FirstDerived(g, root, s, order[i], claims, rounds);
    }
    OrderSize(order, claims.Keys);
  }

  /** A list of distinct keys has as many entries as there are keys. */
  lemma {:induction false} OrderSize(order: seq<(Path, nat)>, keys: set<Path>)
    requires forall i, j :: 0 <= i < j < |order| ==> order[i].0 != order[j].0
    requires forall i :: 0 <= i < |order| ==> order[i].0 in keys
    requires forall p :: p in keys ==> exists i :: 0 <= i < |order| && order[i].0 == p
    ensures |order| == |keys|
    decreases |order|
  {
    if order == [] {
      assert keys == {};
    } else {
      var n := |order| - 1;
      var rest := order[..n];
      var others := keys - {order[n].0};
      forall p | p in others
        ensures exists i :: 0 <= i < n && rest[i].0 == p
      {
        var i :| 0 <= i < |order| && order[i].0 == p;
        assert rest[i].0 == p;
      }
      OrderSize(rest, others);
    }
  }
}
