/** The master's check of one worker result: a trie of its events, visited over the master's own
    board. */
module CampaignTrie {
  import opened Game
  import opened Lists

  /** A worker's event; an outcome that does not parse is `None`. */
  datatype EventRec = EventRec(path: seq<Move>, outcome: Option<Outcome>, depth: U32)

  datatype TrieNode = TrieNode(outcome: Option<Outcome>, depth: U32, children: seq<(Move, nat)>)

  datatype TrieError =
    | BadOutcome | BelowTerminal | Contradiction | NoRootEvent | IllegalJobPath | Unrealised | TerminalMismatch
    | TerminalDepth | DrawInside | WinNotSingle | MissingReply | IllegalChild | WrongChild

  type TrieResult<+T> = Result<T, TrieError>

  datatype Fact = Fact(path: seq<Move>, hash: nat, outcome: Outcome, depth: nat)

  /** Children come after their parent and are keyed by distinct moves. */
  ghost predicate TrieOk(trie: seq<TrieNode>)
  {
    |trie| > 0 && forall i :: 0 <= i < |trie| ==> NodeOk(trie, i)
  }

  ghost predicate NodeOk(trie: seq<TrieNode>, i: nat)
    requires i < |trie|
  {
    var cs := trie[i].children;
    && (forall k :: 0 <= k < |cs| ==> i < cs[k].1 < |trie|)
    && (forall k, l :: 0 <= k < l < |cs| ==> cs[k].0 != cs[l].0)
  }

  /** The child of `i` along `m`, from child position `k` on. */
  function Find(cs: seq<(Move, nat)>, m: Move, k: nat): (r: Option<nat>)
    requires k <= |cs|
    ensures r.Some? ==> exists j :: k <= j < |cs| && cs[j] == (m, r.value)
    ensures r.None? ==> forall j :: k <= j < |cs| ==> cs[j].0 != m
    decreases |cs| - k
  {
    if k == |cs| then None else if cs[k].0 == m then Some(cs[k].1) else Find(cs, m, k + 1)
  }

  /** The node the first `n` moves of `path` lead to. */
  function At(trie: seq<TrieNode>, path: seq<Move>, n: nat): Option<nat>
    requires n <= |path|
  {
    if n == 0 then Some(0)
    else
      var p := At(trie, path, n - 1);
      if p.Some? && p.value < |trie| then Find(trie[p.value].children, path[n - 1], 0) else None
  }

  // ----- building -----

  /** The trie only gains nodes and edges. */
  ghost predicate Grows(a: seq<TrieNode>, b: seq<TrieNode>)
  {
    |a| <= |b| && forall i :: 0 <= i < |a| ==> a[i].children <= b[i].children
  }

  lemma {:induction false} FindGrows(a: seq<(Move, nat)>, b: seq<(Move, nat)>, m: Move, k: nat)
    requires a <= b && k <= |a| && Find(a, m, k).Some?
    ensures Find(b, m, k) == Find(a, m, k)
    decreases |a| - k
  {
    if a[k].0 != m {
      FindGrows(a, b, m, k + 1);
    }
  }

  lemma {:induction false} AtGrows(a: seq<TrieNode>, b: seq<TrieNode>, path: seq<Move>, n: nat)
    requires n <= |path| && Grows(a, b) && At(a, path, n).Some?
    ensures At(b, path, n) == At(a, path, n)
  {
    if n > 0 {
      AtGrows(a, b, path, n - 1);
      var p := At(a, path, n - 1).value;
      FindGrows(a[p].children, b[p].children, path[n - 1], 0);
    }
  }

  /** One path step, creating the child when it is missing. */
  ghost function Step(trie: seq<TrieNode>, idx: nat, m: Move): (r: (seq<TrieNode>, nat))
    requires TrieOk(trie) && idx < |trie|
    ensures TrieOk(r.0) && r.1 < |r.0|
  {
    assert NodeOk(trie, idx);
    var found := Find(trie[idx].children, m, 0);
    if found.Some? then (trie, found.value)
    else
      StepOk(trie, idx, m);
      (Sprouted(trie, idx, m), |trie|)
  }

  /** A fresh node below `idx`. */
  function Sprouted(trie: seq<TrieNode>, idx: nat, m: Move): (r: seq<TrieNode>)
    requires idx < |trie|
    ensures |r| == |trie| + 1
  {
    (trie + [TrieNode(None, 0, [])])[idx := trie[idx].(children := trie[idx].children + [(m, |trie|)])]
  }

  lemma {:induction false} StepOk(trie: seq<TrieNode>, idx: nat, m: Move)
    requires TrieOk(trie) && idx < |trie| && Find(trie[idx].children, m, 0).None?
    ensures TrieOk(Sprouted(trie, idx, m))
  {
    var r := Sprouted(trie, idx, m);
    assert NodeOk(trie, idx);
    forall i | 0 <= i < |r|
      ensures NodeOk(r, i)
    {
      if i < |trie| {
        assert NodeOk(trie, i);
      }
    }
  }

  /** The first `n` moves of a path; no path but the last step may enter a finished node. */
  ghost function Walked(trie: seq<TrieNode>, path: seq<Move>, n: nat): (r: Option<(seq<TrieNode>, nat)>)
    requires TrieOk(trie) && n <= |path|
    ensures r.Some? ==> TrieOk(r.value.0) && r.value.1 < |r.value.0|
  {
    if n == 0 then Some((trie, 0))
    else
      var before := Walked(trie, path, n - 1);
      if before.None? then None
      else
        var next := Step(before.value.0, before.value.1, path[n - 1]);
        var node := next.0[next.1];
        if n < |path| && node.outcome.Some? && node.depth == 0 then None else Some(next)
  }

  /** The trie with one event more; no two outcomes for one path. */
  ghost function Inserted(trie: seq<TrieNode>, e: EventRec): (r: Option<seq<TrieNode>>)
    requires TrieOk(trie)
    ensures r.Some? ==> TrieOk(r.value)
  {
    var at := Walked(trie, e.path, |e.path|);
    if e.outcome.None? || at.None? then None
    else
      var (t, idx) := at.value;
      var n := t[idx];
      if n.outcome.Some? && n.outcome != e.outcome then None
      else
        var now := n.(outcome := e.outcome, depth := if n.outcome.Some? && n.depth < e.depth then n.depth else e.depth);
        ReplacedOk(t, idx, now);
        Some(t[idx := now])
  }

  lemma {:induction false} ReplacedOk(t: seq<TrieNode>, idx: nat, now: TrieNode)
    requires TrieOk(t) && idx < |t| && now.children == t[idx].children
    ensures TrieOk(t[idx := now])
  {
    var r := t[idx := now];
    forall i | 0 <= i < |r|
      ensures NodeOk(r, i)
    {
      assert NodeOk(t, i);
    }
  }

  /** The trie of the first `n` events, if they have one. */
  ghost function Built(events: seq<EventRec>, n: nat): (r: Option<seq<TrieNode>>)
    requires n <= |events|
    ensures r.Some? ==> TrieOk(r.value)
  {
    if n == 0 then
      assert NodeOk([TrieNode(None, 0, [])], 0);
      Some([TrieNode(None, 0, [])])
    else
      var before := Built(events, n - 1);
      if before.None? then None else Inserted(before.value, events[n - 1])
  }

  /** The source's search for the child, and its insertion. */
  method Descend(trie: seq<TrieNode>, idx: nat, m: Move) returns (r: seq<TrieNode>, c: nat)
    requires TrieOk(trie) && idx < |trie|
    ensures (r, c) == Step(trie, idx, m)
    ensures TrieOk(r) && Grows(trie, r) && Extended(trie, r) && c < |r| && Find(r[idx].children, m, 0) == Some(c)
  {
    assert NodeOk(trie, idx);
    var found := Find(trie[idx].children, m, 0);
    if found.Some? {
      return trie, found.value;
    }
    c := |trie|;
    r := trie + [TrieNode(None, 0, [])];
    r := r[idx := r[idx].(children := r[idx].children + [(m, c)])];
    forall i | 0 <= i < |r|
      ensures NodeOk(r, i)
    {
      if i < |trie| {
        assert NodeOk(trie, i);
      }
    }
    FindLast(trie[idx].children, m, c, 0);
  }

  lemma {:induction false} FindLast(cs: seq<(Move, nat)>, m: Move, c: nat, k: nat)
    requires k <= |cs| && Find(cs, m, k).None?
    ensures Find(cs + [(m, c)], m, k) == Some(c)
    decreases |cs| - k
  {
    if k < |cs| {
      FindLast(cs, m, c, k + 1);
    }
  }

  /** Event `e` is recorded: its path leads to a node with its outcome, no deeper than it says. */
  ghost predicate Recorded(trie: seq<TrieNode>, e: EventRec)
  {
    var at := At(trie, e.path, |e.path|);
    && at.Some? && at.value < |trie| && e.outcome.Some?
    && trie[at.value].outcome == e.outcome && trie[at.value].depth <= e.depth
  }

  /** More nodes and edges, the old nodes' marks unchanged. */
  ghost predicate Extended(a: seq<TrieNode>, b: seq<TrieNode>)
  {
    Grows(a, b) && forall i :: 0 <= i < |a| ==> b[i].outcome == a[i].outcome && b[i].depth == a[i].depth
  }

  lemma {:induction false} ExtendedTrans(a: seq<TrieNode>, b: seq<TrieNode>, c: seq<TrieNode>)
    requires Extended(a, b) && Extended(b, c)
    ensures Extended(a, c)
  {
    forall i | 0 <= i < |a|
      ensures a[i].children <= c[i].children
    {
      assert a[i].children <= b[i].children <= c[i].children;
    }
  }

  lemma {:induction false} WalkedNext(trie: seq<TrieNode>, path: seq<Move>, n: nat, t: seq<TrieNode>, idx: nat)
    requires TrieOk(trie) && n < |path| && Walked(trie, path, n) == Some((t, idx))
    ensures TrieOk(t) && idx < |t|
    ensures var next := Step(t, idx, path[n]);
            Walked(trie, path, n + 1) ==
              if n + 1 < |path| && next.0[next.1].outcome.Some? && next.0[next.1].depth == 0 then None else Some(next)
  {
    hide Step;
  }

  lemma {:induction false} AtNext(t: seq<TrieNode>, t1: seq<TrieNode>, path: seq<Move>, n: nat, idx: nat, c: nat)
    requires n < |path| && Grows(t, t1) && At(t, path, n) == Some(idx) && idx < |t|
    requires Find(t1[idx].children, path[n], 0) == Some(c)
    ensures At(t1, path, n + 1) == Some(c)
  {
    AtGrows(t, t1, path, n);
  }

  /** Follow an event's path. */
  method Walk(trie: seq<TrieNode>, path: seq<Move>) returns (r: TrieResult<(seq<TrieNode>, nat)>)
    requires TrieOk(trie)
    ensures if r.Ok? then Walked(trie, path, |path|) == Some(r.value) else Walked(trie, path, |path|).None?
    ensures r.Ok? ==>
              var (t, idx) := r.value; TrieOk(t) && Extended(trie, t) && idx < |t| && At(t, path, |path|) == Some(idx)
    ensures r.Err? ==> r.error == BelowTerminal
  {
    var t, idx := trie, 0;
    assert Walked(trie, path, 0) == Some((t, idx));
    assert At(t, path, 0) == Some(idx);
    assert Extended(trie, t) && idx < |t|;
    hide Walked, At, Find, Step, Extended, TrieOk;
    for i := 0 to |path|
      invariant TrieOk(t) && Extended(trie, t) && idx < |t| && At(t, path, i) == Some(idx)
      invariant Walked(trie, path, i) == Some((t, idx))
    {
      var t1, c := Descend(t, idx, path[i]);
      WalkedNext(trie, path, i, t, idx);
      AtNext(t, t1, path, i, idx, c);
      ExtendedTrans(trie, t, t1);
      t, idx := t1, c;
      if i + 1 < |path| && t[idx].outcome.Some? && t[idx].depth == 0 {
        WalkedNone(trie, path, i + 1, |path|);
        return Err(BelowTerminal);
      }
    }
    r := Ok((t, idx));
  }

  lemma {:induction false} WalkedNone(trie: seq<TrieNode>, path: seq<Move>, n: nat, m: nat)
    requires TrieOk(trie) && n <= m <= |path| && Walked(trie, path, n).None?
    ensures Walked(trie, path, m).None?
  {
    if n < m {
      WalkedNone(trie, path, n, m - 1);
    }
  }

  lemma {:induction false} BuiltNone(events: seq<EventRec>, n: nat, m: nat)
    requires n <= m <= |events| && Built(events, n).None?
    ensures Built(events, m).None?
  {
    if n < m {
      BuiltNone(events, n, m - 1);
    }
  }

  /** What is recorded stays, with no greater depth. */
  ghost predicate Extends(a: seq<TrieNode>, b: seq<TrieNode>)
  {
    Grows(a, b) && forall i :: 0 <= i < |a| && a[i].outcome.Some? ==>
      b[i].outcome == a[i].outcome && b[i].depth <= a[i].depth
  }

  lemma {:induction false} RecordedStays(a: seq<TrieNode>, b: seq<TrieNode>, e: EventRec)
    requires Recorded(a, e) && Extends(a, b)
    ensures Recorded(b, e)
  {
    AtGrows(a, b, e.path, |e.path|);
  }

  /** Follow one event's path and record its outcome. */
  method InsertEvent(trie: seq<TrieNode>, e: EventRec) returns (r: TrieResult<seq<TrieNode>>)
    requires TrieOk(trie)
    ensures if r.Ok? then Inserted(trie, e) == Some(r.value) else Inserted(trie, e).None?
    ensures r.Ok? ==> TrieOk(r.value) && Extends(trie, r.value) && Recorded(r.value, e)
  {
    hide TrieOk, Walked;
    if e.outcome.None? {
      return Err(BadOutcome);
    }
    var walked := Walk(trie, e.path);
    if walked.Err? {
      return Err(walked.error);
    }
    var (t, idx) := walked.value;
    var node := t[idx];
    if node.outcome.None? {
      node := node.(outcome := e.outcome, depth := e.depth);
    } else if node.outcome == e.outcome {
      node := node.(depth := if e.depth < node.depth then e.depth else node.depth);
    } else {
      return Err(Contradiction);
    }
    ReplacedOk(t, idx, node);
    AtGrows(t, t[idx := node], e.path, |e.path|);
    r := Ok(t[idx := node]);
  }

  ghost predicate AllRecorded(trie: seq<TrieNode>, events: seq<EventRec>, n: nat)
    requires n <= |events|
  {
    forall j :: 0 <= j < n ==> Recorded(trie, events[j])
  }

  lemma {:induction false} NextRecorded(a: seq<TrieNode>, b: seq<TrieNode>, events: seq<EventRec>, n: nat)
    requires n < |events| && AllRecorded(a, events, n) && Extends(a, b) && Recorded(b, events[n])
    ensures AllRecorded(b, events, n + 1)
  {
    hide Recorded, Extends;
    forall j | 0 <= j < n
      ensures Recorded(b, events[j])
    {
      RecordedStays(a, b, events[j]);
    }
  }

  lemma {:induction false} BuiltNext(events: seq<EventRec>, n: nat, trie: seq<TrieNode>)
    requires n < |events| && Built(events, n) == Some(trie)
    ensures TrieOk(trie) && Built(events, n + 1) == Inserted(trie, events[n])
  {
    hide Inserted;
  }

  method BuildTrie(events: seq<EventRec>) returns (r: TrieResult<seq<TrieNode>>)
    ensures if r.Ok? then Built(events, |events|) == Some(r.value) else Built(events, |events|).None?
    ensures r.Ok? ==> TrieOk(r.value) && AllRecorded(r.value, events, |events|)
  {
    var trie := [TrieNode(None, 0, [])];
    assert Built(events, 0) == Some(trie);
    hide Inserted, AllRecorded, Recorded, Extends, Built;
    assert AllRecorded(trie, events, 0) by { NoneRecorded(trie, events); }
    for i := 0 to |events|
      invariant Built(events, i) == Some(trie) && AllRecorded(trie, events, i)
    {
      BuiltNext(events, i, trie);
      var inserted := InsertEvent(trie, events[i]);
      if inserted.Err? {
        BuiltNone(events, i + 1, |events|);
        return Err(inserted.error);
      }
      NextRecorded(trie, inserted.value, events, i);
      trie := inserted.value;
    }
    r := Ok(trie);
  }

  lemma {:induction false} NoneRecorded(trie: seq<TrieNode>, events: seq<EventRec>)
    ensures AllRecorded(trie, events, 0)
  {
  }

  // ----- visiting -----

  predicate HasReply(cs: seq<(Move, nat)>, m: Move)
  {
    exists k :: 0 <= k < |cs| && cs[k].0 == m
  }

  predicate Covers(cs: seq<(Move, nat)>, legal: seq<Move>)
  {
    forall k :: 0 <= k < |legal| ==> HasReply(cs, legal[k])
  }

  /** The subtrie at `i` proves its outcome at `p`: static at finished positions; else one losing
      reply, or every reply won, and every listed child proven in turn. */
  ghost predicate TrieProof(g: Rules, trie: seq<TrieNode>, i: nat, p: Position)
    requires TrieOk(trie) && i < |trie|
    decreases |trie| - i
  {
    var n := trie[i];
    assert NodeOk(trie, i);
    && n.outcome.Some?
    && if g.terminal(p).Some? then g.terminal(p) == n.outcome && n.depth == 0
       else
         && n.outcome != Some(Draw)
         && (n.outcome == Some(Win) ==> |n.children| == 1)
         && (n.outcome == Some(Loss) ==> Covers(n.children, g.legal(p)))
         && forall k :: 0 <= k < |n.children| ==>
              && n.children[k].0 in g.legal(p)
              && trie[n.children[k].1].outcome == Some(n.outcome.value.Flip())
              && TrieProof(g, trie, n.children[k].1, g.play(p, n.children[k].0))
  }

  ghost predicate ChildProof(g: Rules, trie: seq<TrieNode>, i: nat, k: nat, p: Position, o: Outcome)
    requires TrieOk(trie) && i < |trie| && k < |trie[i].children|
  {
    assert NodeOk(trie, i);
    var c := trie[i].children[k];
    c.0 in g.legal(p) && trie[c.1].outcome == Some(o.Flip()) && TrieProof(g, trie, c.1, g.play(p, c.0))
  }

  lemma {:induction false} ProofIs(g: Rules, trie: seq<TrieNode>, i: nat, p: Position)
    requires TrieOk(trie) && i < |trie| && trie[i].outcome.Some? && g.terminal(p).None? && trie[i].outcome != Some(Draw)
    ensures var n := trie[i];
            TrieProof(g, trie, i, p) <==>
              && (n.outcome.value == Win ==> |n.children| == 1)
              && (n.outcome.value == Loss ==> Covers(n.children, g.legal(p)))
              && forall k :: 0 <= k < |n.children| ==> ChildProof(g, trie, i, k, p, n.outcome.value)
  {
    forall k | 0 <= k < |trie[i].children|
      ensures var c := trie[i].children[k];
              && c.1 < |trie|
              && (ChildProof(g, trie, i, k, p, trie[i].outcome.value) <==>
                  c.0 in g.legal(p) && trie[c.1].outcome == Some(trie[i].outcome.value.Flip())
                  && TrieProof(g, trie, c.1, g.play(p, c.0)))
    {
      ChildIs(g, trie, i, k, p, trie[i].outcome.value);
    }
  }

  lemma {:induction false} ChildIs(g: Rules, trie: seq<TrieNode>, i: nat, k: nat, p: Position, o: Outcome)
    requires TrieOk(trie) && i < |trie| && k < |trie[i].children|
    ensures var c := trie[i].children[k];
            && i < c.1 < |trie|
            && (ChildProof(g, trie, i, k, p, o) <==>
                c.0 in g.legal(p) && trie[c.1].outcome == Some(o.Flip()) && TrieProof(g, trie, c.1, g.play(p, c.0)))
  {
    assert NodeOk(trie, i);
  }

  /** What an accepted outcome means. */
  ghost predicate Means(g: Rules, p: Position, o: Outcome)
  {
    if o == Draw then g.terminal(p) == Some(Draw) else Holds(g, p, o)
  }

  lemma {:induction false} TrieProofSound(g: Rules, trie: seq<TrieNode>, i: nat, p: Position)
    requires TrieOk(trie) && i < |trie| && g.Sane() && TrieProof(g, trie, i, p)
    ensures trie[i].outcome.Some? && Means(g, p, trie[i].outcome.value)
    decreases |trie| - i
  {
    assert NodeOk(trie, i);
    var cs := trie[i].children;
    if g.terminal(p).Some? {
      if trie[i].outcome != Some(Draw) {
        assert Forced(g, p, trie[i].outcome.value, 0);
      }
    } else {
      forall k | 0 <= k < |cs|
        ensures Holds(g, g.play(p, cs[k].0), trie[i].outcome.value.Flip())
      {
        assert ChildProof(g, trie, i, k, p, trie[i].outcome.value);
        TrieProofSound(g, trie, cs[k].1, g.play(p, cs[k].0));
      }
      if trie[i].outcome == Some(Win) {
        assert ChildProof(g, trie, i, 0, p, Win);
        WinByReply(g, p, cs[0].0);
      } else {
        assert trie[i].outcome.value == Loss;
        forall m | m in g.legal(p)
          ensures Holds(g, g.play(p, m), Win)
        {
          var j :| 0 <= j < |g.legal(p)| && g.legal(p)[j] == m;
          assert Covers(cs, g.legal(p)) && HasReply(cs, g.legal(p)[j]);
        }
        LossByReplies(g, p);
      }
    }
  }

  /** A fact is true at the position its path reaches from the campaign root. */
  ghost predicate FactTrue(g: Rules, root: Position, f: Fact)
  {
    var p := Game.Replay(g, root, f.path);
    f.hash == g.hash(p) && Means(g, p, f.outcome)
  }

  ghost predicate FactsTrue(g: Rules, root: Position, facts: seq<Fact>)
  {
    forall i :: 0 <= i < |facts| ==> FactTrue(g, root, facts[i])
  }

  method CoversAll(cs: seq<(Move, nat)>, legal: seq<Move>) returns (r: bool)
    ensures r == Covers(cs, legal)
  {
    for k := 0 to |legal|
      invariant forall j :: 0 <= j < k ==> HasReply(cs, legal[j])
    {
      if !HasReply(cs, legal[k]) {
        return false;
      }
    }
    r := true;
  }

  /** The visit's board, its path below the job, and what it has emitted. */
  class Visitor {
    const g: Rules
    const trie: seq<TrieNode>
    const jobPath: seq<Move>
    ghost const root: Position
    const pos: Board
    var path: seq<Move>
    var facts: seq<Fact>

    constructor (g: Rules, trie: seq<TrieNode>, jobPath: seq<Move>, jobPos: Position, ghost root: Position)
      requires TrieOk(trie) && g.Sane() && jobPos == Game.Replay(g, root, jobPath)
      ensures this.g == g && this.trie == trie && this.jobPath == jobPath && this.root == root
      ensures fresh(pos) && Valid() && path == [] && facts == [] && pos.cur == jobPos
    {
      this.g, this.trie, this.jobPath, this.root := g, trie, jobPath, root;
      pos := new Board(g, jobPos);
      path, facts := [], [];
      new;
      assert jobPath + [] == jobPath;
    }

    ghost predicate Valid()
      reads this, pos
    {
      && TrieOk(trie) && g.Sane() && pos.g == g
      && pos.cur == Game.Replay(g, root, jobPath + path) && FactsTrue(g, root, facts)
    }

    /** Verify one node and everything below it; accepts exactly the proofs, emits only true
        facts even when it fails halfway, and takes all moves back when it succeeds. */
    method VisitTrie(idx: nat) returns (r: TrieResult<(Outcome, U32)>)
      requires Valid() && idx < |trie|
      modifies this, pos
      ensures FactsTrue(g, root, facts) && old(facts) <= facts && pos.g == g
      ensures r.Ok? <==> TrieProof(g, trie, idx, old(pos.cur))
      ensures r.Ok? ==> Valid() && pos.cur == old(pos.cur) && pos.undo == old(pos.undo) && path == old(path)
      ensures r.Ok? ==> Some(r.value.0) == trie[idx].outcome && r.value.1 == trie[idx].depth
      decreases |trie| - idx, 2
    {
      hide Covers, NodeOk, Game.Replay;
      ghost var p := pos.cur;
      var node := trie[idx];
      if node.outcome.None? {
        return Err(Unrealised);
      }
      var outcome := node.outcome.value;
      var static_ := g.terminal(pos.cur);
      if static_.Some? {
        if static_.value != outcome {
          return Err(TerminalMismatch);
        }
        if node.depth != 0 {
          return Err(TerminalDepth);
        }
      } else {
        if outcome == Draw {
          return Err(DrawInside);
        }
        ProofIs(g, trie, idx, p);
        if outcome == Win && |node.children| != 1 {
          return Err(WinNotSingle);
        }
        if outcome == Loss {
          var covered := CoversAll(node.children, g.legal(pos.cur));
          if !covered {
            return Err(MissingReply);
          }
        }
        var checked := VisitChildren(idx, outcome);
        if checked.Err? {
          return Err(checked.error);
        }
      }
      TrieProofSound(g, trie, idx, pos.cur);
      var global := jobPath + path;
      facts := facts + [Fact(global, g.hash(pos.cur), outcome, node.depth)];
      r := Ok((outcome, node.depth));
    }

    /** Play one child's move, visit it, and undo. */
    method VisitChild(idx: nat, k: nat, outcome: Outcome) returns (r: TrieResult<()>)
      requires Valid() && idx < |trie| && k < |trie[idx].children|
      modifies this, pos
      ensures FactsTrue(g, root, facts) && old(facts) <= facts && pos.g == g
      ensures r.Ok? <==> ChildProof(g, trie, idx, k, old(pos.cur), outcome)
      ensures r.Ok? ==> Valid() && pos.cur == old(pos.cur) && pos.undo == old(pos.undo) && path == old(path)
      decreases |trie| - idx, 0
    {
      hide TrieProof, ChildProof, FactsTrue, NodeOk, Game.Replay;
      var (mv, child) := trie[idx].children[k];
      ChildIs(g, trie, idx, k, pos.cur, outcome);
      if mv !in g.legal(pos.cur) {
        return Err(IllegalChild);
      }
      if trie[child].outcome != Some(outcome.Flip()) {
        return Err(WrongChild);
      }
      ReplaySnoc(g, root, jobPath + path, mv);
      Assoc(jobPath, path, [mv]);
      pos.DoMove(mv);
      path := path + [mv];
      var visited := VisitTrie(child);
      if visited.Err? {
        return Err(visited.error);
      }
      path := Front(path);
      pos.UndoMove();
      r := Ok(());
    }

    method VisitChildren(idx: nat, outcome: Outcome) returns (r: TrieResult<()>)
      requires Valid() && idx < |trie|
      modifies this, pos
      ensures FactsTrue(g, root, facts) && old(facts) <= facts && pos.g == g
      ensures r.Ok? <==> forall k :: 0 <= k < |trie[idx].children| ==>
                ChildProof(g, trie, idx, k, old(pos.cur), outcome)
      ensures r.Ok? ==> Valid() && pos.cur == old(pos.cur) && pos.undo == old(pos.undo) && path == old(path)
      decreases |trie| - idx, 1
    {
      hide ChildProof, FactsTrue, TrieOk, Game.Replay;
      for k := 0 to |trie[idx].children|
        invariant Valid() && pos.cur == old(pos.cur) && pos.undo == old(pos.undo) && path == old(path)
                  && old(facts) <= facts
        invariant forall j :: 0 <= j < k ==> ChildProof(g, trie, idx, j, old(pos.cur), outcome)
      {
        var visited := VisitChild(idx, k, outcome);
        if visited.Err? {
          return visited;
        }
      }
      r := Ok(());
    }
  }

  /** The trie of a worker's events proves the job's position. */
  ghost predicate Accepts(g: Rules, root: Position, jobPath: seq<Move>, events: seq<EventRec>)
  {
    var trie := Built(events, |events|);
    PathLegal(g, root, jobPath) && trie.Some? && TrieProof(g, trie.value, 0, Game.Replay(g, root, jobPath))
  }

  ghost function AcceptedOutcome(events: seq<EventRec>): Option<Outcome>
  {
    var trie := Built(events, |events|);
    if trie.Some? then trie.value[0].outcome else None
  }

  /** Verify and merge a worker's decisive result: accepted exactly when the job's path is legal and the
      trie of the events is a proof of the job's position.  An accepted outcome is true, and every fact
      passed on is true, also those of a result that is rejected halfway. */
  method VerifyAndMerge(g: Rules, root: Position, jobPath: seq<Move>, events: seq<EventRec>)
    returns (r: TrieResult<(Outcome, U32)>, facts: seq<Fact>)
    requires g.Sane()
    ensures FactsTrue(g, root, facts)
    ensures r.Ok? <==> Accepts(g, root, jobPath, events)
    ensures r.Ok? ==> Some(r.value.0) == AcceptedOutcome(events) && Means(g, Game.Replay(g, root, jobPath), r.value.0)
  {
    hide PathLegal, Game.Replay, Built;
    facts := [];
    var at := ReplayPath(g, root, jobPath);
    if at.None? {
      return Err(IllegalJobPath), facts;
    }
    var p := at.value;
    var built := BuildTrie(events);
    if built.Err? {
      return Err(built.error), facts;
    }
    if built.value[0].outcome.None? {
      return Err(NoRootEvent), facts;
    }
    var v := new Visitor(g, built.value, jobPath, p, root);
    r := v.VisitTrie(0);
    facts := v.facts;
    if r.Ok? {
      TrieProofSound(g, built.value, 0, p);
    }
  }
}
