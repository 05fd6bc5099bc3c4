/** A completed walk replayed into the worker: the arena becomes the proof term. */
module WalkReplay {
  import opened Game
  import opened Tree
  import opened Worker
  import opened WorkerInvariant
  import opened WorkerMachine
  import opened Walk
  import opened WalkAppend

  // ----- runs from any arena -----

  ghost function RunFrom(a: Arena, es: seq<Event>, n: nat): (r: Arena)
    requires Ranged(a) && n <= |es|
    ensures Ranged(r)
  {
    if n == 0 then a else Process(RunFrom(a, es, n - 1), es[n - 1])
  }

  ghost function RunAll(a: Arena, es: seq<Event>): (r: Arena)
    requires Ranged(a)
    ensures Ranged(r)
  {
    RunFrom(a, es, |es|)
  }

  lemma {:induction false} RunPrefix(a: Arena, x: seq<Event>, y: seq<Event>, n: nat)
    requires Ranged(a) && n <= |x|
    ensures RunFrom(a, x + y, n) == RunFrom(a, x, n)
  {
    hide Process;
    if n > 0 {
      RunPrefix(a, x, y, n - 1);
    }
  }

  lemma {:induction false} RunConcat(a: Arena, x: seq<Event>, y: seq<Event>, n: nat)
    requires Ranged(a) && n <= |y|
    ensures RunFrom(a, x + y, |x| + n) == RunFrom(RunAll(a, x), y, n)
  {
    hide Process;
    if n == 0 {
      RunPrefix(a, x, y, |x|);
    } else {
      RunConcat(a, x, y, n - 1);
    }
  }

  lemma {:induction false} RunIsFrom(es: seq<Event>, n: nat)
    requires n <= |es|
    ensures Ranged(Fresh()) && Run(es, n) == RunFrom(Fresh(), es, n)
  {
    hide Process;
    FreshInv();
    if n > 0 {
      RunIsFrom(es, n - 1);
    }
  }

  // ----- what the arena shows of a term -----

  ghost predicate Fields(g: Rules, nodes: seq<ProofNode>, id: nat, q: Position, t: Term)
  {
    id < |nodes| && nodes[id].hash == g.hash(q) && nodes[id].outcome == Some(t.outcome) && nodes[id].depth == t.depth
  }

  /** The subtree of `id` is the proof term `t` at `q`, newest child first. */
  ghost predicate Represents(g: Rules, nodes: seq<ProofNode>, id: nat, q: Position, t: Term)
    requires Linked(nodes)
    decreases t
  {
    && Fields(g, nodes, id, q, t)
    && var cs := Children(nodes, id);
       |cs| == |t.kids| && forall k :: 0 <= k < |t.kids| ==>
         nodes[cs[|cs| - 1 - k]].mv == t.kids[k].mv
         && Represents(g, nodes, cs[|cs| - 1 - k], g.play(q, t.kids[k].mv), t.kids[k])
  }

  ghost predicate KidShown(g: Rules, nodes: seq<ProofNode>, c: nat, q: Position, kid: Term)
    requires Linked(nodes)
  {
    c < |nodes| && nodes[c].mv == kid.mv && Represents(g, nodes, c, g.play(q, kid.mv), kid)
  }

  /** The first `n` children have been walked. */
  ghost predicate Shown(g: Rules, nodes: seq<ProofNode>, id: nat, q: Position, t: Term, n: nat)
    requires Linked(nodes)
  {
    && Fields(g, nodes, id, q, t) && n <= |t.kids|
    && var cs := Children(nodes, id);
       |cs| == n && forall k :: 0 <= k < n ==> KidShown(g, nodes, cs[n - 1 - k], q, t.kids[k])
  }

  /** Some complete proof stands behind node `i`. */
  ghost predicate Proven(g: Rules, nodes: seq<ProofNode>, i: nat)
    requires Linked(nodes)
  {
    exists q: Position, t: Term :: Represents(g, nodes, i, q, t) && Proves(g, q, t)
  }

  ghost predicate AllProven(g: Rules, nodes: seq<ProofNode>, low: nat)
    requires Linked(nodes)
  {
    forall i :: low <= i < |nodes| ==> Proven(g, nodes, i)
  }

  lemma {:induction false} ShownAll(g: Rules, nodes: seq<ProofNode>, id: nat, q: Position, t: Term)
    requires Linked(nodes) && Shown(g, nodes, id, q, t, |t.kids|)
    ensures Represents(g, nodes, id, q, t)
  {
    var cs := Children(nodes, id);
    forall k | 0 <= k < |t.kids|
      ensures nodes[cs[|cs| - 1 - k]].mv == t.kids[k].mv
              && Represents(g, nodes, cs[|cs| - 1 - k], g.play(q, t.kids[k].mv), t.kids[k])
    {
      assert KidShown(g, nodes, cs[|t.kids| - 1 - k], q, t.kids[k]);
    }
  }

  /** Nodes from `low` on are as before. */
  ghost predicate SameFrom(a: seq<ProofNode>, b: seq<ProofNode>, low: nat)
  {
    |a| <= |b| && forall i :: low <= i < |a| ==> b[i] == a[i]
  }

  lemma {:induction false} ChildrenFrame(a: seq<ProofNode>, b: seq<ProofNode>, id: nat)
    requires Linked(a) && Linked(b) && id < |a| && SameFrom(a, b, id)
    ensures Children(b, id) == Children(a, id)
  {
    assert NodeLinked(a, id);
    assert forall c :: c in Children(a, id) ==> id < c < |a|;
    ChainFrame(a, b, a[id].firstChild);
  }

  lemma {:induction false} RepresentsFrame(g: Rules, a: seq<ProofNode>, b: seq<ProofNode>, id: nat, q: Position,
          t: Term)
    requires Linked(a) && Linked(b) && SameFrom(a, b, id) && Represents(g, a, id, q, t)
    ensures Represents(g, b, id, q, t)
    decreases t
  {
    ChildrenFrame(a, b, id);
    var cs := Children(a, id);
    forall k | 0 <= k < |t.kids|
      ensures b[cs[|cs| - 1 - k]].mv == t.kids[k].mv
              && Represents(g, b, cs[|cs| - 1 - k], g.play(q, t.kids[k].mv), t.kids[k])
    {
      var c := cs[|cs| - 1 - k];
      assert c in cs;
      RepresentsFrame(g, a, b, c, g.play(q, t.kids[k].mv), t.kids[k]);
    }
  }

  lemma {:induction false} ProvenFrame(g: Rules, a: seq<ProofNode>, b: seq<ProofNode>, low: nat)
    requires Linked(a) && Linked(b) && SameFrom(a, b, low) && AllProven(g, a, low)
    ensures forall i :: low <= i < |a| ==> Proven(g, b, i)
  {
    forall i | low <= i < |a|
      ensures Proven(g, b, i)
    {
      assert Proven(g, a, i);
      var q: Position, t: Term :| Represents(g, a, i, q, t) && Proves(g, q, t);
      RepresentsFrame(g, a, b, i, q, t);
    }
  }

  /** Only `p`'s first-child link and new nodes and keys differ. */
  ghost predicate Grew(a: Arena, b: Arena, p: nat)
  {
    && p < |a.nodes| <= |b.nodes|
    && (forall i :: 0 <= i < |a.nodes| && i != p ==> b.nodes[i] == a.nodes[i])
    && b.nodes[p] == a.nodes[p].(firstChild := b.nodes[p].firstChild)
    && (forall k :: k in a.index ==> k in b.index && b.index[k] == a.index[k])
  }

  lemma {:induction false} GrewTrans(a: Arena, b: Arena, c: Arena, p: nat)
    requires Grew(a, b, p) && Grew(b, c, p)
    ensures Grew(a, c, p)
  {
  }

  /** Growth below a node that was itself new. */
  lemma {:induction false} GrewBelow(a: Arena, b: Arena, c: Arena, p: nat, id: nat)
    requires Grew(a, b, p) && Grew(b, c, id) && |a.nodes| <= id
    ensures Grew(a, c, p)
  {
  }

  /** All depths of a term stay below the saturation value. */
  ghost predicate Small(t: Term)
    decreases t
  {
    t.depth < U32_MAX && forall k :: 0 <= k < |t.kids| ==> Small(t.kids[k])
  }

  lemma {:induction false} AppendedGrows(a: Arena, p: nat, e: Event)
    requires Inv(a) && p < |a.nodes| && (p, e.Mv()) !in a.index
    ensures var b := Appended(a, p, e);
            Grew(a, b, p) && Children(b.nodes, p) == [|a.nodes|] + Children(a.nodes, p)
            && Children(b.nodes, |a.nodes|) == []
  {
    AddNodeChildren(a.nodes, p, e.Mv(), e.hash, Some(e.outcome), e.depth);
  }

  lemma {:induction false} MovesDiffer(g: Rules, q: Position, t: Term, k: nat, n: nat)
    requires g.Sane() && Proves(g, q, t) && k < n < |t.kids|
    ensures t.kids[k].mv != t.kids[n].mv
  {
    if t.outcome == Loss {
      assert g.legal(q)[k] != g.legal(q)[n];
    }
  }

  /** The children of a proof node found so far have other moves than the next one. */
  lemma {:induction false} NextIsNew(g: Rules, a: Arena, id: nat, q: Position, t: Term, n: nat)
    requires Inv(a) && g.Sane() && Proves(g, q, t) && n < |t.kids| && Shown(g, a.nodes, id, q, t, n)
    ensures (id, t.kids[n].mv) !in a.index
  {
    var key := (id, t.kids[n].mv);
    var cs := Children(a.nodes, id);
    forall i | 0 <= i < n
      ensures a.nodes[cs[i]].mv != t.kids[n].mv
    {
      var k := n - 1 - i;
      assert KidShown(g, a.nodes, cs[n - 1 - k], q, t.kids[k]);
      MovesDiffer(g, q, t, k, n);
    }
    assert KeyIsEdge(a, key);
  }

  lemma {:induction false} ShownProves(g: Rules, nodes: seq<ProofNode>, id: nat, q: Position, t: Term, n: nat)
    requires Linked(nodes) && Proves(g, q, t) && Small(t) && Shown(g, nodes, id, q, t, n)
    ensures AllProve(nodes, id)
    ensures n < |t.kids| && t.outcome == Win ==> Children(nodes, id) == []
  {
    var cs := Children(nodes, id);
    forall i | 0 <= i < n
      ensures nodes[cs[i]].outcome == Some(t.outcome.Flip()) && nodes[cs[i]].depth < U32_MAX
    {
      var k := n - 1 - i;
      assert KidShown(g, nodes, cs[n - 1 - k], q, t.kids[k]);
      assert Small(t.kids[k]);
    }
  }

  lemma {:induction false} NextWaits(g: Rules, a: Arena, id: nat, q: Position, path: seq<Move>, t: Term, n: nat)
    requires Inv(a) && g.Sane() && Proves(g, q, t) && Small(t) && n < |t.kids| && Shown(g, a.nodes, id, q, t, n)
    ensures var k := t.kids[n];
            Waits(a, id, Event(path + [k.mv], g.hash(g.play(q, k.mv)), k.outcome, k.depth))
  {
    NextIsNew(g, a, id, q, t, n);
    ShownProves(g, a.nodes, id, q, t, n);
    assert Small(t.kids[n]);
  }

  lemma {:induction false} ShownMore(g: Rules, a: Arena, b: Arena, id: nat, q: Position, t: Term, n: nat)
    requires Ranged(a) && Ranged(b) && Grew(a, b, id) && n < |t.kids| && Shown(g, a.nodes, id, q, t, n)
    requires Children(b.nodes, id) == [|a.nodes|] + Children(a.nodes, id)
             && KidShown(g, b.nodes, |a.nodes|, q, t.kids[n])
    ensures Shown(g, b.nodes, id, q, t, n + 1)
  {
    var cs := Children(a.nodes, id);
    var ds := Children(b.nodes, id);
    forall k | 0 <= k < n + 1
      ensures KidShown(g, b.nodes, ds[n - k], q, t.kids[k])
    {
      if k < n {
        var c := cs[n - 1 - k];
        assert ds[n - k] == c && c in cs;
        assert KidShown(g, a.nodes, c, q, t.kids[k]);
        RepresentsFrame(g, a.nodes, b.nodes, c, g.play(q, t.kids[k].mv), t.kids[k]);
      }
    }
  }

  /** What replaying the first `n` children of a node leaves. */
  ghost predicate KidsDone(g: Rules, a: Arena, b: Arena, id: nat, q: Position, path: seq<Move>, t: Term, n: nat)
  {
    && Inv(b) && Grew(a, b, id) && Knows(b, path, id) && Shown(g, b.nodes, id, q, t, n)
    && AllProven(g, b.nodes, |a.nodes|)
  }

  /** What replaying a whole term below `p` leaves. */
  ghost predicate TermDone(g: Rules, a: Arena, b: Arena, p: nat, q: Position, t: Term)
    requires Ranged(a)
  {
    && Inv(b) && Grew(a, b, p) && |a.nodes| < |b.nodes|
    && Children(b.nodes, p) == [|a.nodes|] + Children(a.nodes, p)
    && Represents(g, b.nodes, |a.nodes|, q, t) && b.nodes[|a.nodes|].mv == t.mv
    && AllProven(g, b.nodes, |a.nodes|)
  }

  lemma {:induction false} KidsReplay(g: Rules, a: Arena, id: nat, q: Position, path: seq<Move>, t: Term, n: nat)
    requires Inv(a) && g.Sane() && Proves(g, q, t) && Small(t) && n <= |t.kids| && Knows(a, path, id)
    requires Fields(g, a.nodes, id, q, t) && Children(a.nodes, id) == [] && id + 1 == |a.nodes|
    ensures KidsDone(g, a, RunAll(a, PreorderKids(g, q, path, t, n)), id, q, path, t, n)
    decreases t, n
  {
    hide Small, Knows, Fields, Represents, Shown, KidsDone, TermDone, RunAll, Preorder, Process, Waits, PreorderKids;
    PreorderNext(g, q, path, t, n);
    if n == 0 {
      EmptyRun(a);
      KidsStart(g, a, id, q, path, t);
    } else {
      KidsReplay(g, a, id, q, path, t, n - 1);
      var kid := t.kids[n - 1];
      var here := path + [kid.mv];
      var b := RunAll(a, PreorderKids(g, q, path, t, n - 1));
      var own := Preorder(g, g.play(q, kid.mv), here, kid);
      KidReady(g, a, b, id, q, path, t, n - 1);
      TermReplay(g, b, id, g.play(q, kid.mv), here, kid);
      ConcatAll(a, PreorderKids(g, q, path, t, n - 1), own);
      KidDone(g, a, b, RunAll(b, own), id, q, path, t, n - 1);
    }
  }

  lemma {:induction false} EmptyRun(a: Arena)
    requires Ranged(a)
    ensures RunAll(a, []) == a
  {
  }

  lemma {:induction false} ConcatAll(a: Arena, x: seq<Event>, y: seq<Event>)
    requires Ranged(a)
    ensures RunAll(a, x + y) == RunAll(RunAll(a, x), y)
  {
    hide Process;
    RunConcat(a, x, y, |y|);
  }

  /** The next child is ready to be replayed. */
  lemma {:induction false} KidReady(g: Rules, a: Arena, b: Arena, id: nat, q: Position, path: seq<Move>, t: Term,
          n: nat)
    requires g.Sane() && Proves(g, q, t) && Small(t) && n < |t.kids| && KidsDone(g, a, b, id, q, path, t, n)
    ensures var kid := t.kids[n];
            var here := path + [kid.mv];
            var p := g.play(q, kid.mv);
            && Inv(b) && Proves(g, p, kid) && Small(kid) && here != [] && kid.mv == here[|here| - 1]
            && Knows(b, here[..|here| - 1], id) && Waits(b, id, Event(here, g.hash(p), kid.outcome, kid.depth))
  {
    NextWaits(g, b, id, q, path, t, n);
    var here := path + [t.kids[n].mv];
    assert here[..|here| - 1] == path;
    ProvesKid(g, q, t, n);
  }

  lemma {:induction false} ProvesKid(g: Rules, q: Position, t: Term, n: nat)
    requires Proves(g, q, t) && Small(t) && n < |t.kids|
    ensures Proves(g, g.play(q, t.kids[n].mv), t.kids[n]) && Small(t.kids[n])
  {
  }

  lemma {:induction false} KidsStart(g: Rules, a: Arena, id: nat, q: Position, path: seq<Move>, t: Term)
    requires Inv(a) && Knows(a, path, id) && Fields(g, a.nodes, id, q, t) && Children(a.nodes, id) == []
             && id < |a.nodes|
    ensures KidsDone(g, a, a, id, q, path, t, 0)
  {
  }

  lemma {:induction false} KidDone(g: Rules, a: Arena, b: Arena, c: Arena, id: nat, q: Position, path: seq<Move>,
          t: Term, n: nat)
    requires Ranged(a) && n < |t.kids| && id + 1 == |a.nodes| && KidsDone(g, a, b, id, q, path, t, n)
    requires TermDone(g, b, c, id, g.play(q, t.kids[n].mv), t.kids[n])
    ensures KidsDone(g, a, c, id, q, path, t, n + 1)
  {
    GrewTrans(a, b, c, id);
    ExactRises(b);
    KnowsMore(b, c, path, id);
    ShownMore(g, b, c, id, q, t, n);
    ProvenFrame(g, b.nodes, c.nodes, |a.nodes|);
  }

  lemma {:induction false} TermReplay(g: Rules, a: Arena, p: nat, q: Position, path: seq<Move>, t: Term)
    requires Inv(a) && g.Sane() && Proves(g, q, t) && Small(t) && path != [] && t.mv == path[|path| - 1]
    requires Knows(a, path[..|path| - 1], p) && Waits(a, p, Event(path, g.hash(q), t.outcome, t.depth))
    ensures TermDone(g, a, RunAll(a, Preorder(g, q, path, t)), p, q, t)
    decreases t, |t.kids| + 1
  {
    var e := Event(path, g.hash(q), t.outcome, t.depth);
    ProcessAppends(a, e, p);
    ProcessKeeps(a, e);
    var a1 := Appended(a, p, e);
    var below := PreorderKids(g, q, path, t, |t.kids|);
    WaitsFacts(a, p, e);
    AppendedGrows(a, p, e);
    AppendKnows(a, p, e);
    KidsReplay(g, a1, |a.nodes|, q, path, t, |t.kids|);
    var b := RunAll(a1, below);
    OneEvent(a, e, below);
    TermEnd(g, a, a1, b, p, q, path, t);
  }

  lemma {:induction false} OneEvent(a: Arena, e: Event, rest: seq<Event>)
    requires Ranged(a)
    ensures RunAll(a, [e] + rest) == RunAll(Process(a, e), rest)
  {
    hide Process;
    RunConcat(a, [e], rest, |rest|);
    assert RunFrom(a, [e], 1) == Process(RunFrom(a, [e], 0), e);
  }

  lemma {:induction false} AppendKnows(a: Arena, p: nat, e: Event)
    requires Inv(a) && e.path != [] && Knows(a, e.path[..|e.path| - 1], p) && p < |a.nodes| && (p, e.Mv()) !in a.index
    ensures Knows(Appended(a, p, e), e.path, |a.nodes|)
  {
    var b := Appended(a, p, e);
    ExactRises(a);
    KnowsMore(a, b, e.path[..|e.path| - 1], p);
    KnowsKid(b, e.path[..|e.path| - 1], p, e.Mv());
    assert e.path[..|e.path| - 1] + [e.Mv()] == e.path;
  }

  lemma {:induction false} TermEnd(g: Rules, a: Arena, a1: Arena, b: Arena, p: nat, q: Position, path: seq<Move>,
          t: Term)
    requires Ranged(a) && Ranged(a1) && p < |a.nodes| && |a1.nodes| == |a.nodes| + 1 && Proves(g, q, t)
    requires Grew(a, a1, p) && Children(a1.nodes, p) == [|a.nodes|] + Children(a.nodes, p)
    requires a1.nodes[|a.nodes|].mv == t.mv
    requires KidsDone(g, a1, b, |a.nodes|, q, path, t, |t.kids|)
    ensures TermDone(g, a, b, p, q, t)
  {
    var id := |a.nodes|;
    GrewBelow(a, a1, b, p, id);
    ShownAll(g, b.nodes, id, q, t);
    assert Proven(g, b.nodes, id);
    GrewChildren(a1, b, id, p);
  }

  lemma {:induction false} GrewChildren(a: Arena, b: Arena, id: nat, p: nat)
    requires Ranged(a) && Ranged(b) && Grew(a, b, id) && p < |a.nodes| && p != id
    ensures Children(b.nodes, p) == Children(a.nodes, p)
  {
    assert NodeLinked(a.nodes, p);
    assert forall c :: c in Children(a.nodes, p) ==> c < |a.nodes|;
    ChainFrame(a.nodes, b.nodes, a.nodes[p].firstChild);
  }

  /** The arena after a whole walk: the root shows the term, and every node is proven. */
  lemma {:induction false} WalkReplayed(g: Rules, root: Position, t: Term)
    requires g.Sane() && Proves(g, root, t) && Small(t)
    ensures var es := Preorder(g, root, [], t);
            var r := Run(es, |es|);
            Represents(g, r.nodes, 0, root, t) && AllProven(g, r.nodes, 0)
  {
    var es := Preorder(g, root, [], t);
    var e := Event([], g.hash(root), t.outcome, t.depth);
    var below := PreorderKids(g, root, [], t, |t.kids|);
    RunIsFrom(es, |es|);
    FreshInv();
    OneEvent(Fresh(), e, below);
    var a := Process(Fresh(), e);
    RootRealised(e);
    ProcessKeeps(Fresh(), e);
    KidsReplay(g, a, 0, root, [], t, |t.kids|);
    var b := RunAll(a, below);
    ShownAll(g, b.nodes, 0, root, t);
    assert Proven(g, b.nodes, 0);
  }

  lemma {:induction false} RootRealised(e: Event)
    requires e.path == []
    ensures Ranged(Fresh())
            && Process(Fresh(), e) ==
                 Arena([ProofNode(None, None, None, NO_MOVE, e.hash, Some(e.outcome), e.depth)], map[])
    ensures var a := Process(Fresh(), e); Children(a.nodes, 0) == [] && Knows(a, [], 0)
  {
    FreshInv();
    var a := Fresh();
    ApplyRanged(a, 0, e);
    var b := a.(nodes := Apply(a.nodes, 0, e));
    assert b.nodes == [ProofNode(None, None, None, NO_MOVE, e.hash, Some(e.outcome), e.depth)];
    KeepNone(b.nodes, 0, e.outcome);
    ReconcileNothing(b, 0);
  }
}
