/** Reconstruction end to end: a walk that succeeds ends in a tree the validator accepts. */
module Reconstruct {
  import opened Game
  import opened Tree
  import opened Worker
  import opened WorkerInvariant
  import opened WorkerTidy
  import opened Walk
  import opened Walker
  import opened WalkReplay
  import opened Rebuild
  import opened RebuildFaithful
  import opened RebuildResult
  import opened RebuildMachine
  import opened Finalize
  import Validate
  import ValidateSound

  // ----- a rebuilt node and the proof behind its source -----

  ghost predicate KidView(g: Rules, b: Built, c: nat, p: Position, kid: Term)
  {
    c < |b.nodes| && b.nodes[c].mv == kid.mv && b.nodes[c].hash == g.hash(g.play(p, kid.mv))
    && b.nodes[c].outcome == Some(kid.outcome)
  }

  /** The children of `n` are the replies of the proof `t` of its position, in order. */
  ghost predicate View(g: Rules, b: Built, n: nat, p: Position, t: Term)
    requires Formed(b) && n < |b.nodes|
  {
    && Proves(g, p, t) && b.nodes[n].outcome == Some(t.outcome)
    && var cs := Children(b.nodes, n);
       |cs| == |t.kids| && forall k :: 0 <= k < |cs| ==> KidView(g, b, cs[k], p, t.kids[k])
  }

  lemma {:induction false} RealAll(nodes: seq<ProofNode>, kids: seq<nat>, n: nat)
    requires Within(kids, 0, |nodes|) && n <= |kids| && forall k :: 0 <= k < n ==> nodes[kids[k]].outcome.Some?
    ensures RealKids(nodes, kids, n) == kids[..n]
  {
    if n > 0 {
      RealAll(nodes, kids, n - 1);
      assert kids[..n] == kids[..n - 1] + [kids[n - 1]];
    }
  }

  ghost predicate KidFields(g: Rules, nodes: seq<ProofNode>, c: nat, q: Position, kid: Term)
  {
    Fields(g, nodes, c, g.play(q, kid.mv), kid) && nodes[c].mv == kid.mv
  }

  /** All children of a proven raw node are realised. */
  lemma {:induction false} ProvenKids(g: Rules, nodes: seq<ProofNode>, s: nat, q: Position, t: Term)
    requires Linked(nodes) && Represents(g, nodes, s, q, t)
    ensures var kids := Children(nodes, s);
            && |kids| == |t.kids| && RealKids(nodes, kids, |kids|) == kids
            && forall k :: 0 <= k < |kids| ==> KidFields(g, nodes, kids[|kids| - 1 - k], q, t.kids[k])
  {
    var kids := Children(nodes, s);
    forall j | 0 <= j < |kids|
      ensures nodes[kids[j]].outcome.Some?
    {
      var k := |kids| - 1 - j;
      assert Represents(g, nodes, kids[|kids| - 1 - k], g.play(q, t.kids[k].mv), t.kids[k]);
    }
    RealAll(nodes, kids, |kids|);
    assert kids[..|kids|] == kids;
  }

  lemma {:induction false} FaithfulAt(t: Raw, b: Built, n: nat)
    requires Ready(t) && Faithful(t, b) && n < |b.nodes| && !b.cut[n]
    ensures Copies(t, b, n) && ExpandedLike(t, b, n)
  {
    if n > 0 {
      assert Done(t, b, n);
    }
  }

  /** A hash names one position, so whatever twin a node was expanded from proves the node's
      own position. */
  lemma {:induction false} Sources(g: Rules, t: Raw, b: Built, n: nat, p: Position) returns (tt: Term)
    requires Ready(t) && Formed(b) && Faithful(t, b) && AllProven(g, t.nodes, 0) && g.Injective()
    requires n < |b.nodes| && !b.cut[n] && b.nodes[n].hash == g.hash(p)
    ensures View(g, b, n, p, tt)
  {
    hide Faithful, ExpandedLike, KidsAre, Proves, Represents, RealKids, View;
    FaithfulAt(t, b, n);
    var s := b.src[n];
    assert Proven(g, t.nodes, s);
    var q: Position, term: Term :| Represents(g, t.nodes, s, q, term) && Proves(g, q, term);
    tt := term;
    RepresentsFields(g, t.nodes, s, q, tt);
    assert q == p;
    ViewKids(g, t, b, n, p, tt);
  }

  lemma {:induction false} RepresentsFields(g: Rules, nodes: seq<ProofNode>, s: nat, q: Position, t: Term)
    requires Linked(nodes) && Represents(g, nodes, s, q, t)
    ensures nodes[s].outcome == Some(t.outcome) && nodes[s].hash == g.hash(q)
  {
  }

  /** The children of `n` stand for all raw children of its source. */
  lemma {:induction false} StandsForAll(g: Rules, t: Raw, b: Built, n: nat, p: Position, tt: Term)
    requires Ready(t) && Formed(b) && n < |b.nodes| && b.src[n] < |t.nodes|
    requires ExpandedLike(t, b, n) && Represents(g, t.nodes, b.src[n], p, tt)
    ensures KidsAre(t, b, n, Children(t.nodes, b.src[n])) && |Children(t.nodes, b.src[n])| == |tt.kids|
  {
    hide KidsAre;
    ProvenKids(g, t.nodes, b.src[n], p, tt);
  }

  lemma {:induction false} ViewKids(g: Rules, t: Raw, b: Built, n: nat, p: Position, tt: Term)
    requires Ready(t) && Formed(b) && n < |b.nodes| && Faithful(t, b) && b.src[n] < |t.nodes| && Proves(g, p, tt)
    requires b.nodes[n].outcome == Some(tt.outcome) && ExpandedLike(t, b, n) && Represents(g, t.nodes, b.src[n], p, tt)
    ensures View(g, b, n, p, tt)
  {
    hide Faithful, Represents, RealKids, Proves, ExpandedLike, KidView, KidFields, Stands;
    StandsForAll(g, t, b, n, p, tt);
    ProvenKids(g, t.nodes, b.src[n], p, tt);
    var kids := Children(t.nodes, b.src[n]);
    forall k | 0 <= k < |kids|
      ensures k < |Children(b.nodes, n)| && KidView(g, b, Children(b.nodes, n)[k], p, tt.kids[k])
    {
      ViewKid(g, t, b, n, p, tt, kids, k);
    }
  }

  lemma {:induction false} ViewKid(g: Rules, t: Raw, b: Built, n: nat, p: Position, tt: Term, kids: seq<nat>, k: nat)
    requires Ready(t) && Formed(b) && n < |b.nodes| && Faithful(t, b) && KidsAre(t, b, n, kids)
             && k < |kids| == |tt.kids|
    requires KidFields(g, t.nodes, kids[|kids| - 1 - k], p, tt.kids[k])
    ensures k < |Children(b.nodes, n)| && KidView(g, b, Children(b.nodes, n)[k], p, tt.kids[k])
  {
    hide Faithful;
    var cs := Children(b.nodes, n);
    var j := |kids| - 1 - k;
    assert Stands(t, b, cs[|kids| - 1 - j], kids[j]);
    EffFacts(t, kids[j]);
    assert cs[k] in cs;
    KidCopies(t, b, n, cs[k]);
  }

  lemma {:induction false} KidCopies(t: Raw, b: Built, n: nat, c: nat)
    requires Ready(t) && Faithful(t, b) && n < |b.nodes| && IsKid(b.nodes, n, c)
    ensures c < |b.nodes| && Copies(t, b, c)
  {
    KidFacts(b.nodes, n, c);
    assert Done(t, b, c);
  }

  // ----- the finished tree is clean -----

  /** Every hash on the path belongs to a position before `p`. */
  ghost predicate AbovePath(g: Rules, rank: Position -> nat, onPath: set<nat>, p: Position)
  {
    forall x: Position :: rank(x) < rank(p) ==> g.hash(x) !in onPath
  }

  ghost predicate InSet(hs: seq<nat>, s: set<nat>)
  {
    forall i :: 0 <= i < |hs| ==> hs[i] in s
  }

  lemma {:induction false} LocalFromView(g: Rules, b: Built, f: seq<ProofNode>, n: nat, p: Position, t: Term)
    requires Formed(b) && n < |b.nodes| && View(g, b, n, p, t) && g.Sane() && b.nodes[n].hash == g.hash(p)
    requires Linked(f) && f == WithDepths(b.nodes) && Children(f, n) == Children(b.nodes, n)
    requires f[n].depth == 0 <==> Children(f, n) == []
    ensures Validate.LocalOk(g, f, n, p)
    ensures f[n].depth > 0 ==> g.terminal(p).None?
  {
    var cs := Children(f, n);
    if f[n].depth > 0 {
      forall k | 0 <= k < |cs|
        ensures f[cs[k]].outcome == Some(t.outcome.Flip()) && f[cs[k]].mv in g.legal(p)
        ensures t.outcome == Loss ==> f[cs[k]].mv == g.legal(p)[k]
      {
        assert KidView(g, b, cs[k], p, t.kids[k]);
      }
      if t.outcome == Loss {
        forall k | 0 <= k < |g.legal(p)|
          ensures Validate.Replied(f, cs, g.legal(p)[k])
        {
          assert f[cs[k]].mv == g.legal(p)[k];
        }
      }
    }
  }

  /** A position later in play is not on the path, so the child was not cut either. */
  lemma {:induction false} KidDescends(g: Rules, rank: Position -> nat, t: Raw, b: Built, n: nat, p: Position,
          onPath: set<nat>, tt: Term, k: nat)
    requires g.Ranked(rank) && g.Injective() && Ready(t) && Faithful(t, b) && n < |b.nodes| && View(g, b, n, p, tt)
    requires AbovePath(g, rank, onPath, p) && InSet(PathHashes(b.nodes, n), onPath) && k < |Children(b.nodes, n)|
             && g.terminal(p).None?
    ensures var c := Children(b.nodes, n)[k];
            var q := g.play(p, b.nodes[c].mv);
            && n < c < |b.nodes| && !b.cut[c] && b.nodes[c].hash == g.hash(q) && g.hash(q) !in onPath
            && AbovePath(g, rank, onPath + {g.hash(q)}, q)
            && InSet(PathHashes(b.nodes, c), onPath + {g.hash(q)})
  {
    var c := Children(b.nodes, n)[k];
    assert KidView(g, b, c, p, tt.kids[k]);
    KidFacts(b.nodes, n, c);
    var q := g.play(p, b.nodes[c].mv);
    RankDown(g, rank, p, b.nodes[c].mv);
    assert Done(t, b, c);
    assert PathHashes(b.nodes, c) == PathHashes(b.nodes, n) + [b.nodes[c].hash];
    forall x: Position | rank(x) < rank(q)
      ensures g.hash(x) !in onPath + {g.hash(q)}
    {
    }
  }

  lemma {:induction false} CleanFrom(g: Rules, rank: Position -> nat, t: Raw, b: Built, f: seq<ProofNode>, n: nat,
          p: Position, onPath: set<nat>)
    requires g.Sane() && g.Ranked(rank) && g.Injective() && Ready(t) && Faithful(t, b) && AllProven(g, t.nodes, 0)
    requires Installed(b, f) && n < |f| && !b.cut[n] && b.nodes[n].hash == g.hash(p)
    requires AbovePath(g, rank, onPath, p) && InSet(PathHashes(b.nodes, n), onPath)
    ensures Validate.Clean(g, f, n, p, onPath) && ValidateSound.InteriorAgrees(g, f, n, p)
    decreases |f| - n
  {
    hide Faithful, Ready, AllProven, AbovePath, PathHashes, View, Validate.LocalOk;
    var tt := Sources(g, t, b, n, p);
    LocalFromView(g, b, f, n, p, tt);
    var cs := Children(f, n);
    forall k | 0 <= k < |cs| && f[n].depth > 0
      ensures var q := g.play(p, f[cs[k]].mv);
              && g.hash(q) !in onPath && Validate.Clean(g, f, cs[k], q, onPath + {g.hash(q)})
              && ValidateSound.InteriorAgrees(g, f, cs[k], q)
    {
      KidDescends(g, rank, t, b, n, p, onPath, tt, k);
      var q := g.play(p, f[cs[k]].mv);
      CleanFrom(g, rank, t, b, f, cs[k], q, onPath + {g.hash(q)});
    }
  }

  /** The rebuilt nodes with their depths. */
  ghost predicate Installed(b: Built, f: seq<ProofNode>)
  {
    && Formed(b) && f == WithDepths(b.nodes) && Linked(f)
    && forall i :: 0 <= i < |f| ==>
         && Children(f, i) == Children(b.nodes, i)
         && (f[i].depth == 0 <==> Children(f, i) == [])
         && f[i].depth == Validate.Expected(f, i)
  }

  lemma {:induction false} FinishedInstalled(t: Raw)
    requires Ready(t) && t.nodes[0].outcome.Some? && forall i: nat :: Polar(t.nodes, i)
    ensures Installed(Rebuilt(t), Finished(t))
  {
    hide Polar, Rebuilt;
    FinishedLinks(t);
    FinishedDepths(t);
  }

  /** The canonical tree of a fully proven arena is a proof of the root position. */
  lemma {:induction false} FinishedClean(g: Rules, rank: Position -> nat, t: Raw, root: Position)
    requires g.Sane() && g.Ranked(rank) && g.Injective() && Ready(t) && AllProven(g, t.nodes, 0)
    requires t.nodes[0].outcome.Some? && t.nodes[0].hash == g.hash(root) && forall i: nat :: Polar(t.nodes, i)
    ensures var f := Finished(t);
            && Linked(f) && f[0].outcome == t.nodes[0].outcome
            && Validate.Clean(g, f, 0, root, {}) && ValidateSound.InteriorAgrees(g, f, 0, root)
  {
    hide Polar, Rebuilt, AllProven;
    FinishedInstalled(t);
    RebuiltFaithful(t);
    EffFacts(t, 0);
    CleanFrom(g, rank, t, Rebuilt(t), Finished(t), 0, root, {});
  }

  // ----- the walk's events -----

  lemma {:induction false} PreorderReal(g: Rules, p: Position, path: seq<Move>, t: Term)
    requires g.Sane() && Proves(g, p, t) && NO_MOVE !in path
    ensures RealPaths(Preorder(g, p, path, t))
    decreases t, |t.kids| + 1
  {
    PreorderKidsReal(g, p, path, t, |t.kids|);
  }

  lemma {:induction false} PreorderKidsReal(g: Rules, p: Position, path: seq<Move>, t: Term, n: nat)
    requires g.Sane() && Proves(g, p, t) && NO_MOVE !in path && n <= |t.kids|
    ensures RealPaths(PreorderKids(g, p, path, t, n))
    decreases t, n
  {
    if n > 0 {
      var k := t.kids[n - 1];
      PreorderKidsReal(g, p, path, t, n - 1);
      PreorderReal(g, g.play(p, k.mv), path + [k.mv], k);
    }
  }

  ghost predicate DepthsFit(es: seq<Event>)
  {
    forall i :: 0 <= i < |es| ==> es[i].depth < U32_MAX
  }

  lemma {:induction false} FitIsSmall(g: Rules, p: Position, path: seq<Move>, t: Term)
    requires DepthsFit(Preorder(g, p, path, t))
    ensures Small(t)
    decreases t, |t.kids| + 1
  {
    var own := Event(path, g.hash(p), t.outcome, t.depth);
    var below := PreorderKids(g, p, path, t, |t.kids|);
    assert Preorder(g, p, path, t)[0] == own;
    assert forall i :: 0 <= i < |below| ==> Preorder(g, p, path, t)[i + 1] == below[i];
    KidsFitSmall(g, p, path, t, |t.kids|);
  }

  lemma {:induction false} KidsFitSmall(g: Rules, p: Position, path: seq<Move>, t: Term, n: nat)
    requires n <= |t.kids| && DepthsFit(PreorderKids(g, p, path, t, n))
    ensures forall k :: 0 <= k < n ==> Small(t.kids[k])
    decreases t, n
  {
    if n > 0 {
      var k := t.kids[n - 1];
      var before := PreorderKids(g, p, path, t, n - 1);
      var last := Preorder(g, g.play(p, k.mv), path + [k.mv], k);
      assert forall i :: 0 <= i < |before| ==> (before + last)[i] == before[i];
      assert forall i :: 0 <= i < |last| ==> (before + last)[|before| + i] == last[i];
      KidsFitSmall(g, p, path, t, n - 1);
      FitIsSmall(g, g.play(p, k.mv), path + [k.mv], k);
    }
  }

  /** The events of a completed walk, processed and finalised in whatever interleaving, leave
      a proof of the root. */
  lemma {:induction false} WalkEndsClean(g: Rules, rank: Position -> nat, root: Position, t: Term, f: seq<ProofNode>,
          canon: Canon)
    requires g.Sane() && g.Ranked(rank) && g.Injective() && Proves(g, root, t)
    requires var es := Preorder(g, root, [], t);
             DepthsFit(es) && IsFinished(Run(es, |es|).nodes, f) && IsCanon(Run(es, |es|).nodes, canon)
    ensures Linked(f) && f[0].outcome == Some(t.outcome)
    ensures Validate.Clean(g, f, 0, root, {}) && ValidateSound.InteriorAgrees(g, f, 0, root)
  {
    var es := Preorder(g, root, [], t);
    FitIsSmall(g, root, [], t);
    WalkReplayed(g, root, t);
    RunKeeps(es, |es|);
    var raw := Run(es, |es|).nodes;
    assert CanonTree(raw, canon, f);
    assert Fields(g, raw, 0, root, t);
    FinishedClean(g, rank, Raw(raw, canon), root);
  }

  /** The worker has realised the root once it has seen the whole walk. */
  lemma {:induction false} RootRealised(g: Rules, root: Position, t: Term)
    requires g.Sane() && Proves(g, root, t) && DepthsFit(Preorder(g, root, [], t))
    ensures var es := Preorder(g, root, [], t); Run(es, |es|).nodes[0].outcome.Some?
  {
    FitIsSmall(g, root, [], t);
    WalkReplayed(g, root, t);
    assert Fields(g, Run(Preorder(g, root, [], t), |Preorder(g, root, [], t)|).nodes, 0, root, t);
  }

  datatype Output = Output(stats: Stats, fillEvals: nat, rootOutcome: Option<Outcome>,
                           tree: Option<seq<ProofNode>>, defects: nat, error: Option<WalkError>)

  /** Walk, and on success finalise.  `fill` and `limited` answer the fill searches and the
      looks at the memory flag, `over` says after which events the worker is over budget, and
      `split` how many events it had taken when the finalise query reached it. */
  method RunReconstruction(g: Rules, keys: Keys, config: Config, root: Position, solved: seq<Record>, fill: nat -> Fill,
          limited: nat -> bool, over: nat -> bool, split: nat, ghost rank: Position -> nat)
    returns (out: Output, ghost events: seq<Event>)
    requires g.Sane() && g.Ranked(rank)
    ensures out.rootOutcome.Some? ==> Holds(g, root, out.rootOutcome.value)
    ensures out.tree.Some? ==> out.rootOutcome.Some? && out.error.None?
    ensures out.rootOutcome.Some? && out.error != Some(MemoryLimit) && DepthsFit(events)
            && (forall i: nat :: !over(i)) ==>
              out.tree.Some?
    ensures out.rootOutcome.Some? ==> out.stats.Total() == |events|
    ensures out.tree.Some? && g.Injective() && DepthsFit(events) && (forall i: nat :: !over(i)) ==>
              var f := out.tree.value;
              && out.defects == 0 && Linked(f) && f[0].outcome == out.rootOutcome
              && Validate.Clean(g, f, 0, root, {})
              && (|f| <= U32_MAX ==> Forced(g, root, f[0].outcome.value, f[0].depth))
  {
    var known, duplicates := BuildSolvedMap(solved);
    var walker := new Walker(g, keys, config, fill, limited, rank, root, known, duplicates);
    var result, term := walker.Visit(None, None);
    events := walker.events;
    var rootOutcome := if result.Ok? then Some(result.value) else None;
    out := Output(walker.stats, walker.fillEvals, rootOutcome, None, 0, None);
    if result.Err? {
      out := out.(error := Some(result.error));
      return;
    }
    assert events == Preorder(g, root, [], term);
    hide Proves, Preorder, IsFinished, RealPaths, Validate.Clean, Forced, Holds;
    ProvesHolds(g, root, term);
    PreorderReal(g, root, [], term);
    if limited(walker.polls) {
      out := out.(error := Some(MemoryLimit));
      return;
    }
    var taken := if split < |walker.events| then split else |walker.events|;
    var w, r, n := RunWorker(walker.events, taken, over, g, root);
    match r {
      case RootUnrealised =>
        out := out.(error := Some(NotDecisive));
        if DepthsFit(events) && (forall i: nat :: !over(i)) {
          RootRealised(g, root, term);
          assert false;
        }
      case Installed(defects) =>
        out := out.(tree := Some(w.nodes), defects := defects);
        if g.Injective() && DepthsFit(events) && (forall i: nat :: !over(i)) {
          Accepted(g, rank, root, term, w.nodes, defects);
        }
    }
  }

  lemma {:induction false} CanonExists(nodes: seq<ProofNode>) returns (canon: Canon)
    requires Linked(nodes)
    ensures IsCanon(nodes, canon)
  {
    canon := CanonUpTo(nodes, |nodes|);
  }

  lemma {:induction false} CanonUpTo(nodes: seq<ProofNode>, n: nat) returns (canon: Canon)
    requires Linked(nodes) && n <= |nodes|
    ensures TwinsOk(nodes, canon, n) && forall id :: 0 <= id < n ==> BestAt(nodes, canon, id)
  {
    hide Precedes;
    if n == 0 {
      canon := map[];
    } else {
      canon := CanonUpTo(nodes, n - 1);
      var id := n - 1;
      if Expanded(nodes, id) {
        var key := KeyOf(nodes, id);
        if key !in canon || Precedes(nodes, id, canon[key]) {
          ReplaceTwin(nodes, canon, id);
          canon := canon[key := id];
        } else {
          PrecedesTotal(nodes, id, canon[key]);
        }
      }
    }
  }

  lemma {:induction false} PrecedesTotal(nodes: seq<ProofNode>, a: nat, b: nat)
    requires Linked(nodes) && a < |nodes| && b < |nodes| && a != b && !Precedes(nodes, a, b)
    ensures Precedes(nodes, b, a)
  {
    hide Consistent, Children;
  }

  lemma {:induction false} Accepted(g: Rules, rank: Position -> nat, root: Position, t: Term, f: seq<ProofNode>,
          defects: nat)
    requires g.Sane() && g.Ranked(rank) && g.Injective() && Proves(g, root, t)
    requires var es := Preorder(g, root, [], t);
             DepthsFit(es) && IsFinished(Run(es, |es|).nodes, f)
    requires Linked(f) && ValidateSound.LeavesAreZero(f) && defects == |Validate.Report(g, f, 0, root, [], {})|
    ensures defects == 0 && f[0].outcome == Some(t.outcome) && Validate.Clean(g, f, 0, root, {})
    ensures |f| <= U32_MAX ==> Forced(g, root, t.outcome, f[0].depth)
  {
    var es := Preorder(g, root, [], t);
    var canon := CanonExists(Run(es, |es|).nodes);
    WalkEndsClean(g, rank, root, t, f, canon);
    Validate.ReportEmptyIffClean(g, f, 0, root, [], {});
    if |f| <= U32_MAX {
      ValidateSound.LeavesAreZeroShaped(f, 0);
      ValidateSound.ClaimsTrueIff(g, f, 0, root, {});
    }
  }
}
