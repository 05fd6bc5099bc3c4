/** Grafting a path and overlaying a shard: the tree gains exactly the shard's marks, and a
    contradiction is reported exactly when the marks are contradictory. */
module PathMerge {
  import opened Game
  import opened Tree
  import opened RebuildResult
  import opened Paths

  /** A proof tree, the path from the start to its root, and its name. */
  datatype Shard = Shard(path: Path, nodes: seq<ProofNode>, tag: Tag)

  ghost predicate ShardShaped(s: Shard)
  {
    && Linked(s.nodes) && AllKids(s.nodes)
    && (forall j :: 0 <= j < |s.path| ==> s.path[j] < CODES)
    && (forall j :: 0 <= j < |s.nodes| ==> s.nodes[j].mv < CODES)
  }

  /** The moves from the root of a proof tree to `j`. */
  ghost function TreePath(nodes: seq<ProofNode>, j: nat): Path
    requires Linked(nodes) && j < |nodes|
    decreases j
  {
    assert NodeLinked(nodes, j);
    if j == 0 then [] else TreePath(nodes, nodes[j].parent.value) + [nodes[j].mv]
  }

  ghost function ShardAt(s: Shard, j: nat): Path
    requires Linked(s.nodes) && j < |s.nodes|
  {
    s.path + TreePath(s.nodes, j)
  }

  lemma {:induction false} ShardKid(s: Shard, i: nat, c: nat)
    requires Linked(s.nodes) && IsKid(s.nodes, i, c)
    ensures i < c < |s.nodes| && ShardAt(s, c) == ShardAt(s, i) + [s.nodes[c].mv]
  {
    KidFacts(s.nodes, i, c);
  }

  predicate DecidedNode(n: ProofNode) { n.outcome == Some(Win) || n.outcome == Some(Loss) }

  /** Every node has a decisive outcome. */
  ghost predicate ShardDecided(s: Shard)
  {
    forall j :: 0 <= j < |s.nodes| ==> DecidedNode(s.nodes[j])
  }

  // ----- the marks of a shard -----

  ghost function StepMarks(path: Path, tag: Tag, k: nat): set<Mark>
    requires k <= |path|
  {
    {Node(path[..k]), Tagged(path[..k], tag)}
  }

  /** The ancestor chain of the graft. */
  ghost function StemMarks(path: Path, tag: Tag, n: nat): set<Mark>
    requires n <= |path|
  {
    StepMarks(path, tag, n) + if n == 0 then {} else StemMarks(path, tag, n - 1)
  }

  ghost function OwnMarks(s: Shard, j: nat): (r: set<Mark>)
    requires Linked(s.nodes) && j < |s.nodes|
    ensures forall m :: m in r ==> m.p == ShardAt(s, j)
  {
    var p := ShardAt(s, j);
    {Node(p), Tagged(p, s.tag)} + (if s.nodes[j].outcome.Some? then {Claim(p, s.nodes[j].outcome.value)} else {})
    + if s.nodes[j].depth == 0 then {End(p)} else {}
  }

  ghost function BodyMarks(s: Shard): set<Mark>
    requires Linked(s.nodes)
  {
    set j, m | 0 <= j < |s.nodes| && m in OwnMarks(s, j) :: m
  }

  ghost function ShardMarks(s: Shard): set<Mark>
    requires ShardShaped(s)
  {
    StemMarks(s.path, s.tag, |s.path|) + BodyMarks(s)
  }

  /** The tree has grown: paths and outcomes are kept. */
  ghost predicate Gains(a: seq<PathNode>, b: seq<PathNode>)
  {
    SameShape(a, b) && forall i :: 0 <= i < |a| ==> a[i].outcome.Some? ==> b[i].outcome == a[i].outcome
  }

  /** Existing nodes that gained an outcome. */
  ghost function Upgraded(a: seq<PathNode>, b: seq<PathNode>): set<nat>
  {
    set i: nat | i < |a| && i < |b| && a[i].outcome.None? && b[i].outcome.Some?
  }

  datatype Pending = Pending(mid: nat, tid: nat)

  ghost predicate OnStack(stack: seq<Pending>, j: nat)
  {
    exists k :: 0 <= k < |stack| && stack[k].tid == j
  }

  ghost predicate Placed(nodes: seq<PathNode>, s: Shard, e: Pending)
    requires Shaped(nodes) && Linked(s.nodes)
  {
    e.tid < |s.nodes| && e.mid < |nodes| && PathOf(nodes, e.mid) == ShardAt(s, e.tid)
  }

  /** Where the walk over the shard stands. */
  ghost predicate Front(nodes: seq<PathNode>, s: Shard, stack: seq<Pending>, done: set<nat>)
    requires Shaped(nodes) && Linked(s.nodes)
  {
    && (forall k :: 0 <= k < |stack| ==> Placed(nodes, s, stack[k]) && stack[k].tid !in done)
    && (forall a, b :: 0 <= a < b < |stack| ==> stack[a].tid != stack[b].tid)
    && (forall j :: j in done ==> j < |s.nodes|)
    && (forall j :: 0 <= j < |s.nodes| ==> ((j in done || OnStack(stack, j)) <==> Reached(s, done, j)))
  }

  ghost predicate Reached(s: Shard, done: set<nat>, j: nat)
    requires j < |s.nodes|
  {
    j == 0 || (s.nodes[j].parent.Some? && s.nodes[j].parent.value in done)
  }

  lemma {:induction false} FrontFrame(a: seq<PathNode>, b: seq<PathNode>, s: Shard, stack: seq<Pending>, done: set<nat>)
    requires Shaped(a) && Shaped(b) && SameShape(a, b) && Linked(s.nodes) && Front(a, s, stack, done)
    ensures Front(b, s, stack, done)
  {
    hide OnStack, Reached;
    forall k | 0 <= k < |stack|
      ensures Placed(b, s, stack[k])
    {
      assert Placed(a, s, stack[k]);
      PathFrame(a, b, stack[k].mid);
    }
  }

  lemma {:induction false} NoneGained(nodes: seq<PathNode>)
    ensures Gains(nodes, nodes) && Upgraded(nodes, nodes) == {}
  {
  }

  lemma {:induction false} GainsTrans(a: seq<PathNode>, b: seq<PathNode>, c: seq<PathNode>)
    requires Gains(a, b) && Gains(b, c)
    ensures Gains(a, c) && SameShape(b, c)
  {
  }

  lemma {:induction false} ChildrenLinked(s: Shard)
    requires ShardShaped(s)
    ensures Linked(s.nodes)
  {
  }

  /** A child's node is among the shard's marks. */
  lemma {:induction false} ChildIn(s: Shard, tid: nat, k: nat)
    requires ShardShaped(s) && Linked(s.nodes) && tid < |s.nodes| && k < |Children(s.nodes, tid)|
    ensures var c := Children(s.nodes, tid)[k];
            IsKid(s.nodes, tid, c) && c < |s.nodes| && s.nodes[c].mv < CODES && Node(ShardAt(s, c)) in BodyMarks(s)
  {
    var c := Children(s.nodes, tid)[k];
    assert IsKid(s.nodes, tid, c);
    assert Node(ShardAt(s, c)) in OwnMarks(s, c);
  }

  lemma {:induction false} PlacedFrame(a: seq<PathNode>, b: seq<PathNode>, s: Shard, ps: seq<Pending>)
    requires Shaped(a) && Shaped(b) && SameShape(a, b) && Linked(s.nodes)
    requires forall i :: 0 <= i < |ps| ==> Placed(a, s, ps[i])
    ensures forall i :: 0 <= i < |ps| ==> Placed(b, s, ps[i])
  {
    forall i | 0 <= i < |ps|
      ensures Placed(b, s, ps[i])
    {
      PathFrame(a, b, ps[i].mid);
    }
  }

  /** An empty stack means that everything was walked. */
  lemma {:induction false} AllDone(nodes: seq<PathNode>, s: Shard, done: set<nat>, j: nat)
    requires Shaped(nodes) && Linked(s.nodes) && Front(nodes, s, [], done) && j < |s.nodes|
    ensures j in done
    decreases j
  {
    assert NodeLinked(s.nodes, j);
    assert !OnStack([], j);
    if j > 0 {
      AllDone(nodes, s, done, s.nodes[j].parent.value);
    }
    assert Reached(s, done, j);
  }

  lemma {:induction false} DoneCount(done: set<nat>, n: nat)
    requires forall j :: j in done ==> j < n
    ensures |done| <= n
  {
    if n == 0 {
      assert done == {};
    } else {
      DoneCount(done - {n - 1}, n - 1);
    }
  }

  /** `more` lists the children of the popped node `tid`. */
  ghost predicate Popped(s: Shard, stack: seq<Pending>, tid: nat, more: seq<Pending>)
    requires Linked(s.nodes) && tid < |s.nodes|
  {
    && stack != [] && tid == stack[|stack| - 1].tid
    && var kids := Children(s.nodes, tid);
       |more| == |kids| && forall k :: 0 <= k < |kids| ==> more[k].tid == kids[k]
  }

  lemma {:induction false} KidIsNew(nodes: seq<PathNode>, s: Shard, stack: seq<Pending>, done: set<nat>, tid: nat,
          c: nat)
    requires Shaped(nodes) && ShardShaped(s) && stack != [] && tid == stack[|stack| - 1].tid
    requires Front(nodes, s, stack, done) && tid < |s.nodes| && IsKid(s.nodes, tid, c)
    ensures c !in done + {tid} && !OnStack(stack[..|stack| - 1], c)
  {
    KidFacts(s.nodes, tid, c);
    assert stack[|stack| - 1].tid !in done;
    assert !Reached(s, done, c);
    StackTop(stack, c);
  }

  lemma {:induction false} StackDistinct(nodes: seq<PathNode>, s: Shard, stack: seq<Pending>, done: set<nat>, tid: nat,
          more: seq<Pending>)
    requires Shaped(nodes) && ShardShaped(s) && tid < |s.nodes| && Popped(s, stack, tid, more)
             && Front(nodes, s, stack, done)
    ensures var grown := stack[..|stack| - 1] + more; forall a, b :: 0 <= a < b < |grown| ==>
              grown[a].tid != grown[b].tid
  {
    var rest := stack[..|stack| - 1];
    var grown := rest + more;
    var kids := Children(s.nodes, tid);
    ChildrenDescending(s.nodes, tid);
    hide Children;
    forall a, b | 0 <= a < b < |grown|
      ensures grown[a].tid != grown[b].tid
    {
      if a < |rest| && b >= |rest| {
        var k := b - |rest|;
        assert grown[b] == more[k] && rest[a] == grown[a];
        assert IsKid(s.nodes, tid, kids[k]);
        KidIsNew(nodes, s, stack, done, tid, kids[k]);
        assert !OnStack(rest, kids[k]);
      } else if a >= |rest| {
        assert grown[a] == more[a - |rest|] && grown[b] == more[b - |rest|];
      } else {
        assert grown[a] == stack[a] && grown[b] == stack[b];
      }
    }
  }

  /** The children of the popped node replace it. */
  lemma {:induction false} FrontStep(nodes: seq<PathNode>, s: Shard, stack: seq<Pending>, done: set<nat>, tid: nat,
          more: seq<Pending>)
    requires Shaped(nodes) && ShardShaped(s) && tid < |s.nodes| && Popped(s, stack, tid, more)
             && Front(nodes, s, stack, done)
    requires forall k :: 0 <= k < |more| ==> Placed(nodes, s, more[k])
    ensures Front(nodes, s, stack[..|stack| - 1] + more, done + {tid})
  {
    var rest := stack[..|stack| - 1];
    var grown := rest + more;
    StackDistinct(nodes, s, stack, done, tid, more);
    hide Children, Placed, OnStack, Reached, AllKids;
    forall k | 0 <= k < |grown|
      ensures Placed(nodes, s, grown[k]) && grown[k].tid !in done + {tid}
    {
      if k < |rest| {
        assert stack[k] == grown[k];
      } else {
        assert more[k - |rest|] == grown[k];
        assert IsKid(s.nodes, tid, grown[k].tid);
        KidIsNew(nodes, s, stack, done, tid, grown[k].tid);
      }
    }
    forall j | 0 <= j < |s.nodes|
      ensures (j in done + {tid} || OnStack(grown, j)) <==> Reached(s, done + {tid}, j)
    {
      FrontOne(s, stack, done, tid, rest, more, j);
    }
  }

  lemma {:induction false} FrontOne(s: Shard, stack: seq<Pending>, done: set<nat>, tid: nat, rest: seq<Pending>,
          more: seq<Pending>, j: nat)
    requires ShardShaped(s) && stack != [] && tid == stack[|stack| - 1].tid && rest == stack[..|stack| - 1]
    requires tid < |s.nodes| && j < |s.nodes| && ((j in done || OnStack(stack, j)) <==> Reached(s, done, j))
    requires var kids := Children(s.nodes, tid); |more| == |kids| && forall k :: 0 <= k < |kids| ==>
               more[k].tid == kids[k]
    ensures (j in done + {tid} || OnStack(rest + more, j)) <==> Reached(s, done + {tid}, j)
  {
    var kids := Children(s.nodes, tid);
    var grown := rest + more;
    assert j in done + {tid} || OnStack(rest, j) <==> j in done || OnStack(stack, j) by {
      StackTop(stack, j);
    }
    assert OnStack(grown, j) <==> OnStack(rest, j) || OnStack(more, j) by {
      StackSplit(rest, more, j);
    }
    assert OnStack(more, j) <==> j in kids;
    assert j in kids <==> j > 0 && s.nodes[j].parent == Some(tid) by {
      assert NodeLinked(s.nodes, j);
      if j > 0 {
        assert IsKidOfParent(s.nodes, j);
      }
    }
  }

  lemma {:induction false} StackTop(stack: seq<Pending>, j: nat)
    requires stack != []
    ensures OnStack(stack, j) <==> OnStack(stack[..|stack| - 1], j) || j == stack[|stack| - 1].tid
  {
    var rest := stack[..|stack| - 1];
    if OnStack(rest, j) {
      var k :| 0 <= k < |rest| && rest[k].tid == j;
      assert stack[k].tid == j;
    }
    if OnStack(stack, j) {
      var k :| 0 <= k < |stack| && stack[k].tid == j;
      assert k < |rest| ==> rest[k].tid == j;
    }
  }

  lemma {:induction false} StackSplit(a: seq<Pending>, b: seq<Pending>, j: nat)
    ensures OnStack(a + b, j) <==> OnStack(a, j) || OnStack(b, j)
  {
    var all := a + b;
    if OnStack(a, j) {
      var k :| 0 <= k < |a| && a[k].tid == j;
      assert all[k].tid == j;
    }
    if OnStack(b, j) {
      var k :| 0 <= k < |b| && b[k].tid == j;
      assert all[|a| + k].tid == j;
    }
    if OnStack(all, j) {
      var k :| 0 <= k < |all| && all[k].tid == j;
      assert if k < |a| then a[k].tid == j else b[k - |a|].tid == j;
    }
  }

  class PathTree {
    var nodes: seq<PathNode>
    var ancestorInsertions: nat
    var overlayInsertions: nat
    var openUpgraded: nat
    ghost var marks: set<Mark>

    ghost predicate Valid()
      reads this
    {
      Reads(nodes, marks)
    }

    constructor ()
      ensures Valid() && nodes == [ROOT_NODE] && marks == {Node([])}
      ensures ancestorInsertions == overlayInsertions == openUpgraded == 0
    {
      nodes, marks := [ROOT_NODE], {Node([])};
      ancestorInsertions, overlayInsertions, openUpgraded := 0, 0, 0;
      new;
      FreshReads();
    }

    /** The tree of a loaded store. */
    constructor Loaded(nodes: seq<PathNode>, ghost marks: set<Mark>)
      requires Reads(nodes, marks)
      ensures Valid() && this.nodes == nodes && this.marks == marks
      ensures ancestorInsertions == overlayInsertions == openUpgraded == 0
    {
      this.nodes, this.marks := nodes, marks;
      ancestorInsertions, overlayInsertions, openUpgraded := 0, 0, 0;
    }

    /** The child of `cur` by `mv`, created open if it is missing. */
    method FindOrAdd(cur: nat, mv: Move) returns (id: nat, added: bool)
      requires Valid() && cur < |nodes| && mv < CODES
      modifies this`nodes, this`marks
      ensures Valid() && Shaped(old(nodes)) && SameShape(old(nodes), nodes)
      ensures |nodes| == |old(nodes)| + (if added then 1 else 0)
      ensures forall i :: 0 <= i < |old(nodes)| ==> nodes[i].outcome == old(nodes)[i].outcome
      ensures id < |nodes| && PathOf(nodes, id) == PathOf(old(nodes), cur) + [mv]
      ensures marks == old(marks) + {Node(PathOf(nodes, id))}
    {
      ghost var p := PathOf(nodes, cur);
      if mv in nodes[cur].children {
        id, added := nodes[cur].children[mv], false;
        ChildPath(nodes, cur, mv);
        assert NodeReads(nodes, marks, id);
      } else {
        id, added := |nodes|, true;
        var n := NewNode(nodes, cur, mv);
        GrownReads(nodes, marks, cur, mv, n);
        assert MarksOf(p + [mv], n) == {Node(p + [mv])};
        nodes := Grown(nodes, cur, mv, n);
        marks := marks + {Node(p + [mv])};
      }
    }

    /** Add a shard's name to a node. */
    method Tag(id: nat, tag: Tag)
      requires Valid() && id < |nodes|
      modifies this`nodes, this`marks
      ensures Valid() && Shaped(old(nodes)) && SameShape(old(nodes), nodes) && |nodes| == |old(nodes)|
      ensures forall i :: 0 <= i < |old(nodes)| ==> nodes[i].outcome == old(nodes)[i].outcome
      ensures marks == old(marks) + {Tagged(PathOf(nodes, id), tag)}
    {
      ghost var more := {Tagged(PathOf(nodes, id), tag)};
      assert NodeReads(nodes, marks, id);
      var painted := nodes[id := nodes[id].(prov := nodes[id].prov + {tag})];
      RepaintedReads(nodes, painted, id, marks, more);
      PathFrame(nodes, painted, id);
      nodes, marks := painted, marks + more;
    }

    /** Create the ancestor chain of `path` as open nodes, each tagged. */
    method GraftPath(path: Path, tag: Tag) returns (cur: nat)
      requires Valid() && forall j :: 0 <= j < |path| ==> path[j] < CODES
      modifies this
      ensures Valid() && Shaped(old(nodes)) && SameShape(old(nodes), nodes)
      ensures cur < |nodes| && PathOf(nodes, cur) == path
      ensures marks == old(marks) + StemMarks(path, tag, |path|)
      ensures forall i :: 0 <= i < |old(nodes)| ==> nodes[i].outcome == old(nodes)[i].outcome
      ensures ancestorInsertions == old(ancestorInsertions) + |nodes| - |old(nodes)|
      ensures overlayInsertions == old(overlayInsertions) && openUpgraded == old(openUpgraded)
    {
      hide Reads, NodeReads;
      cur := 0;
      ValidShaped();
      Tag(0, tag);
      RootMarked();
      PathOfRoot(nodes);
      ghost var start := old(nodes);
      for k := 0 to |path|
        invariant Valid() && Shaped(nodes) && SameShape(start, nodes) && cur < |nodes|
                  && PathOf(nodes, cur) == path[..k]
        invariant marks == old(marks) + StemMarks(path, tag, k)
        invariant forall i :: 0 <= i < |old(nodes)| ==> nodes[i].outcome == old(nodes)[i].outcome
        invariant ancestorInsertions == old(ancestorInsertions) + |nodes| - |old(nodes)|
        invariant overlayInsertions == old(overlayInsertions) && openUpgraded == old(openUpgraded)
      {
        assert path[..k + 1] == path[..k] + [path[k]];
        var next, added := FindOrAdd(cur, path[k]);
        if added {
          ancestorInsertions := ancestorInsertions + 1;
        }
        ghost var before := nodes;
        ValidShaped();
        Tag(next, tag);
        ValidShaped();
        PathFrame(before, nodes, next);
        cur := next;
      }
      assert path[..|path|] == path;
    }

    /** Record a proven outcome; nothing happens on a contradiction. */
    method Prove(mid: nat, o: Outcome, ends: bool, tag: Tag, pre: nat) returns (ok: bool)
      requires Valid() && mid < |nodes|
      modifies this`nodes, this`marks, this`openUpgraded
      ensures Valid() && Shaped(old(nodes)) && SameShape(old(nodes), nodes) && |nodes| == |old(nodes)|
      ensures ok <==> old(nodes)[mid].outcome.None? || old(nodes)[mid].outcome == Some(o)
      ensures !ok ==> nodes == old(nodes) && marks == old(marks) && openUpgraded == old(openUpgraded)
      ensures ok ==> var p := PathOf(old(nodes), mid);
                     marks == old(marks) + ProvenMarks(p, o, ends, tag)
      ensures ok ==> nodes[mid].outcome == Some(o) && forall i :: 0 <= i < |nodes| && i != mid ==>
                nodes[i].outcome == old(nodes)[i].outcome
      ensures ok ==> openUpgraded == old(openUpgraded) + if old(nodes)[mid].outcome.None? && mid < pre then 1 else 0
    {
      hide Reads, NodeReads, PathOf, ProvenNode, ProvenMarks, Shaped, SameShape;
      var n := nodes[mid];
      ProvenReads(nodes, marks, mid, o, ends, tag);
      if n.outcome.Some? && n.outcome.value != o {
        return false;
      }
      if n.outcome.None? && mid < pre {
        openUpgraded := openUpgraded + 1;
      }
      ghost var more := ProvenMarks(PathOf(nodes, mid), o, ends, tag);
      nodes := nodes[mid := ProvenNode(n, o, ends, tag)];
      marks := marks + more;
      ok := true;
    }

    /** Find or create the merged child of one shard child. */
    method PushChild(s: Shard, mid: nat, tid: nat, tc: nat) returns (p: Pending)
      requires Valid() && Linked(s.nodes) && mid < |nodes| && tid < |s.nodes| && PathOf(nodes, mid) == ShardAt(s, tid)
      requires IsKid(s.nodes, tid, tc) && s.nodes[tc].mv < CODES
      modifies this`nodes, this`marks, this`overlayInsertions
      ensures Valid() && Shaped(old(nodes)) && SameShape(old(nodes), nodes)
      ensures forall i :: 0 <= i < |old(nodes)| ==> nodes[i].outcome == old(nodes)[i].outcome
      ensures p.tid == tc && Shaped(nodes) && Placed(nodes, s, p)
      ensures marks == old(marks) + {Node(ShardAt(s, tc))}
      ensures overlayInsertions == old(overlayInsertions) + |nodes| - |old(nodes)|
    {
      hide Reads, NodeReads, Children;
      ShardKid(s, tid, tc);
      var cid, added := FindOrAdd(mid, s.nodes[tc].mv);
      if added {
        overlayInsertions := overlayInsertions + 1;
      }
      ValidShaped();
      p := Pending(cid, tc);
    }

    /** Push the children of `tid` below `mid`. */
    method PushChildren(s: Shard, mid: nat, tid: nat) returns (more: seq<Pending>)
      requires Valid() && ShardShaped(s) && tid < |s.nodes| && mid < |nodes| && PathOf(nodes, mid) == ShardAt(s, tid)
      modifies this`nodes, this`marks, this`overlayInsertions
      ensures Valid() && Shaped(old(nodes)) && SameShape(old(nodes), nodes)
      ensures forall i :: 0 <= i < |old(nodes)| ==> nodes[i].outcome == old(nodes)[i].outcome
      ensures var kids := Children(s.nodes, tid);
              |more| == |kids| && forall k :: 0 <= k < |kids| ==> more[k].tid == kids[k] && Placed(nodes, s, more[k])
      ensures old(marks) <= marks <= old(marks) + BodyMarks(s)
      ensures overlayInsertions == old(overlayInsertions) + |nodes| - |old(nodes)|
    {
      hide Reads, NodeReads, OwnMarks, BodyMarks, Children, PathOf, ShardShaped, Placed;
      assert Linked(s.nodes) by { ChildrenLinked(s); }
      var kids := ListChildren(s.nodes, tid);
      more := [];
      ValidShaped();
      for k := 0 to |kids|
        invariant Valid() && Shaped(nodes) && SameShape(old(nodes), nodes) && |more| == k
        invariant mid < |nodes| && PathOf(nodes, mid) == ShardAt(s, tid)
        invariant forall i :: 0 <= i < |old(nodes)| ==> nodes[i].outcome == old(nodes)[i].outcome
        invariant forall i :: 0 <= i < k ==> more[i].tid == kids[i] && Placed(nodes, s, more[i])
        invariant old(marks) <= marks <= old(marks) + BodyMarks(s)
        invariant overlayInsertions == old(overlayInsertions) + |nodes| - |old(nodes)|
      {
        ghost var before := nodes;
        ChildIn(s, tid, k);
        var p := PushChild(s, mid, tid, kids[k]);
        PathFrame(before, nodes, mid);
        PlacedFrame(before, nodes, s, more);
        more := more + [p];
      }
    }

    lemma {:induction false} ValidShaped()
      requires Valid()
      ensures Shaped(nodes)
    {
    }

    lemma {:induction false} RootMarked()
      requires Valid()
      ensures Shaped(nodes) && marks + {Node([])} == marks
    {
      PathOfRoot(nodes);
      assert NodeReads(nodes, marks, 0);
    }

    /** Record one shard node and push its children. */
    method OverlayNode(s: Shard, top: Pending, pre: nat, ghost start: seq<PathNode>)
      returns (ok: bool, more: seq<Pending>)
      requires Valid() && ShardShaped(s) && Shaped(nodes) && Placed(nodes, s, top) && Gains(start, nodes)
               && pre == |start|
      modifies this`nodes, this`marks, this`overlayInsertions, this`openUpgraded
      ensures Valid() && Shaped(nodes) && Gains(old(nodes), nodes)
      ensures !ok ==> !DecidedNode(s.nodes[top.tid]) || !Consistent(old(marks) + BodyMarks(s))
      ensures ok ==> DecidedNode(s.nodes[top.tid]) && OwnMarks(s, top.tid) <= marks
      ensures ok ==> old(marks) <= marks <= old(marks) + BodyMarks(s)
      ensures ok ==> var kids := Children(s.nodes, top.tid);
                     |more| == |kids|
                     && forall k :: 0 <= k < |kids| ==> more[k].tid == kids[k] && Placed(nodes, s, more[k])
      ensures ok ==> overlayInsertions == old(overlayInsertions) + |nodes| - |old(nodes)|
      ensures ok ==> openUpgraded == old(openUpgraded) + |Upgraded(start, nodes)| - |Upgraded(start, old(nodes))|
    {
      hide Reads, NodeReads, AllKids, BodyMarks, OwnMarks, Consistent;
      more := [];
      var t := s.nodes[top.tid];
      if !DecidedNode(t) {
        return false, more;
      }
      ghost var before := nodes;
      var agrees := Prove(top.mid, t.outcome.value, t.depth == 0, s.tag, pre);
      if !agrees {
        Contradicts(nodes, marks, top.mid, s, top.tid);
        return false, more;
      }
      ghost var proved := nodes;
      UpgradedOne(start, before, proved, top.mid);
      ValidShaped();
      PathFrame(before, proved, top.mid);
      OwnInBody(s, top.tid);
      more := PushChildren(s, top.mid, top.tid);
      UpgradedSame(start, proved, nodes);
      ValidShaped();
      NodeMark(nodes, marks, top.mid, s, top.tid, before);
      ok := true;
    }

    /** Overlay a shard below its graft node.  It succeeds exactly when every node is decisive
        and no claim contradicts what the tree or the shard says; then the tree has gained
        exactly the shard's marks. */
    method OverlaySubtree(rootId: nat, s: Shard) returns (ok: bool)
      requires Valid() && ShardShaped(s) && rootId < |nodes| && PathOf(nodes, rootId) == s.path
      modifies this
      ensures Valid()
      ensures ok <==> ShardDecided(s) && Consistent(old(marks) + BodyMarks(s))
      ensures ok ==> marks == old(marks) + BodyMarks(s) && Gains(old(nodes), nodes)
      ensures ok ==> overlayInsertions == old(overlayInsertions) + |nodes| - |old(nodes)|
      ensures ok ==> openUpgraded == old(openUpgraded) + |Upgraded(old(nodes), nodes)|
      ensures ancestorInsertions == old(ancestorInsertions)
    {
      hide Reads, NodeReads, Front, AllKids, BodyMarks, OwnMarks, Consistent, Children, Gains, Upgraded, PathOf,
        ShardShaped, Placed;
      assert Linked(s.nodes) by { ChildrenLinked(s); }
      var pre := |nodes|;
      var stack := [Pending(rootId, 0)];
      ghost var done: set<nat> := {};
      ghost var start := nodes;
      ValidShaped();
      FrontStart(nodes, s, rootId);
      NoneGained(nodes);
      while stack != []
        invariant Valid() && Shaped(nodes) && Gains(start, nodes) && Front(nodes, s, stack, done)
        invariant old(marks) <= marks <= old(marks) + BodyMarks(s)
        invariant forall j :: j in done ==> j < |s.nodes| && DecidedNode(s.nodes[j]) && OwnMarks(s, j) <= marks
        invariant overlayInsertions == old(overlayInsertions) + |nodes| - |start|
        invariant openUpgraded == old(openUpgraded) + |Upgraded(start, nodes)|
        invariant ancestorInsertions == old(ancestorInsertions)
        decreases |s.nodes| - |done|
      {
        TopPlaced(nodes, s, stack, done);
        var top := stack[|stack| - 1];
        ghost var before := nodes;
        ghost var known := marks;
        var fine, more := OverlayNode(s, top, pre, start);
        if !fine {
          if DecidedNode(s.nodes[top.tid]) {
            MoreContradicts(known, old(marks), s);
          }
          return false;
        }
        GainsTrans(start, before, nodes);
        FrontFrame(before, nodes, s, stack, done);
        FrontStep(nodes, s, stack, done, top.tid, more);
        DoneCount(done + {top.tid}, |s.nodes|);
        stack := stack[..|stack| - 1] + more;
        done := done + {top.tid};
      }
      Complete(nodes, s, done, old(marks), marks);
      ReadsConsistent(nodes, marks);
      ok := true;
    }
  }

  function ProvenNode(n: PathNode, o: Outcome, ends: bool, tag: Tag): PathNode
  {
    n.(outcome := Some(o), prov := n.prov + {tag}, claims := if ends then n.claims + [0] else n.claims)
  }

  ghost function ProvenMarks(p: Path, o: Outcome, ends: bool, tag: Tag): set<Mark>
  {
    {Tagged(p, tag), Claim(p, o)} + if ends then {End(p)} else {}
  }

  lemma {:induction false} ProvenReads(nodes: seq<PathNode>, marks: set<Mark>, mid: nat, o: Outcome, ends: bool,
          tag: Tag)
    requires Reads(nodes, marks) && mid < |nodes|
    ensures Shaped(nodes) && SameShape(nodes, nodes) && ProvenNode(nodes[mid], o, ends, tag).outcome == Some(o)
    ensures SameShape(nodes, nodes[mid := ProvenNode(nodes[mid], o, ends, tag)])
    ensures nodes[mid].outcome.None? || nodes[mid].outcome == Some(o) ==>
              Reads(nodes[mid := ProvenNode(nodes[mid], o, ends, tag)],
                  marks + ProvenMarks(PathOf(nodes, mid), o, ends, tag))
  {
    assert NodeReads(nodes, marks, mid);
    if nodes[mid].outcome.None? || nodes[mid].outcome == Some(o) {
      ProvenRepaint(nodes, marks, mid, o, ends, tag);
    }
  }

  lemma {:induction false} ProvenRepaint(nodes: seq<PathNode>, marks: set<Mark>, mid: nat, o: Outcome, ends: bool,
          tag: Tag)
    requires Reads(nodes, marks) && mid < |nodes| && (nodes[mid].outcome.None? || nodes[mid].outcome == Some(o))
             && NodeReads(nodes, marks, mid)
    ensures Reads(nodes[mid := ProvenNode(nodes[mid], o, ends, tag)],
              marks + ProvenMarks(PathOf(nodes, mid), o, ends, tag))
  {
    RepaintedReads(nodes, nodes[mid := ProvenNode(nodes[mid], o, ends, tag)], mid, marks,
        ProvenMarks(PathOf(nodes, mid), o, ends, tag));
  }

  lemma {:induction false} PathOfRoot(nodes: seq<PathNode>)
    requires Shaped(nodes)
    ensures PathOf(nodes, 0) == []
  {
  }

  lemma {:induction false} OwnInBody(s: Shard, j: nat)
    requires Linked(s.nodes) && j < |s.nodes|
    ensures OwnMarks(s, j) <= BodyMarks(s)
    ensures var p := ShardAt(s, j);
            {Tagged(p, s.tag)} <= BodyMarks(s)
            && (s.nodes[j].outcome.Some? ==> Claim(p, s.nodes[j].outcome.value) in BodyMarks(s))
            && (s.nodes[j].depth == 0 ==> End(p) in BodyMarks(s))
  {
    assert forall m :: m in OwnMarks(s, j) ==> m in BodyMarks(s);
  }

  lemma {:induction false} Complete(nodes: seq<PathNode>, s: Shard, done: set<nat>, before: set<Mark>, marks: set<Mark>)
    requires Shaped(nodes) && Linked(s.nodes) && Front(nodes, s, [], done) && before <= marks <= before + BodyMarks(s)
    requires forall j :: j in done ==> j < |s.nodes| && DecidedNode(s.nodes[j]) && OwnMarks(s, j) <= marks
    ensures ShardDecided(s) && marks == before + BodyMarks(s)
  {
    hide Front, OwnMarks;
    forall j | 0 <= j < |s.nodes|
      ensures DecidedNode(s.nodes[j]) && OwnMarks(s, j) <= marks
    {
      AllDone(nodes, s, done, j);
    }
  }

  lemma {:induction false} FrontStart(nodes: seq<PathNode>, s: Shard, rootId: nat)
    requires Shaped(nodes) && ShardShaped(s) && rootId < |nodes| && PathOf(nodes, rootId) == s.path
    ensures Front(nodes, s, [Pending(rootId, 0)], {})
  {
    var stack := [Pending(rootId, 0)];
    assert ShardAt(s, 0) == s.path;
    forall j | 0 <= j < |s.nodes|
      ensures OnStack(stack, j) <==> Reached(s, {}, j)
    {
      assert stack[0].tid == 0;
    }
  }

  lemma {:induction false} TopPlaced(nodes: seq<PathNode>, s: Shard, stack: seq<Pending>, done: set<nat>)
    requires Shaped(nodes) && Linked(s.nodes) && Front(nodes, s, stack, done) && stack != []
    ensures Placed(nodes, s, stack[|stack| - 1]) && stack[|stack| - 1].tid !in done
    ensures forall j :: j in done ==> j < |s.nodes|
  {
  }

  lemma {:induction false} Contradicts(nodes: seq<PathNode>, marks: set<Mark>, mid: nat, s: Shard, tid: nat)
    requires Reads(nodes, marks) && Linked(s.nodes) && Placed(nodes, s, Pending(mid, tid)) && DecidedNode(s.nodes[tid])
    requires nodes[mid].outcome.Some? && nodes[mid].outcome != s.nodes[tid].outcome
    ensures !Consistent(marks + BodyMarks(s))
  {
    var p := ShardAt(s, tid);
    assert NodeReads(nodes, marks, mid);
    assert Claim(p, s.nodes[tid].outcome.value) in OwnMarks(s, tid);
    assert Claim(p, s.nodes[tid].outcome.value) in marks + BodyMarks(s)
           && Claim(p, nodes[mid].outcome.value) in marks + BodyMarks(s);
  }

  lemma {:induction false} MoreContradicts(marks: set<Mark>, before: set<Mark>, s: Shard)
    requires Linked(s.nodes) && marks <= before + BodyMarks(s) && !Consistent(marks + BodyMarks(s))
    ensures !Consistent(before + BodyMarks(s))
  {
    assert forall m :: m in marks + BodyMarks(s) ==> m in before + BodyMarks(s);
  }

  /** The popped node's own marks are all in. */
  lemma {:induction false} NodeMark(nodes: seq<PathNode>, marks: set<Mark>, mid: nat, s: Shard, tid: nat,
          before: seq<PathNode>)
    requires Reads(nodes, marks) && Shaped(before) && SameShape(before, nodes) && Linked(s.nodes)
             && Placed(before, s, Pending(mid, tid))
    requires DecidedNode(s.nodes[tid])
    requires var p := ShardAt(s, tid);
             {Tagged(p, s.tag), Claim(p, s.nodes[tid].outcome.value)} <= marks
             && (s.nodes[tid].depth == 0 ==> End(p) in marks)
    ensures OwnMarks(s, tid) <= marks
  {
    PathFrame(before, nodes, mid);
    assert NodeReads(nodes, marks, mid);
  }

  lemma {:induction false} UpgradedOne(start: seq<PathNode>, a: seq<PathNode>, b: seq<PathNode>, i: nat)
    requires |start| <= |a| == |b| && i < |a| && b[i].outcome.Some?
    requires forall j :: 0 <= j < |a| && j != i ==> b[j].outcome == a[j].outcome
    requires a[i].outcome.Some? ==> b[i].outcome == a[i].outcome
    requires i < |start| && a[i].outcome.None? ==> start[i].outcome.None?
    ensures |Upgraded(start, b)| == |Upgraded(start, a)| + if a[i].outcome.None? && i < |start| then 1 else 0
  {
    if a[i].outcome.None? && i < |start| {
      assert Upgraded(start, b) == Upgraded(start, a) + {i};
    } else {
      assert Upgraded(start, b) == Upgraded(start, a);
    }
  }

  lemma {:induction false} UpgradedSame(start: seq<PathNode>, a: seq<PathNode>, b: seq<PathNode>)
    requires |start| <= |a| <= |b| && forall j :: 0 <= j < |a| ==> b[j].outcome == a[j].outcome
    ensures Upgraded(start, b) == Upgraded(start, a)
  {
  }
}
