/** Finalisation as the worker runs it: the twin index, the action stack with its path-hash set,
    and the depth pass. */
module RebuildMachine {
  import opened Game
  import opened Lists
  import opened Tree
  import opened Rebuild
  import opened RebuildResult
  import Validate

  // ----- choosing twins -----

  /** The depth a node's direct children imply. */
  function ImpliedDepth(nodes: seq<ProofNode>, id: nat): U32
    requires Linked(nodes) && id < |nodes|
  {
    if nodes[id].depth == 0 then 0 else ProvenDepth(nodes[id].outcome, DepthsAt(nodes, Children(nodes, id)))
  }

  predicate Consistent(nodes: seq<ProofNode>, id: nat)
    requires Linked(nodes) && id < |nodes|
  {
    nodes[id].depth == ImpliedDepth(nodes, id)
  }

  /** A realised node that is terminal or has children. */
  predicate Expanded(nodes: seq<ProofNode>, id: nat)
    requires Linked(nodes) && id < |nodes|
  {
    nodes[id].outcome.Some? && (nodes[id].depth == 0 || nodes[id].firstChild.Some?)
  }

  function KeyOf(nodes: seq<ProofNode>, id: nat): (nat, Outcome)
    requires id < |nodes| && nodes[id].outcome.Some?
  {
    (nodes[id].hash, nodes[id].outcome.value)
  }

  /** Twin preference: consistency, shallower depth, more children, first created. */
  predicate Precedes(nodes: seq<ProofNode>, a: nat, b: nat)
    requires Linked(nodes) && a < |nodes| && b < |nodes|
  {
    if Consistent(nodes, a) != Consistent(nodes, b) then Consistent(nodes, a)
    else if nodes[a].depth != nodes[b].depth then nodes[a].depth < nodes[b].depth
    else if |Children(nodes, a)| != |Children(nodes, b)| then |Children(nodes, a)| > |Children(nodes, b)|
    else a < b
  }

  ghost predicate BestAt(nodes: seq<ProofNode>, canon: Canon, id: nat)
    requires Linked(nodes) && id < |nodes|
  {
    Expanded(nodes, id) ==>
      var k := KeyOf(nodes, id);
      k in canon && canon[k] < |nodes| && (canon[k] == id || Precedes(nodes, canon[k], id))
  }

  ghost predicate TwinsOk(nodes: seq<ProofNode>, canon: Canon, n: nat)
    requires Linked(nodes)
  {
    forall k :: k in canon ==> canon[k] < n && TwinOk(nodes, k, canon[k]) && Expanded(nodes, canon[k])
  }

  lemma {:induction false} PrecedesTrans(nodes: seq<ProofNode>, a: nat, b: nat, c: nat)
    requires Linked(nodes) && a < |nodes| && b < |nodes| && c < |nodes|
    requires Precedes(nodes, a, b) && Precedes(nodes, b, c)
    ensures Precedes(nodes, a, c)
  {
    hide Consistent, Children;
  }

  method Implied(nodes: seq<ProofNode>, id: nat) returns (d: U32)
    requires Linked(nodes) && id < |nodes|
    ensures d == ImpliedDepth(nodes, id)
  {
    if nodes[id].depth == 0 {
      return 0;
    }
    var kids := ListChildren(nodes, id);
    d := ProvenDepth(nodes[id].outcome, DepthsAt(nodes, kids));
  }

  /** Would `id` replace the incumbent `other`? */
  method Better(nodes: seq<ProofNode>, counts: seq<nat>, id: nat, other: nat) returns (better: bool)
    requires Linked(nodes) && other < id < |nodes| && |counts| == |nodes|
    requires forall i :: 0 <= i < |nodes| ==> counts[i] == |Children(nodes, i)|
    ensures better == Precedes(nodes, id, other) && (better || Precedes(nodes, other, id))
  {
    var implied := Implied(nodes, id);
    var otherImplied := Implied(nodes, other);
    var consistent := nodes[id].depth == implied;
    if consistent != (nodes[other].depth == otherImplied) {
      better := consistent;
    } else if nodes[id].depth != nodes[other].depth {
      better := nodes[id].depth < nodes[other].depth;
    } else {
      better := counts[id] > counts[other];
    }
  }

  method CountChildren(nodes: seq<ProofNode>) returns (counts: seq<nat>)
    requires Linked(nodes)
    ensures |counts| == |nodes| && forall i :: 0 <= i < |nodes| ==> counts[i] == |Children(nodes, i)|
  {
    counts := [];
    for id := 0 to |nodes|
      invariant |counts| == id && forall i :: 0 <= i < id ==> counts[i] == |Children(nodes, i)|
    {
      var kids := ListChildren(nodes, id);
      counts := counts + [|kids|];
    }
  }

  /** The twin index: for every key the first of the best expanded nodes, and only those. */
  method BuildExpandedIndex(nodes: seq<ProofNode>) returns (canon: Canon)
    requires Linked(nodes)
    ensures TwinsOk(nodes, canon, |nodes|)
    ensures forall id :: 0 <= id < |nodes| ==> BestAt(nodes, canon, id)
  {
    hide Precedes;
    var counts := CountChildren(nodes);
    canon := map[];
    for id := 0 to |nodes|
      invariant TwinsOk(nodes, canon, id)
      invariant forall i :: 0 <= i < id ==> BestAt(nodes, canon, i)
    {
      if Expanded(nodes, id) {
        var key := KeyOf(nodes, id);
        var better := true;
        if key in canon {
          better := Better(nodes, counts, id, canon[key]);
        }
        if better {
          ReplaceTwin(nodes, canon, id);
          canon := canon[key := id];
        }
        assert BestAt(nodes, canon, id);
      }
    }
  }

  lemma {:induction false} ReplaceTwin(nodes: seq<ProofNode>, canon: Canon, id: nat)
    requires Linked(nodes) && id < |nodes| && Expanded(nodes, id) && TwinsOk(nodes, canon, id)
    requires KeyOf(nodes, id) in canon ==>
        canon[KeyOf(nodes, id)] < |nodes| && Precedes(nodes, id, canon[KeyOf(nodes, id)])
    requires forall i :: 0 <= i < id ==> BestAt(nodes, canon, i)
    ensures var c := canon[KeyOf(nodes, id) := id];
            TwinsOk(nodes, c, id + 1) && forall i :: 0 <= i <= id ==> BestAt(nodes, c, i)
  {
    hide Precedes;
    var key := KeyOf(nodes, id);
    var c := canon[key := id];
    forall i | 0 <= i < id
      ensures BestAt(nodes, c, i)
    {
      assert BestAt(nodes, canon, i);
      if Expanded(nodes, i) && KeyOf(nodes, i) == key && canon[key] != i {
        PrecedesTrans(nodes, id, canon[key], i);
      }
    }
  }

  // ----- the action stack -----

  datatype Action = Enter(raw: nat, parent: nat, mv: Move) | Exit

  /** Action references are in range, and only the very first action enters the root. */
  predicate ActionOk(t: Raw, n: nat, a: Action)
  {
    a.Enter? ==> a.raw < |t.nodes| && a.parent < n
  }

  ghost predicate StackOk(t: Raw, n: nat, stack: seq<Action>)
  {
    forall i :: 0 <= i < |stack| ==> ActionOk(t, n, stack[i])
  }

  lemma {:induction false} FrontOnPath(t: Raw, hs: seq<nat>)
    requires OnPath(t, hs)
    ensures OnPath(t, Front(hs))
  {
  }

  /** What the actions do, top first. */
  ghost function RunStack(t: Raw, stack: seq<Action>, hs: seq<nat>, b: Built): (r: Built)
    requires Ready(t) && Formed(b) && OnPath(t, hs) && StackOk(t, |b.nodes|, stack)
  {
    if stack == [] then b
    else
      var rest := Front(stack);
      var a := stack[|stack| - 1];
      assert ActionOk(t, |b.nodes|, a);
      if a.Enter? then
        var b1 := Visit(t, a.raw, a.parent, a.mv, hs, b);
        assert forall i :: 0 <= i < |rest| ==> ActionOk(t, |b1.nodes|, rest[i]) by {
          assert forall i :: 0 <= i < |rest| ==> ActionOk(t, |b.nodes|, stack[i]);
        }
        RunStack(t, rest, hs, b1)
      else
        FrontOnPath(t, hs);
        RunStack(t, rest, Front(hs), b)
  }

  ghost function StackCost(t: Raw, stack: seq<Action>, hs: seq<nat>): nat
    requires Ready(t) && OnPath(t, hs)
  {
    if stack == [] then 0
    else
      var a := stack[|stack| - 1];
      if a.Enter? then
        (if a.raw < |t.nodes| then Cost(t, a.raw, IsRootEdge(a.parent, a.mv), hs) else 0) + StackCost(t, Front(stack),
            hs)
      else
        FrontOnPath(t, hs);
        1 + StackCost(t, Front(stack), Front(hs))
  }

  /** Enter actions for the children from `i` on, first child on top. */
  function KidActions(t: Raw, kids: seq<nat>, i: nat, parent: nat): (r: seq<Action>)
    requires Within(kids, 1, |t.nodes|) && i <= |kids|
    decreases |kids| - i
  {
    if i == |kids| then [] else KidActions(t, kids, i + 1, parent) + [Enter(kids[i], parent, t.nodes[kids[i]].mv)]
  }

  lemma {:induction false} KidActionsOk(t: Raw, base: seq<Action>, kids: seq<nat>, i: nat, parent: nat, n: nat)
    requires StackOk(t, n, base) && Within(kids, 1, |t.nodes|) && i <= |kids| && parent < n
    ensures StackOk(t, n, base + KidActions(t, kids, i, parent))
    decreases |kids| - i
  {
    if i < |kids| {
      KidActionsOk(t, base, kids, i + 1, parent, n);
      Assoc(base, KidActions(t, kids, i + 1, parent), [Enter(kids[i], parent, t.nodes[kids[i]].mv)]);
    } else {
      assert base + [] == base;
    }
  }

  lemma {:induction false} RunEnter(t: Raw, base: seq<Action>, a: Action, hs: seq<nat>, b: Built)
    requires Ready(t) && Formed(b) && OnPath(t, hs) && StackOk(t, |b.nodes|, base) && ActionOk(t, |b.nodes|, a)
             && a.Enter?
    ensures StackOk(t, |b.nodes|, base + [a])
    ensures var b1 := Visit(t, a.raw, a.parent, a.mv, hs, b);
            StackOk(t, |b1.nodes|, base) && RunStack(t, base + [a], hs, b) == RunStack(t, base, hs, b1)
    ensures StackCost(t, base + [a], hs) == Cost(t, a.raw, IsRootEdge(a.parent, a.mv), hs) + StackCost(t, base, hs)
  {
    hide Visit, Cost;
    assert Front(base + [a]) == base;
    var b1 := Visit(t, a.raw, a.parent, a.mv, hs, b);
    assert forall i :: 0 <= i < |base| ==> ActionOk(t, |b.nodes|, base[i]) && ActionOk(t, |b1.nodes|, base[i]);
  }

  lemma {:induction false} RunExit(t: Raw, base: seq<Action>, hs: seq<nat>, b: Built)
    requires Ready(t) && Formed(b) && OnPath(t, hs) && StackOk(t, |b.nodes|, base)
    ensures StackOk(t, |b.nodes|, base + [Exit]) && OnPath(t, Front(hs))
    ensures RunStack(t, base + [Exit], hs, b) == RunStack(t, base, Front(hs), b)
    ensures StackCost(t, base + [Exit], hs) == 1 + StackCost(t, base, Front(hs))
  {
    assert Front(base + [Exit]) == base;
    FrontOnPath(t, hs);
  }

  /** The children's actions do what walking the children does. */
  lemma {:induction false} RunKids(t: Raw, base: seq<Action>, kids: seq<nat>, i: nat, parent: nat, hs: seq<nat>,
          b: Built)
    requires Ready(t) && Formed(b) && OnPath(t, hs) && StackOk(t, |b.nodes|, base) && Within(kids, 1, |t.nodes|)
             && i <= |kids| && parent < |b.nodes|
    ensures StackOk(t, |b.nodes|, base + KidActions(t, kids, i, parent))
    ensures var b1 := VisitAll(t, kids, i, parent, hs, b);
            StackOk(t, |b1.nodes|, base)
            && RunStack(t, base + KidActions(t, kids, i, parent), hs, b) == RunStack(t, base, hs, b1)
    ensures StackCost(t, base + KidActions(t, kids, i, parent), hs) == CostAll(t, kids, i, hs) + StackCost(t, base, hs)
    decreases |kids| - i
  {
    hide Visit, Cost, RunStack, StackCost;
    if i < |kids| {
      var a := Enter(kids[i], parent, t.nodes[kids[i]].mv);
      var more := KidActions(t, kids, i + 1, parent);
      Assoc(base, more, [a]);
      KidActionsOk(t, base, kids, i + 1, parent, |b.nodes|);
      RunEnter(t, base + more, a, hs, b);
      RunKids(t, base, kids, i + 1, parent, hs, b);
      var b1 := Visit(t, a.raw, a.parent, a.mv, hs, b);
      assert forall k :: 0 <= k < |base| ==> ActionOk(t, |b.nodes|, base[k]) && ActionOk(t, |b1.nodes|, base[k]);
      RunKids(t, base, kids, i + 1, parent, hs, b1);
    } else {
      assert base + [] == base;
    }
  }

  // ----- the loop -----

  ghost predicate Elements(hashes: set<nat>, hs: seq<nat>)
  {
    forall h :: h in hashes <==> h in hs
  }

  /** Only the first action enters the root. */
  ghost predicate RootOnly(stack: seq<Action>, hs: seq<nat>)
  {
    forall i :: 0 <= i < |stack| && stack[i].Enter? && IsRootEdge(stack[i].parent, stack[i].mv) ==>
      |stack| == 1 && hs == []
  }

  /** The loop's state is consistent, and the remaining actions lead to `goal`. */
  ghost predicate Going(t: Raw, stack: seq<Action>, hashes: set<nat>, hs: seq<nat>, b: Built, goal: Built)
    requires Ready(t)
  {
    && Formed(b) && OnPath(t, hs) && Elements(hashes, hs)
    && StackOk(t, |b.nodes|, stack) && RootOnly(stack, hs)
    && RunStack(t, stack, hs, b) == goal
  }

  lemma {:induction false} Opened(t: Raw, base: seq<Action>, kids: seq<nat>, parent: nat, hs: seq<nat>, b: Built)
    requires Ready(t) && Formed(b) && OnPath(t, hs) && StackOk(t, |b.nodes|, base) && Within(kids, 1, |t.nodes|)
             && parent < |b.nodes|
    ensures var stack := base + [Exit] + KidActions(t, kids, 0, parent);
            var b1 := VisitAll(t, kids, 0, parent, hs, b);
            && StackOk(t, |b.nodes|, stack) && StackOk(t, |b1.nodes|, base) && OnPath(t, Front(hs))
            && RunStack(t, stack, hs, b) == RunStack(t, base, Front(hs), b1)
            && StackCost(t, stack, hs) == CostAll(t, kids, 0, hs) + 1 + StackCost(t, base, Front(hs))
  {
    hide RunStack, StackCost, VisitAll, CostAll, KidActions;
    RunExit(t, base, hs, b);
    RunKids(t, base + [Exit], kids, 0, parent, hs, b);
    var b1 := VisitAll(t, kids, 0, parent, hs, b);
    assert forall i :: 0 <= i < |base| ==> ActionOk(t, |b.nodes|, base[i]) && ActionOk(t, |b1.nodes|, base[i]);
    RunExit(t, base, hs, b1);
  }

  ghost predicate NoRoot(base: seq<Action>)
  {
    forall k :: 0 <= k < |base| ==> base[k].Exit? || !IsRootEdge(base[k].parent, base[k].mv)
  }

  lemma {:induction false} OpenedNoRoot(t: Raw, base: seq<Action>, kids: seq<nat>, i: nat, parent: nat)
    requires Ready(t) && Within(kids, 1, |t.nodes|) && i <= |kids| && NoRoot(base)
    ensures NoRoot(base + KidActions(t, kids, i, parent))
    decreases |kids| - i
  {
    if i < |kids| {
      OpenedNoRoot(t, base, kids, i + 1, parent);
      var a := Enter(kids[i], parent, t.nodes[kids[i]].mv);
      assert a.mv != NO_MOVE;
      Assoc(base, KidActions(t, kids, i + 1, parent), [a]);
      assert NoRoot((base + KidActions(t, kids, i + 1, parent)) + [a]);
    } else {
      assert base + [] == base;
    }
  }

  method PushKids(t: Raw, kids: seq<nat>, parent: nat, base: seq<Action>) returns (stack: seq<Action>)
    requires Within(kids, 1, |t.nodes|)
    ensures stack == base + KidActions(t, kids, 0, parent)
  {
    stack := base;
    for i := |kids| downto 0
      invariant stack == base + KidActions(t, kids, i, parent)
    {
      Assoc(base, KidActions(t, kids, i + 1, parent), [Enter(kids[i], parent, t.nodes[kids[i]].mv)]);
      stack := stack + [Enter(kids[i], parent, t.nodes[kids[i]].mv)];
    }
  }

  /** The new state after an expanded node was entered. */
  lemma {:induction false} OpenStep(t: Raw, base: seq<Action>, a: Action, hashes: set<nat>, hs: seq<nat>, b: Built,
                                    e: nat, hs1: seq<nat>, b1: Built, id: nat, goal: Built)
    requires Ready(t) && a.Enter? && Going(t, base + [a], hashes, hs, b, goal)
    requires a.raw < |t.nodes| && t.nodes[a.raw].outcome.Some? && e == Eff(t, a.raw) && e < |t.nodes|
    requires if IsRootEdge(a.parent, a.mv) then hs1 == hs && id == 0 && b1 == Rooted(t, b, e)
             else a.parent < |b.nodes| && t.nodes[e].hash !in hs && hs1 == hs + [t.nodes[e].hash] && id == |b.nodes|
                  && b1 == Grown(b, a.parent, a.mv, t.nodes[e].hash, t.nodes[e].outcome, t.nodes[e].depth, e, false)
    ensures var hashes1 := if IsRootEdge(a.parent, a.mv) then hashes else hashes + {t.nodes[e].hash};
            var stack := base + [Exit] + KidActions(t, Children(t.nodes, e), 0, id);
            && OnPath(t, hs1) && Going(t, stack, hashes1, hs1, b1, goal)
            && StackCost(t, stack, hs1) < StackCost(t, base + [a], hs)
  {
    hide RunStack, StackCost, VisitAll, CostAll, KidActions;
    EffFacts(t, a.raw);
    assert (base + [a])[|base|] == a && ActionOk(t, |b.nodes|, a);
    assert StackOk(t, |b.nodes|, base) by {
      assert forall i :: 0 <= i < |base| ==> (base + [a])[i] == base[i];
    }
    assert NoRoot(base + [Exit]) by {
      assert forall i :: 0 <= i < |base| ==> (base + [a])[i] == base[i];
      if base != [] { assert |base + [a]| > 1; }
    }
    RunEnter(t, base, a, hs, b);
    if IsRootEdge(a.parent, a.mv) {
      RootedFormed(t, b, e);
      assert Front(hs1) == hs;
    } else {
      PathGrows(t, hs, e);
      assert Front(hs1) == hs;
    }
    assert forall i :: 0 <= i < |base| ==> ActionOk(t, |b.nodes|, base[i]) && ActionOk(t, |b1.nodes|, base[i]);
    Opened(t, base, Children(t.nodes, e), id, hs1, b1);
    OpenedNoRoot(t, base + [Exit], Children(t.nodes, e), 0, id);
  }

  /** An Enter that adds no subtree: a placeholder, or a hash already on the path. */
  lemma {:induction false} ShutStep(t: Raw, base: seq<Action>, a: Action, hashes: set<nat>, hs: seq<nat>, b: Built,
          b1: Built, goal: Built)
    requires Ready(t) && a.Enter? && Going(t, base + [a], hashes, hs, b, goal) && a.raw < |t.nodes|
             && a.parent < |b.nodes|
    requires b1 == Visit(t, a.raw, a.parent, a.mv, hs, b)
    ensures Going(t, base, hashes, hs, b1, goal) && StackCost(t, base, hs) < StackCost(t, base + [a], hs)
  {
    hide RunStack, StackCost, Visit, Cost;
    assert StackOk(t, |b.nodes|, base) by {
      assert forall i :: 0 <= i < |base| ==> (base + [a])[i] == base[i];
    }
    assert (base + [a])[|base|] == a && ActionOk(t, |b.nodes|, a);
    RunEnter(t, base, a, hs, b);
    assert RootOnly(base, hs) by {
      assert forall i :: 0 <= i < |base| ==> (base + [a])[i] == base[i];
    }
  }

  lemma {:induction false} ExitStep(t: Raw, base: seq<Action>, hashes: set<nat>, hs: seq<nat>, b: Built, goal: Built)
    requires Ready(t) && Going(t, base + [Exit], hashes, hs, b, goal)
    ensures Going(t, base, if hs == [] then hashes else hashes - {hs[|hs| - 1]}, Front(hs), b, goal)
    ensures OnPath(t, Front(hs)) && StackCost(t, base, Front(hs)) < StackCost(t, base + [Exit], hs)
  {
    hide RunStack, StackCost;
    assert forall i :: 0 <= i < |base| ==> (base + [Exit])[i] == base[i];
    RunExit(t, base, hs, b);
    assert RootOnly(base, Front(hs));
  }

  /** Copy the canonical subtrees onto the new tree; terminates although twins can form
      cycles, because the hashes on the path are distinct. */
  method RebuildTree(t: Raw) returns (nodes: seq<ProofNode>)
    requires Ready(t) && t.nodes[0].outcome.Some?
    ensures nodes == Rebuilt(t).nodes
  {
    var actions := [Enter(0, 0, NO_MOVE)];
    var pathHashes: set<nat> := {};
    var pathHashStack: seq<nat> := [];
    var n := t.nodes[0];
    nodes := [ProofNode(None, None, None, NO_MOVE, n.hash, n.outcome, n.depth)];
    ghost var b := StartTree(t);
    ghost var goal := Rebuilt(t);
    StartFormed(t);
    StartGoing(t);
    hide Going, StackCost;
    while actions != []
      invariant OnPath(t, pathHashStack) && b.nodes == nodes
      invariant Going(t, actions, pathHashes, pathHashStack, b, goal)
      decreases StackCost(t, actions, pathHashStack)
    {
      var base := Front(actions);
      var a := actions[|actions| - 1];
      assert actions == base + [a];
      GoingTop(t, base, a, pathHashes, pathHashStack, b, goal);
      match a {
        case Exit =>
          ExitStep(t, base, pathHashes, pathHashStack, b, goal);
          if pathHashStack != [] {
            pathHashes := pathHashes - {pathHashStack[|pathHashStack| - 1]};
          }
          pathHashStack := Front(pathHashStack);
          actions := base;
        case Enter(raw, parent, mv) =>
          actions, pathHashes, pathHashStack, nodes, b := EnterNode(t, base, a, pathHashes, pathHashStack, nodes, b,
              goal);
      }
    }
    GoingEmpty(t, pathHashes, pathHashStack, b, goal);
  }

  /** One Enter action. */
  method EnterNode(t: Raw, base: seq<Action>, a: Action, hashes: set<nat>, hs: seq<nat>, nodes: seq<ProofNode>,
          ghost b: Built, ghost goal: Built)
    returns (actions: seq<Action>, hashes1: set<nat>, hs1: seq<nat>, nodes1: seq<ProofNode>, ghost b1: Built)
    requires Ready(t) && a.Enter? && Going(t, base + [a], hashes, hs, b, goal) && OnPath(t, hs) && b.nodes == nodes
    requires Formed(b) && ActionOk(t, |nodes|, a) && Elements(hashes, hs)
    ensures OnPath(t, hs1) && Going(t, actions, hashes1, hs1, b1, goal) && b1.nodes == nodes1
    ensures StackCost(t, actions, hs1) < StackCost(t, base + [a], hs)
  {
    hide Going, StackCost;
    var node := t.nodes[a.raw];
    hashes1, hs1, nodes1, b1 := hashes, hs, nodes, Visit(t, a.raw, a.parent, a.mv, hs, b);
    if node.outcome.None? {
      ShutStep(t, base, a, hashes, hs, b, b1, goal);
      return base, hashes1, hs1, nodes1, b1;
    }
    EffFacts(t, a.raw);
    var e := Eff(t, a.raw);
    var eff := t.nodes[e];
    var isRoot := IsRootEdge(a.parent, a.mv);
    if !isRoot && eff.hash in hashes {
      nodes1 := AddNode(nodes, a.parent, a.mv, eff.hash, eff.outcome, eff.depth);
      ShutStep(t, base, a, hashes, hs, b, b1, goal);
      return base, hashes1, hs1, nodes1, b1;
    }
    var newId := 0;
    if isRoot {
      nodes1 := nodes[0 := nodes[0].(hash := eff.hash, outcome := eff.outcome, depth := eff.depth)];
      b1 := Rooted(t, b, e);
    } else {
      hashes1 := hashes + {eff.hash};
      hs1 := hs + [eff.hash];
      newId := |nodes|;
      nodes1 := AddNode(nodes, a.parent, a.mv, eff.hash, eff.outcome, eff.depth);
      b1 := Grown(b, a.parent, a.mv, eff.hash, eff.outcome, eff.depth, e, false);
    }
    OpenStep(t, base, a, hashes, hs, b, e, hs1, b1, newId, goal);
    var kids := ListChildren(t.nodes, e);
    actions := PushKids(t, kids, newId, base + [Exit]);
  }

  lemma {:induction false} StartGoing(t: Raw)
    requires Ready(t) && Formed(StartTree(t))
    ensures Going(t, [Enter(0, 0, NO_MOVE)], {}, [], StartTree(t), Rebuilt(t))
  {
    var a := Enter(0, 0, NO_MOVE);
    assert ActionOk(t, 1, a);
    assert [] + [a] == [a];
    RunEnter(t, [], a, [], StartTree(t));
  }

  lemma {:induction false} GoingTop(t: Raw, base: seq<Action>, a: Action, hashes: set<nat>, hs: seq<nat>, b: Built,
          goal: Built)
    requires Ready(t) && Going(t, base + [a], hashes, hs, b, goal)
    ensures Formed(b) && ActionOk(t, |b.nodes|, a) && Elements(hashes, hs)
  {
    assert (base + [a])[|base|] == a;
  }

  lemma {:induction false} GoingEmpty(t: Raw, hashes: set<nat>, hs: seq<nat>, b: Built, goal: Built)
    requires Ready(t) && Going(t, [], hashes, hs, b, goal)
    ensures b == goal
  {
  }

  // ----- the depth pass -----

  /** Recompute depths from the last node to the first. */
  method RecomputeDepths(nodes: seq<ProofNode>) returns (r: seq<ProofNode>)
    requires Linked(nodes)
    ensures r == WithDepths(nodes)
  {
    r := nodes;
    for i := |nodes| downto 0
      invariant |r| == |nodes|
      invariant forall j :: 0 <= j < i ==> r[j] == nodes[j]
      invariant forall j :: i <= j < |nodes| ==> r[j] == nodes[j].(depth := Validate.Expected(nodes, j))
    {
      assert SameLinks(nodes, r);
      SameLinksKids(nodes, r);
      var kids := ListChildren(r, i);
      DepthStep(nodes, r, i, kids);
      r := r[i := r[i].(depth := if r[i].firstChild.None? then 0 else ProvenDepth(r[i].outcome, DepthsAt(r, kids)))];
    }
  }

  lemma {:induction false} DepthStep(nodes: seq<ProofNode>, r: seq<ProofNode>, i: nat, kids: seq<nat>)
    requires Linked(nodes) && i < |nodes| == |r| && r[i] == nodes[i] && kids == Children(nodes, i)
    requires forall j :: i < j < |nodes| ==> r[j] == nodes[j].(depth := Validate.Expected(nodes, j))
    ensures Validate.Expected(nodes, i) ==
              if r[i].firstChild.None? then 0 else ProvenDepth(r[i].outcome, DepthsAt(r, kids))
  {
    assert NodeLinked(nodes, i);
    assert kids == [] <==> nodes[i].firstChild.None?;
    assert DepthsAt(r, kids) == seq(|kids|, k requires 0 <= k < |kids| => Validate.Expected(nodes, kids[k]));
  }
}
