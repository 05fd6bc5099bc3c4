/** The proof-tree worker's event handling: what one `NodeProven` event does to the arena and
    to the global child-move index. */
module Worker {
  import opened Game
  import opened Lists
  import opened Tree

  /** A `NodeProven` event; its own move is the last one of its path. */
  datatype Event = Event(path: seq<Move>, hash: nat, outcome: Outcome, depth: U32)
  {
    function Mv(): Move { if path == [] then NO_MOVE else path[|path| - 1] }
  }

  /** The arena with the index `(parent id, move) -> child id`. */
  datatype Arena = Arena(nodes: seq<ProofNode>, index: map<(nat, Move), nat>)

  ghost predicate Ranged(a: Arena)
  {
    Linked(a.nodes) && forall k :: k in a.index ==> a.index[k] < |a.nodes|
  }

  function Fresh(): Arena
  {
    Arena([ProofNode(None, None, None, NO_MOVE, 0, None, 0)], map[])
  }

  // ----- one path step, and a whole path -----

  function Step(a: Arena, id: nat, m: Move): (r: (Arena, nat))
    requires Ranged(a) && id < |a.nodes|
    ensures Ranged(r.0) && r.1 < |r.0.nodes| && |a.nodes| <= |r.0.nodes|
  {
    if (id, m) in a.index then (a, a.index[(id, m)])
    else (Arena(AddNode(a.nodes, id, m, 0, None, 0), a.index[(id, m) := |a.nodes|]), |a.nodes|)
  }

  /** Follow the first `n` moves from the root, creating placeholders where the index has no
      entry. */
  function Locate(a: Arena, path: seq<Move>, n: nat): (r: (Arena, nat))
    requires Ranged(a) && n <= |path|
    ensures Ranged(r.0) && r.1 < |r.0.nodes| && |a.nodes| <= |r.0.nodes|
  {
    if n == 0 then (a, 0)
    else
      var p := Locate(a, path, n - 1);
      Step(p.0, p.1, path[n - 1])
  }

  /** A placeholder becomes real; a real node only ever gets a smaller depth. */
  function Apply(nodes: seq<ProofNode>, id: nat, e: Event): seq<ProofNode>
    requires id < |nodes|
  {
    var n := nodes[id].(mv := e.Mv(), hash := e.hash);
    nodes[id := if n.outcome.None? then n.(outcome := Some(e.outcome), depth := e.depth)
                else if e.depth < n.depth then n.(depth := e.depth) else n]
  }

  // ----- choosing the children of a realised node -----

  /** The first of the shallowest Loss children among the first `n`. */
  function BestLoss(nodes: seq<ProofNode>, kids: seq<nat>, n: nat): (b: Option<nat>)
    requires Within(kids, 0, |nodes|) && n <= |kids|
    ensures b.Some? ==>
              b.value < n && nodes[kids[b.value]].outcome == Some(Loss) && nodes[kids[b.value]].depth < U32_MAX
    ensures forall k :: 0 <= k < n && nodes[kids[k]].outcome == Some(Loss) && nodes[kids[k]].depth < U32_MAX ==>
              b.Some? && nodes[kids[b.value]].depth <= nodes[kids[k]].depth
    ensures b.Some? ==> forall k :: 0 <= k < b.value && nodes[kids[k]].outcome == Some(Loss) ==>
              nodes[kids[b.value]].depth < nodes[kids[k]].depth
  {
    if n == 0 then None
    else
      var b := BestLoss(nodes, kids, n - 1);
      var best := if b.Some? then nodes[kids[b.value]].depth else U32_MAX;
      if nodes[kids[n - 1]].outcome == Some(Loss) && nodes[kids[n - 1]].depth < best then Some(n - 1) else b
  }

  /** The Win children among the first `n`. */
  function Wins(nodes: seq<ProofNode>, kids: seq<nat>, n: nat): (r: seq<nat>)
    requires Within(kids, 0, |nodes|) && n <= |kids|
  {
    if n == 0 then []
    else Wins(nodes, kids, n - 1) + if nodes[kids[n - 1]].outcome == Some(Win) then [kids[n - 1]] else []
  }

  function Kept(nodes: seq<ProofNode>, kids: seq<nat>, o: Outcome): seq<nat>
    requires Within(kids, 0, |nodes|)
  {
    match o
    case Win => (var b := BestLoss(nodes, kids, |kids|); if b.Some? then [kids[b.value]] else [])
    case Loss => Wins(nodes, kids, |kids|)
    case Draw => []
  }

  /** `kept` is an order-preserving selection of children of `parent`. */
  ghost predicate Selection(nodes: seq<ProofNode>, parent: nat, kept: seq<nat>)
    requires Linked(nodes)
  {
    && parent < |nodes| && Descending(kept) && Within(kept, 1, |nodes|)
    && forall k :: 0 <= k < |kept| ==> nodes[kept[k]].parent == Some(parent)
  }

  /** Rebuild the chain of `parent` from the kept ids `j..`, last one first. */
  function Relink(nodes: seq<ProofNode>, parent: nat, kept: seq<nat>, j: nat): (r: seq<ProofNode>)
    requires parent < |nodes| && Within(kept, 0, |nodes|) && j <= |kept|
    ensures |r| == |nodes|
    decreases |kept| - j
  {
    if j == |kept| then nodes[parent := nodes[parent].(firstChild := None)]
    else
      var r := Relink(nodes, parent, kept, j + 1);
      var linked := r[kept[j] := r[kept[j]].(nextSibling := r[parent].firstChild)];
      linked[parent := linked[parent].(firstChild := Some(kept[j]))]
  }

  ghost predicate Absent(ids: seq<nat>, j: nat, i: nat)
  {
    forall k :: j <= k < |ids| ==> ids[k] != i
  }

  /** The `k`-th id is chained to the next one. */
  predicate NextIs(r: seq<ProofNode>, ids: seq<nat>, k: nat)
  {
    k < |ids| && ids[k] < |r| && r[ids[k]].nextSibling == if k + 1 == |ids| then None else Some(ids[k + 1])
  }

  /** Relinking touches the links of `parent` and of the kept children only. */
  ghost predicate Relinked(nodes: seq<ProofNode>, parent: nat, kept: seq<nat>, j: nat, r: seq<ProofNode>)
    requires parent < |nodes| && Within(kept, 0, |nodes|) && j <= |kept|
  {
    && |r| == |nodes|
    && (forall i :: 0 <= i < |nodes| ==>
         r[i] == nodes[i].(firstChild := r[i].firstChild, nextSibling := r[i].nextSibling))
    && (forall i :: 0 <= i < |nodes| && i != parent ==> r[i].firstChild == nodes[i].firstChild)
    && r[parent].firstChild == (if j == |kept| then None else Some(kept[j]))
    && (forall i :: 0 <= i < |nodes| && Absent(kept, j, i) ==> r[i].nextSibling == nodes[i].nextSibling)
    && (forall k :: j <= k < |kept| ==> NextIs(r, kept, k))
  }

  lemma {:induction false} RelinkFields(nodes: seq<ProofNode>, parent: nat, kept: seq<nat>, j: nat)
    requires Linked(nodes) && Selection(nodes, parent, kept) && j <= |kept|
    ensures Relinked(nodes, parent, kept, j, Relink(nodes, parent, kept, j))
    decreases |kept| - j
  {
    if j < |kept| {
      RelinkFields(nodes, parent, kept, j + 1);
      assert NodeLinked(nodes, kept[j]);
      RelinkStep(nodes, parent, kept, j, Relink(nodes, parent, kept, j + 1));
    }
  }

  lemma {:induction false} RelinkStep(nodes: seq<ProofNode>, parent: nat, kept: seq<nat>, j: nat, r: seq<ProofNode>)
    requires parent < |nodes| && Within(kept, 0, |nodes|) && j < |kept| && Descending(kept) && kept[j] != parent
    requires Relinked(nodes, parent, kept, j + 1, r)
    ensures var linked := r[kept[j] := r[kept[j]].(nextSibling := r[parent].firstChild)];
            Relinked(nodes, parent, kept, j, linked[parent := linked[parent].(firstChild := Some(kept[j]))])
  {
    var linked := r[kept[j] := r[kept[j]].(nextSibling := r[parent].firstChild)];
    var r' := linked[parent := linked[parent].(firstChild := Some(kept[j]))];
    forall i | 0 <= i < |nodes| && Absent(kept, j, i)
      ensures r'[i].nextSibling == nodes[i].nextSibling
    {
      assert Absent(kept, j + 1, i) && i != kept[j];
    }
    forall k | j <= k < |kept|
      ensures NextIs(r', kept, k)
    {
      assert k > j ==> NextIs(r, kept, k);
    }
  }

  lemma {:induction false} RelinkLinked(nodes: seq<ProofNode>, parent: nat, kept: seq<nat>)
    requires Linked(nodes) && Selection(nodes, parent, kept)
    ensures Linked(Relink(nodes, parent, kept, 0))
  {
    var r := Relink(nodes, parent, kept, 0);
    RelinkFields(nodes, parent, kept, 0);
    forall i | 0 <= i < |r|
      ensures NodeLinked(r, i)
    {
      assert NodeLinked(nodes, i);
      RelinkNode(nodes, parent, kept, r, i);
    }
  }

  lemma {:induction false} RelinkNode(nodes: seq<ProofNode>, parent: nat, kept: seq<nat>, r: seq<ProofNode>, i: nat)
    requires Linked(nodes) && Selection(nodes, parent, kept) && Relinked(nodes, parent, kept, 0, r) && i < |r|
    requires NodeLinked(nodes, i)
    ensures NodeLinked(r, i)
  {
    if i == parent && kept != [] {
      assert NodeLinked(nodes, kept[0]);
    }
    if !Absent(kept, 0, i) {
      var k :| 0 <= k < |kept| && kept[k] == i;
      assert k + 1 < |kept| ==> kept[k + 1] < kept[k] && nodes[kept[k + 1]].parent == Some(parent);
      assert NextIs(r, kept, k);
    }
  }

  lemma {:induction false} RelinkChain(nodes: seq<ProofNode>, parent: nat, kept: seq<nat>, j: nat)
    requires Linked(nodes) && Selection(nodes, parent, kept) && j <= |kept|
    ensures var r := Relink(nodes, parent, kept, 0);
            Linked(r) && Chain(r, if j == |kept| then None else Some(kept[j])) == kept[j..]
    decreases |kept| - j
  {
    hide Relink, NodeLinked;
    RelinkLinked(nodes, parent, kept);
    RelinkFields(nodes, parent, kept, 0);
    if j < |kept| {
      assert NextIs(Relink(nodes, parent, kept, 0), kept, j);
      RelinkChain(nodes, parent, kept, j + 1);
      assert kept[j..] == [kept[j]] + kept[j + 1..];
    }
  }

  /** The relinked parent has exactly the kept children; every other chain is as before. */
  lemma {:induction false} RelinkChildren(nodes: seq<ProofNode>, parent: nat, kept: seq<nat>)
    requires Linked(nodes) && Selection(nodes, parent, kept)
    ensures var r := Relink(nodes, parent, kept, 0);
            && Linked(r) && Children(r, parent) == kept
            && forall i :: 0 <= i < |nodes| && i != parent ==> Children(r, i) == Children(nodes, i)
  {
    var r := Relink(nodes, parent, kept, 0);
    RelinkChain(nodes, parent, kept, 0);
    RelinkFields(nodes, parent, kept, 0);
    assert kept[0..] == kept;
    assert NodeLinked(r, parent);
    forall i | 0 <= i < |nodes| && i != parent
      ensures Children(r, i) == Children(nodes, i)
    {
      assert NodeLinked(nodes, i) && NodeLinked(r, i);
      forall c | c in Chain(nodes, nodes[i].firstChild)
        ensures c < |r| && r[c].nextSibling == nodes[c].nextSibling
      {
        assert c in Children(nodes, i);
        assert nodes[c].parent == Some(i);
        assert Absent(kept, 0, c);
      }
      ChainFrame(nodes, r, nodes[i].firstChild);
    }
  }

  lemma {:induction false} WinsSelection(nodes: seq<ProofNode>, parent: nat, kids: seq<nat>, n: nat)
    requires Linked(nodes) && Selection(nodes, parent, kids) && n <= |kids|
    ensures Selection(nodes, parent, Wins(nodes, kids, n))
    ensures forall k :: 0 <= k < |Wins(nodes, kids, n)| ==> n > 0 && kids[n - 1] <= Wins(nodes, kids, n)[k]
  {
    if n > 0 {
      WinsSelection(nodes, parent, kids, n - 1);
      var before := Wins(nodes, kids, n - 1);
      assert forall k :: 0 <= k < |before| ==> kids[n - 1] < before[k];
    }
  }

  lemma {:induction false} WinsFrom(nodes: seq<ProofNode>, kids: seq<nat>, n: nat, k: nat) returns (j: nat)
    requires Within(kids, 0, |nodes|) && n <= |kids| && k < |Wins(nodes, kids, n)|
    ensures j < n && kids[j] == Wins(nodes, kids, n)[k] && nodes[kids[j]].outcome == Some(Win)
    decreases n
  {
    if k < |Wins(nodes, kids, n - 1)| {
      j := WinsFrom(nodes, kids, n - 1, k);
    } else {
      j := n - 1;
    }
  }

  lemma {:induction false} WinsHas(nodes: seq<ProofNode>, kids: seq<nat>, n: nat, j: nat) returns (k: nat)
    requires Within(kids, 0, |nodes|) && j < n <= |kids| && nodes[kids[j]].outcome == Some(Win)
    ensures k < |Wins(nodes, kids, n)| && Wins(nodes, kids, n)[k] == kids[j]
    decreases n
  {
    if j == n - 1 {
      k := |Wins(nodes, kids, n - 1)|;
    } else {
      k := WinsHas(nodes, kids, n - 1, j);
    }
  }

  lemma {:induction false} ChildrenSelection(nodes: seq<ProofNode>, i: nat)
    requires Linked(nodes) && i < |nodes|
    ensures Selection(nodes, i, Children(nodes, i))
  {
    ChildrenDescending(nodes, i);
    var kids := Children(nodes, i);
    assert forall k :: 0 <= k < |kids| ==> kids[k] in kids;
  }

  lemma {:induction false} KeptSelection(nodes: seq<ProofNode>, parent: nat, o: Outcome)
    requires Linked(nodes) && parent < |nodes|
    ensures Selection(nodes, parent, Kept(nodes, Children(nodes, parent), o))
  {
    ChildrenSelection(nodes, parent);
    if o == Loss {
      WinsSelection(nodes, parent, Children(nodes, parent), |Children(nodes, parent)|);
    }
  }

  lemma {:induction false} KeptFrom(nodes: seq<ProofNode>, kids: seq<nat>, o: Outcome)
    requires Within(kids, 0, |nodes|)
    ensures forall c :: c in Kept(nodes, kids, o) ==> c in kids && nodes[c].outcome == Some(o.Flip())
    ensures o == Win ==> |Kept(nodes, kids, o)| <= 1
  {
    var kept := Kept(nodes, kids, o);
    forall k | 0 <= k < |kept|
      ensures kept[k] in kids && nodes[kept[k]].outcome == Some(o.Flip())
    {
      if o == Loss {
        var j := WinsFrom(nodes, kids, |kids|, k);
      }
    }
  }

  /** `x` lies in the subtree of a child that is not kept. */
  ghost predicate Cut(nodes: seq<ProofNode>, kids: seq<nat>, kept: seq<nat>, x: nat)
    requires Linked(nodes) && Within(kids, 0, |nodes|)
  {
    x < |nodes| && exists j :: 0 <= j < |kids| && kids[j] !in kept && Under(nodes, x, kids[j])
  }

  /** The key names the edge to a child that is not kept, or an edge below one. */
  ghost predicate Dropped(nodes: seq<ProofNode>, parent: nat, kids: seq<nat>, kept: seq<nat>, k: (nat, Move))
    requires Linked(nodes) && Within(kids, 0, |nodes|)
  {
    || (exists j :: 0 <= j < |kids| && kids[j] !in kept && k == (parent, nodes[kids[j]].mv))
    || Cut(nodes, kids, kept, k.0)
  }

  /** Select the children of a realised node and forget the index entries of the others. */
  ghost function Reconcile(a: Arena, id: nat): (r: Arena)
    requires Ranged(a) && id < |a.nodes|
    ensures Ranged(r) && |r.nodes| == |a.nodes|
  {
    if a.nodes[id].outcome.None? then a
    else
      var kids := Children(a.nodes, id);
      var kept := Kept(a.nodes, kids, a.nodes[id].outcome.value);
      KeptSelection(a.nodes, id, a.nodes[id].outcome.value);
      RelinkLinked(a.nodes, id, kept);
      Arena(Relink(a.nodes, id, kept, 0),
            map k | k in a.index && !Dropped(a.nodes, id, kids, kept, k) :: a.index[k])
  }

  /** The located node made real, and its own children chosen if it was a placeholder. */
  ghost function Realise(a: Arena, id: nat, e: Event): (r: Arena)
    requires Ranged(a) && id < |a.nodes|
    ensures Ranged(r) && |r.nodes| == |a.nodes|
  {
    ApplyRanged(a, id, e);
    var b := a.(nodes := Apply(a.nodes, id, e));
    if a.nodes[id].outcome.None? then Reconcile(b, id) else b
  }

  /** One event. */
  ghost function Process(a: Arena, e: Event): (r: Arena)
    requires Ranged(a)
    ensures Ranged(r) && |a.nodes| <= |r.nodes|
  {
    var l := Locate(a, e.path, |e.path|);
    var b := Realise(l.0, l.1, e);
    if e.path == [] then b
    else
      var up := Locate(b, e.path, |e.path| - 1);
      if up.0.nodes[up.1].outcome.Some? then Reconcile(up.0, up.1) else up.0
  }

  lemma {:induction false} ApplyRanged(a: Arena, id: nat, e: Event)
    requires Ranged(a) && id < |a.nodes|
    ensures Ranged(a.(nodes := Apply(a.nodes, id, e))) && SameLinks(a.nodes, Apply(a.nodes, id, e))
  {
    SameLinksKids(a.nodes, Apply(a.nodes, id, e));
  }

  /** A run of events, oldest first. */
  ghost function Run(es: seq<Event>, n: nat): (r: Arena)
    requires n <= |es|
    ensures Ranged(r)
  {
    if n == 0 then assert NodeLinked(Fresh().nodes, 0); Fresh() else Process(Run(es, n - 1), es[n - 1])
  }
}
