/** The canonicalising rebuild of finalisation, as a recursive walk: every raw node is replaced
    by the best expanded twin of its hash and outcome, and a hash that repeats on the current
    path ends its branch. */
module Rebuild {
  import opened Game
  import opened Lists
  import opened Tree

  /** `(hash, outcome) -> id` of the twin that stands for the key. */
  type Canon = map<(nat, Outcome), nat>

  /** The raw arena and its canonical twins. */
  datatype Raw = Raw(nodes: seq<ProofNode>, canon: Canon)

  /** The new arena; `src` is the raw node a new node was expanded from, `cut` marks leaves
      left by the cycle guard. */
  datatype Built = Built(nodes: seq<ProofNode>, src: seq<nat>, cut: seq<bool>)

  predicate TwinOk(nodes: seq<ProofNode>, k: (nat, Outcome), id: nat)
  {
    id < |nodes| && nodes[id].hash == k.0 && nodes[id].outcome == Some(k.1)
  }

  ghost predicate Ready(t: Raw)
  {
    && Linked(t.nodes)
    && (forall k :: k in t.canon ==> TwinOk(t.nodes, k, t.canon[k]))
    && (forall i :: 0 < i < |t.nodes| ==> t.nodes[i].mv != NO_MOVE)
  }

  /** The node expanded in place of a realised raw node. */
  function Eff(t: Raw, raw: nat): (id: nat)
    requires raw < |t.nodes| && t.nodes[raw].outcome.Some?
  {
    var k := (t.nodes[raw].hash, t.nodes[raw].outcome.value);
    if k in t.canon then t.canon[k] else raw
  }

  lemma {:induction false} EffFacts(t: Raw, raw: nat)
    requires Ready(t) && raw < |t.nodes| && t.nodes[raw].outcome.Some?
    ensures var e := Eff(t, raw);
            e < |t.nodes| && t.nodes[e].hash == t.nodes[raw].hash && t.nodes[e].outcome == t.nodes[raw].outcome
  {
    var k := (t.nodes[raw].hash, t.nodes[raw].outcome.value);
    if k in t.canon {
      assert TwinOk(t.nodes, k, t.canon[k]);
    }
  }

  ghost function Hashes(nodes: seq<ProofNode>): set<nat>
  {
    set i | 0 <= i < |nodes| :: nodes[i].hash
  }

  /** The hashes on the current path, each once. */
  ghost predicate OnPath(t: Raw, hs: seq<nat>)
  {
    Distinct(hs) && forall i :: 0 <= i < |hs| ==> hs[i] in Hashes(t.nodes)
  }

  lemma {:induction false} DistinctCount(s: seq<nat>, all: set<nat>)
    requires Distinct(s) && forall i :: 0 <= i < |s| ==> s[i] in all
    ensures |s| <= |all|
    decreases |s|
  {
    if s != [] {
      var last := s[|s| - 1];
      DistinctCount(s[..|s| - 1], all - {last});
    }
  }

  lemma {:induction false} PathGrows(t: Raw, hs: seq<nat>, raw: nat)
    requires OnPath(t, hs) && raw < |t.nodes| && t.nodes[raw].hash !in hs
    ensures OnPath(t, hs + [t.nodes[raw].hash]) && |hs| < |Hashes(t.nodes)|
  {
    var longer := hs + [t.nodes[raw].hash];
    assert OnPath(t, longer);
    DistinctCount(longer, Hashes(t.nodes));
  }

  ghost predicate Formed(b: Built)
  {
    Linked(b.nodes) && |b.src| == |b.cut| == |b.nodes|
  }

  function Grown(b: Built, parent: nat, mv: Move, hash: nat, o: Option<Outcome>, d: U32, src: nat,
          cut: bool): (r: Built)
    requires Linked(b.nodes) && parent < |b.nodes|
    ensures Linked(r.nodes) && |r.nodes| == |b.nodes| + 1
  {
    Built(AddNode(b.nodes, parent, mv, hash, o, d), b.src + [src], b.cut + [cut])
  }

  /** The root keeps its place and takes the payload of its twin. */
  function Rooted(t: Raw, b: Built, e: nat): (r: Built)
    requires e < |t.nodes| && |b.nodes| > 0 && |b.src| == |b.nodes|
  {
    var n := t.nodes[e];
    Built(b.nodes[0 := b.nodes[0].(hash := n.hash, outcome := n.outcome, depth := n.depth)], b.src[0 := e], b.cut)
  }

  lemma {:induction false} RootedFormed(t: Raw, b: Built, e: nat)
    requires e < |t.nodes| && Formed(b)
    ensures Formed(Rooted(t, b, e)) && SameLinks(b.nodes, Rooted(t, b, e).nodes)
  {
    SameLinksKids(b.nodes, Rooted(t, b, e).nodes);
  }

  predicate IsRootEdge(parent: nat, mv: Move) { mv == NO_MOVE && parent == 0 }

  /** Everything one Enter action leads to. */
  ghost function Visit(t: Raw, raw: nat, parent: nat, mv: Move, hs: seq<nat>, b: Built): (r: Built)
    requires Ready(t) && raw < |t.nodes| && OnPath(t, hs) && Formed(b) && parent < |b.nodes|
    ensures Formed(r) && |b.nodes| <= |r.nodes|
    decreases |Hashes(t.nodes)| - |hs|, if IsRootEdge(parent, mv) then 3 else 1, 0
  {
    if t.nodes[raw].outcome.None? then b
    else
      EffFacts(t, raw);
      var e := Eff(t, raw);
      var n := t.nodes[e];
      if IsRootEdge(parent, mv) then
        RootedFormed(t, b, e);
        VisitAll(t, Children(t.nodes, e), 0, 0, hs, Rooted(t, b, e))
      else if n.hash in hs then
        Grown(b, parent, mv, n.hash, n.outcome, n.depth, e, true)
      else
        PathGrows(t, hs, e);
        DistinctCount(hs + [n.hash], Hashes(t.nodes));
        VisitAll(t, Children(t.nodes, e), 0, |b.nodes|, hs + [n.hash],
            Grown(b, parent, mv, n.hash, n.outcome, n.depth, e, false))
  }

  /** The children from `i` on, in chain order. */
  ghost function VisitAll(t: Raw, kids: seq<nat>, i: nat, parent: nat, hs: seq<nat>, b: Built): (r: Built)
    requires Ready(t) && Within(kids, 1, |t.nodes|) && i <= |kids| && OnPath(t, hs) && Formed(b) && parent < |b.nodes|
    ensures Formed(r) && |b.nodes| <= |r.nodes|
    decreases |Hashes(t.nodes)| - |hs|, 2, |kids| - i
  {
    if i == |kids| then b
    else VisitAll(t, kids, i + 1, parent, hs, Visit(t, kids[i], parent, t.nodes[kids[i]].mv, hs, b))
  }

  /** The number of actions the walk below one Enter takes. */
  ghost function Cost(t: Raw, raw: nat, root: bool, hs: seq<nat>): (c: nat)
    requires Ready(t) && raw < |t.nodes| && OnPath(t, hs)
    ensures c > 0
    decreases |Hashes(t.nodes)| - |hs|, if root then 3 else 1, 0
  {
    if t.nodes[raw].outcome.None? then 1
    else
      EffFacts(t, raw);
      var e := Eff(t, raw);
      if root then 2 + CostAll(t, Children(t.nodes, e), 0, hs)
      else if t.nodes[e].hash in hs then 1
      else
        PathGrows(t, hs, e);
        DistinctCount(hs + [t.nodes[e].hash], Hashes(t.nodes));
        2 + CostAll(t, Children(t.nodes, e), 0, hs + [t.nodes[e].hash])
  }

  ghost function CostAll(t: Raw, kids: seq<nat>, i: nat, hs: seq<nat>): nat
    requires Ready(t) && Within(kids, 1, |t.nodes|) && i <= |kids| && OnPath(t, hs)
    decreases |Hashes(t.nodes)| - |hs|, 2, |kids| - i
  {
    if i == |kids| then 0 else Cost(t, kids[i], false, hs) + CostAll(t, kids, i + 1, hs)
  }
}
