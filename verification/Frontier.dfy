/** The frontier of the harvest walk: which censored nodes are worth another visit.  A key is the
    move path from the game start; moves are ordered by their names. */
module Frontier {
  import opened Game
  import opened Paths
  import opened PathOrder

  // ----- keys relative to the session's scope -----

  predicate InScope(scope: Path, key: Path) { scope <= key }

  function RelOf(scope: Path, key: Path): Path
    requires InScope(scope, key)
  {
    key[|scope|..]
  }

  function JoinScope(scope: Path, rel: Path): Path { scope + rel }

  lemma {:induction false} ScopeRound(scope: Path, key: Path, rel: Path)
    ensures InScope(scope, JoinScope(scope, rel)) && RelOf(scope, JoinScope(scope, rel)) == rel
    ensures InScope(scope, key) ==> JoinScope(scope, RelOf(scope, key)) == key
  {
  }

  /** At or under a key of `closed`. */
  predicate UnderClosed(key: Path, closed: set<Path>)
  {
    exists i :: 0 <= i <= |key| && key[..i] in closed
  }

  datatype Drop = Lineage | Ancestor | OrClosed

  ghost predicate Shallowest(key: Path, closed: set<Path>, i: nat)
  {
    i <= |key| && key[..i] in closed && forall j :: 0 <= j < i ==> key[..j] !in closed
  }

  ghost function DropAt(key: Path, proven: set<Path>, i: nat): Drop
    requires i <= |key|
  {
    if key[..i] in proven then if i == |key| then Lineage else Ancestor else OrClosed
  }

  /** The shallowest closing prefix decides. */
  method DropReason(key: Path, proven: set<Path>, orClosed: set<Path>) returns (r: Option<Drop>)
    ensures r.None? <==> !UnderClosed(key, proven + orClosed)
    ensures r.Some? ==> exists i :: Shallowest(key, proven + orClosed, i) && r.value == DropAt(key, proven, i)
  {
    for i := 0 to |key| + 1
      invariant forall j :: 0 <= j < i ==> key[..j] !in proven && key[..j] !in orClosed
    {
      if key[..i] in proven {
        assert Shallowest(key, proven + orClosed, i);
        return Some(if i == |key| then Lineage else Ancestor);
      }
      if key[..i] in orClosed {
        assert Shallowest(key, proven + orClosed, i);
        return Some(OrClosed);
      }
    }
    r := None;
  }

  lemma {:induction false} UnderMore(key: Path, a: set<Path>, b: set<Path>)
    ensures UnderClosed(key, a + b) <==> UnderClosed(key, a) || UnderClosed(key, b)
  {
  }

  lemma {:induction false} UnderOne(key: Path, q: Path)
    ensures UnderClosed(key, {q}) <==> q <= key
  {
    if q <= key {
      assert key[..|q|] == q;
    }
  }

  /** A child is under what its parent is under, or is closed itself. */
  lemma {:induction false} UnderChild(key: Path, m: Move, closed: set<Path>)
    ensures UnderClosed(key + [m], closed) <==> UnderClosed(key, closed) || key + [m] in closed
  {
    var child := key + [m];
    assert child[..|child|] == child;
    forall i | 0 <= i <= |key|
      ensures child[..i] == key[..i]
    {
    }
  }

  // ----- selection order -----

  /** Shallowest first, then by name. */
  ghost predicate Before(a: Path, b: Path)
  {
    |a| < |b| || (|a| == |b| && LexLess(a, b))
  }

  predicate LexBelow(a: Path, b: Path, i: nat)
    requires |a| == |b| && i <= |a|
    decreases |a| - i
  {
    i < |a| && (a[i] < b[i] || (a[i] == b[i] && LexBelow(a, b, i + 1)))
  }

  /** The comparison decides the order. */
  lemma {:induction false} LexDecides(a: Path, b: Path, i: nat)
    requires |a| == |b| && i <= |a| && a[..i] == b[..i]
    ensures LexBelow(a, b, i) ==> LexLess(a, b)
    ensures !LexBelow(a, b, i) && a != b ==> LexLess(b, a)
    decreases |a| - i
  {
    if i < |a| {
      if a[i] == b[i] {
        assert a[..i + 1] == b[..i + 1];
        LexDecides(a, b, i + 1);
      } else {
        assert LexAt(a, b, i) || LexAt(b, a, i);
      }
    } else {
      assert a == b;
    }
  }

  lemma {:induction false} LexTrans(a: Path, b: Path, c: Path)
    requires LexLess(a, b) && LexLess(b, c) && |a| == |b| == |c|
    ensures LexLess(a, c)
  {
    var i: nat :| LexAt(a, b, i);
    var j: nat :| LexAt(b, c, j);
    var k := if i < j then i else j;
    assert a[..k] == a[..i][..k] && b[..k] == b[..i][..k] && c[..k] == c[..j][..k] && b[..j][..k] == b[..k];
    assert LexAt(a, c, k);
  }

  /** The first of the keys. */
  method First(keys: set<Path>) returns (r: Option<Path>)
    ensures r.None? <==> keys == {}
    ensures r.Some? ==> r.value in keys && forall k :: k in keys ==> k == r.value || Before(r.value, k)
  {
    r := None;
    var rest := keys;
    while rest != {}
      invariant rest <= keys && (r.None? ==> rest == keys)
      invariant r.Some? ==> r.value in keys && forall k :: k in keys - rest ==> k == r.value || Before(r.value, k)
      decreases |rest|
    {
      var k :| k in rest;
      if r.None? || |k| < |r.value| || (|k| == |r.value| && LexBelow(k, r.value, 0)) {
        if r.Some? {
          Earlier(keys - rest, r.value, k);
        }
        r := Some(k);
      } else if |k| == |r.value| {
        LexDecides(k, r.value, 0);
      }
      rest := rest - {k};
    }
  }

  lemma {:induction false} Earlier(seen: set<Path>, best: Path, k: Path)
    requires forall x :: x in seen ==> x == best || Before(best, x)
    requires |k| < |best| || (|k| == |best| && LexBelow(k, best, 0))
    ensures forall x :: x in seen ==> Before(k, x)
  {
    if |k| == |best| {
      LexDecides(k, best, 0);
    }
    forall x | x in seen
      ensures Before(k, x)
    {
      if |k| == |best| && x != best && |x| == |best| {
        LexTrans(k, best, x);
      }
    }
  }

  /** The records that no closed node covers. */
  method AdmitAll(records: set<Path>, proven: set<Path>, orClosed: set<Path>, drawn: set<Path>)
    returns (admitted: set<Path>)
    ensures admitted == set k | k in records && !UnderClosed(k, proven + orClosed + drawn)
  {
    hide UnderClosed;
    admitted := {};
    var rest := records;
    while rest != {}
      invariant rest <= records && admitted == set k | k in records - rest && !UnderClosed(k, proven + orClosed + drawn)
      decreases |rest|
    {
      var k :| k in rest;
      var reason := DropReason(k, proven, orClosed);
      UnderMore(k, proven + orClosed, drawn);
      if !UnderClosed(k, drawn) && reason.None? {
        admitted := admitted + {k};
      }
      rest := rest - {k};
    }
  }

  /** The parent is in scope and the first player moves there. */
  predicate Closes(scope: Path, key: Path)
  {
    |key| % 2 == 1 && InScope(scope, key[..|key| - 1])
  }

  function ParentRel(scope: Path, key: Path): Path
    requires Closes(scope, key)
  {
    RelOf(scope, key[..|key| - 1])
  }

  /** Without the candidates at or under `rel`. */
  function Swept(order: set<Path>, rel: Path): set<Path>
  {
    set k | k in order && !(rel <= k)
  }

  // ----- the selection state -----

  /** What the frontier keeps, keys relative to the scope. */
  class WalkFrontier {
    const scope: Path
    const proven: set<Path>
    const orClosed: set<Path>
    var order: set<Path>
    var drawn: set<Path>
    var orClosedDyn: set<Path>
    var complete: set<Path>
    var decided: set<Path>
    var completes: nat

    /** Every node whose value is known. */
    ghost function Closed(): set<Path>
      reads this
    {
      proven + orClosed + orClosedDyn + drawn + decided
    }

    /** No candidate lies at or under a closed node. */
    ghost predicate Valid()
      reads this
    {
      forall k :: k in order ==> !UnderClosed(k, Closed())
    }

    /** Admit every record in scope that no closed node covers. */
    constructor (scope: Path, records: set<Path>, provenRows: set<Path>, lossRows: set<Path>, drawnRows: set<Path>)
      ensures Valid() && this.scope == scope && completes == 0
      ensures proven == Relative(scope, provenRows) && drawn == Relative(scope, drawnRows)
              && orClosed == OrParents(scope, lossRows)
      ensures orClosedDyn == complete == decided == {}
      ensures order == set k | k in Relative(scope, records) && !UnderClosed(k, proven + orClosed + drawn)
    {
      this.scope := scope;
      proven, orClosed, drawn := Relative(scope, provenRows), OrParents(scope, lossRows), Relative(scope, drawnRows);
      orClosedDyn, complete, decided, completes := {}, {}, {}, 0;
      var admitted :=
        AdmitAll(Relative(scope, records), Relative(scope, provenRows), OrParents(scope, lossRows),
            Relative(scope, drawnRows));
      order := admitted;
      new;
      assert Closed() == proven + orClosed + drawn;
    }

    /** The first candidate. */
    method Pick() returns (r: Option<Path>)
      ensures r.None? <==> order == {}
      ensures r.Some? ==> InScope(scope, r.value) && RelOf(scope, r.value) in order
      ensures r.Some? ==> forall k :: k in order ==> k == RelOf(scope, r.value) || Before(RelOf(scope, r.value), k)
    {
      var first := First(order);
      if first.None? {
        return None;
      }
      ScopeRound(scope, [], first.value);
      r := Some(JoinScope(scope, first.value));
    }

    predicate RootDrawn() reads this { [] in drawn }

    predicate RootOrClosed() reads this { [] in orClosed || [] in orClosedDyn }

    predicate RootBlocked() reads this { [] in complete || RootDrawn() }

    /** Remove every candidate at or under `rel`. */
    method SweepSubtree(rel: Path)
      modifies this`order
      ensures order == Swept(old(order), rel)
    {
      order := Swept(order, rel);
    }

    method MarkComplete(key: Path)
      requires Valid() && InScope(scope, key)
      modifies this`complete, this`completes, this`order
      ensures Valid() && order == old(order) - {RelOf(scope, key)} && complete == old(complete) + {RelOf(scope, key)}
      ensures completes == old(completes) + if RelOf(scope, key) in old(complete) then 0 else 1
    {
      var rel := RelOf(scope, key);
      if rel !in complete {
        complete, completes := complete + {rel}, completes + 1;
      }
      order := order - {rel};
    }

    method MarkDecided(key: Path)
      requires Valid() && InScope(scope, key)
      modifies this`decided, this`order
      ensures Valid() && decided == old(decided) + {RelOf(scope, key)}
      ensures order == Swept(old(order), RelOf(scope, key))
    {
      var rel := RelOf(scope, key);
      ghost var before := Closed();
      decided := decided + {rel};
      SweepSubtree(rel);
      SweptClear(old(order), order, before, rel);
      assert Closed() == before + {rel};
    }

    method MarkDrawn(key: Path)
      requires Valid() && InScope(scope, key)
      modifies this`drawn, this`order
      ensures Valid() && drawn == old(drawn) + {RelOf(scope, key)}
      ensures order == Swept(old(order), RelOf(scope, key))
    {
      var rel := RelOf(scope, key);
      ghost var before := Closed();
      drawn := drawn + {rel};
      SweepSubtree(rel);
      SweptClear(old(order), order, before, rel);
      assert Closed() == before + {rel};
    }

    /** Close a node that one won reply decides; a node that is complete already is left alone. */
    method OrClose(key: Path) returns (fresh_close: bool)
      requires Valid() && InScope(scope, key)
      modifies this`complete, this`orClosedDyn, this`order
      ensures Valid() && (fresh_close <==> RelOf(scope, key) !in old(complete))
      ensures complete == old(complete) + {RelOf(scope, key)}
      ensures orClosedDyn == old(orClosedDyn) + if fresh_close then {RelOf(scope, key)} else {}
      ensures order == if fresh_close then Swept(old(order), RelOf(scope, key)) else old(order)
    {
      var rel := RelOf(scope, key);
      if rel in complete {
        return false;
      }
      ghost var before := Closed();
      complete, orClosedDyn := complete + {rel}, orClosedDyn + {rel};
      SweepSubtree(rel);
      SweptClear(old(order), order, before, rel);
      assert Closed() == before + {rel};
      fresh_close := true;
    }

    /** After a lost node at odd ply, close its parent. */
    method OrCloseParent(key: Path) returns (closed: bool)
      requires Valid()
      modifies this`complete, this`orClosedDyn, this`order
      ensures Valid() && (closed <==> Closes(scope, key) && ParentRel(scope, key) !in old(complete))
      ensures complete == old(complete) + if closed then {ParentRel(scope, key)} else {}
      ensures orClosedDyn == old(orClosedDyn) + if closed then {ParentRel(scope, key)} else {}
      ensures order == if closed then Swept(old(order), ParentRel(scope, key)) else old(order)
    {
      if |key| % 2 != 1 {
        return false;
      }
      var parent := key[..|key| - 1];
      if !InScope(scope, parent) {
        return false;
      }
      closed := OrClose(parent);
    }

    /** Admit a record, unless a closed node covers it. */
    method Admit(key: Path)
      requires Valid() && (InScope(scope, key) ==> !UnderClosed(RelOf(scope, key), decided))
      modifies this`order
      ensures Valid()
      ensures if InScope(scope, key) && !UnderClosed(RelOf(scope, key), Closed())
              then order == old(order) + {RelOf(scope, key)} else order == old(order)
    {
      if !InScope(scope, key) {
        return;
      }
      var rel := RelOf(scope, key);
      var reason := DropReason(rel, proven, orClosed);
      ClosedSplit(rel, proven + orClosed, orClosedDyn, drawn, decided);
      if reason.Some? || UnderClosed(rel, orClosedDyn) || UnderClosed(rel, drawn) {
        return;
      }
      order := order + {rel};
    }
  }

  lemma {:induction false} ClosedSplit(key: Path, a: set<Path>, b: set<Path>, c: set<Path>, d: set<Path>)
    ensures UnderClosed(key, a + b + c + d) <==>
        UnderClosed(key, a) || UnderClosed(key, b) || UnderClosed(key, c) || UnderClosed(key, d)
  {
    hide UnderClosed;
    UnderMore(key, a + b + c, d);
    UnderMore(key, a + b, c);
    UnderMore(key, a, b);
  }

  /** After the sweep nothing is under the new closed node. */
  lemma {:induction false} SweptClear(was: set<Path>, now: set<Path>, closed: set<Path>, rel: Path)
    requires (forall k :: k in was ==> !UnderClosed(k, closed)) && now == Swept(was, rel)
    ensures forall k :: k in now ==> !UnderClosed(k, closed + {rel})
  {
    forall k | k in now
      ensures !UnderClosed(k, closed + {rel})
    {
      UnderMore(k, closed, {rel});
      UnderOne(k, rel);
    }
  }

  // ----- what a session starts from -----

  /** The keys in scope, relative to it. */
  function Relative(scope: Path, keys: set<Path>): set<Path>
  {
    set k | k in keys && InScope(scope, k) :: RelOf(scope, k)
  }

  /** The parents of lost rows where the first player moves. */
  function OrParents(scope: Path, lossRows: set<Path>): set<Path>
  {
    set k | k in lossRows && |k| % 2 == 1 && InScope(scope, k[..|k| - 1]) :: RelOf(scope, k[..|k| - 1])
  }
}
