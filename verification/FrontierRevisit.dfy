/** When an or-closed node is searched again: exactly when some record hangs in the scope without an
    anchor above it. */
module FrontierRevisit {
  import opened Game
  import opened Paths
  import opened Frontier
  import opened FrontierBatch
  import opened FrontierRun
  import opened FrontierState

  function Up(rel: Path): Path
    requires rel != []
  {
    rel[..|rel| - 1]
  }

  ghost predicate Worked(u: Setup, s: State, rel: Path) { WorkOf(s.entries, u.scope + rel) >= u.base }

  /** A job runs at a node that is or-closed. */
  ghost predicate Revisit(u: Setup, s: State, a: Act)
  {
    a.Search? && InScope(u.scope, a.key) && PathLegal(u.g, u.start, a.key) && RelOf(u.scope, a.key) in s.orDyn
  }

  /** A candidate without work, the second player to move, at least two plies below the scope root, whose
      parent and whose scope root have no record, whose line holds no worked record, and whose line does
      not enter the stored rows below the scope root. */
  ghost predicate Orphan(u: Setup, s: State, c: Path)
  {
    && c in s.order && |c| >= 2 && |u.scope + c| % 2 == 1
    && (forall i :: 0 <= i <= |c| ==> !Worked(u, s, c[..i]))
    && u.scope + Up(c) !in s.entries && u.scope !in s.entries && u.scope + c[..1] !in u.rows
  }

  ghost predicate NoOrphan(u: Setup, s: State) { forall c :: !Orphan(u, s, c) }

  // ----- what every state keeps -----

  /** Uncovered records are candidates or complete; worked ones are candidates or have no child left. */
  ghost predicate Listed(u: Setup, s: State)
  {
    && (forall k: Path :: u.scope + k in s.entries && !UnderClosed(k, ClosedIn(u, s)) ==>
         k in s.order || k in s.complete)
    && (forall k: Path :: u.scope + k in s.entries && Worked(u, s, k) && !UnderClosed(k, ClosedIn(u, s)) && u.base > 0
          ==> k in s.order || AllHandled(u, s, u.scope + k))
    && (forall k: Path :: u.scope + k in s.marks ==> k in s.drawn)
  }

  /** The expansion cannot come down to `q` any more. */
  ghost predicate BlockedAt(u: Setup, s: State, q: Path, i: nat)
  {
    && i < |q| && (if i == 0 then [] in s.complete else u.scope + q[..i] in u.rows)
    && forall j :: i <= j < |q| ==> q[..j] !in s.order
  }

  ghost predicate Unreachable(u: Setup, s: State, q: Path)
  {
    q == [] || Handled(u, s, u.scope + q) || exists i: nat :: BlockedAt(u, s, q, i)
  }

  ghost predicate ClosedForGood(u: Setup, s: State)
  {
    forall q :: q in s.orDyn ==> Unreachable(u, s, q)
  }

  // ----- nothing is forgotten -----

  ghost predicate Grew(u: Setup, s: State, t: State)
  {
    && s.entries.Keys <= t.entries.Keys && s.marks <= t.marks && s.shards <= t.shards && s.complete <= t.complete
    && ClosedIn(u, s) <= ClosedIn(u, t)
    && forall k: Path :: Worked(u, s, k) ==> Worked(u, t, k)
  }

  lemma {:induction false} UnderGrew(key: Path, a: set<Path>, b: set<Path>)
    requires a <= b && UnderClosed(key, a)
    ensures UnderClosed(key, b)
  {
  }

  lemma {:induction false} HandledGrew(u: Setup, s: State, t: State, k: Path)
    requires Grew(u, s, t) && Handled(u, s, u.scope + k)
    ensures Handled(u, t, u.scope + k)
  {
    if u.scope + k in s.entries {
      assert Worked(u, s, k) == (s.entries[u.scope + k].work >= u.base);
    }
  }

  lemma {:induction false} AllHandledGrew(u: Setup, s: State, t: State, k: Path)
    requires Grew(u, s, t) && AllHandled(u, s, u.scope + k)
    ensures AllHandled(u, t, u.scope + k)
  {
    forall m | m in u.g.legal(Replay(u.g, u.start, u.scope + k))
      ensures Handled(u, t, u.scope + k + [m])
    {
      assert u.scope + k + [m] == u.scope + (k + [m]);
      HandledGrew(u, s, t, k + [m]);
    }
  }

  lemma {:induction false} BumpGrows(entries: map<Path, Entry>, key: Path, evals: nat, base: nat)
    requires base <= U64_MAX
    ensures forall k :: WorkOf(entries, k) >= base ==> WorkOf(Bumped(entries, key, evals), k) >= base
    ensures forall k :: k != key ==> WorkOf(Bumped(entries, key, evals), k) == WorkOf(entries, k)
    ensures evals == 0 && WorkOf(entries, key) < base ==> WorkOf(Bumped(entries, key, evals), key) < base
  {
  }

  /** What booking a job at `key` does to the records, and to the order. */
  ghost predicate Booked(u: Setup, s: State, t: State, key: Path)
    requires InScope(u.scope, key)
  {
    && Grew(u, s, t)
    && (forall k :: k in t.order ==> k in s.order || k == RelOf(u.scope, key))
    && (forall k :: k in s.order ==> k in t.order || UnderClosed(k, ClosedIn(u, t)) || k == RelOf(u.scope, key))
    && (forall k :: k in t.entries ==> k in s.entries || k == key)
    && (forall k: Path :: u.scope + k in t.marks ==> u.scope + k in s.marks || k in t.drawn)
    && s.drawn <= t.drawn
    && (forall k: Path :: Worked(u, t, k) ==> Worked(u, s, k) || k == RelOf(u.scope, key))
  }

  /** The visited node itself: covered, a candidate, or complete and, if it had no work, without work. */
  ghost predicate Placed(u: Setup, s: State, t: State, rel: Path)
  {
    UnderClosed(rel, ClosedIn(u, t)) || rel in t.order
    || (rel in t.complete && (!Worked(u, s, rel) ==> !Worked(u, t, rel)))
  }

  lemma {:induction false} CensorBooked(u: Setup, s: State, key: Path, evals: nat)
    requires InScope(u.scope, key) && u.base <= U64_MAX
    ensures Booked(u, s, Censor(u, s, key, evals), key) && Placed(u, s, Censor(u, s, key, evals), RelOf(u.scope, key))
  {
    BumpGrows(s.entries, key, evals, u.base);
    BumpedHas(s.entries, key, evals);
    ScopeRound(u.scope, key, []);
    hide UnderClosed, Bumped, WorkOf;
  }

  lemma {:induction false} SweptUnder(order: set<Path>, rel: Path, closed: set<Path>)
    requires rel in closed
    ensures UnderClosed(rel, closed)
    ensures forall k :: k in order ==> k in Swept(order, rel) || UnderClosed(k, closed)
  {
    assert rel[..|rel|] == rel;
    forall k | k in order && rel <= k
      ensures UnderClosed(k, closed)
    {
      assert k[..|rel|] == rel;
    }
  }

  lemma {:induction false} DrawBooked(u: Setup, s: State, key: Path)
    requires InScope(u.scope, key)
    ensures Booked(u, s, NoteDraw(u, s, key), key) && Placed(u, s, NoteDraw(u, s, key), RelOf(u.scope, key))
  {
    var t := NoteDraw(u, s, key);
    ScopeRound(u.scope, key, []);
    SweptUnder(s.order, RelOf(u.scope, key), ClosedIn(u, t));
    hide UnderClosed, WorkOf;
  }

  lemma {:induction false} StoredBooked(u: Setup, s: State, key: Path)
    requires InScope(u.scope, key)
    ensures Booked(u, s, Stored(u, s, key), key) && Placed(u, s, Stored(u, s, key), RelOf(u.scope, key))
  {
    var t := Stored(u, s, key);
    ScopeRound(u.scope, key, []);
    SweptUnder(s.order, RelOf(u.scope, key), ClosedIn(u, t));
    hide UnderClosed, WorkOf;
  }

  lemma {:induction false} ClosedUpBooked(u: Setup, s: State, t: State, key: Path)
    requires InScope(u.scope, key) && Booked(u, s, t, key) && Placed(u, s, t, RelOf(u.scope, key))
    ensures Booked(u, s, ClosedUp(u, t, key), key) && Placed(u, s, ClosedUp(u, t, key), RelOf(u.scope, key))
  {
    var v := ClosedUp(u, t, key);
    if v != t {
      assert ClosedIn(u, v) == ClosedIn(u, t) + {ParentRel(u.scope, key)};
      SweptUnder(t.order, ParentRel(u.scope, key), ClosedIn(u, v));
      forall k | UnderClosed(k, ClosedIn(u, t))
        ensures UnderClosed(k, ClosedIn(u, v))
      {
        UnderGrew(k, ClosedIn(u, t), ClosedIn(u, v));
      }
      assert forall k :: k in v.order ==> k in t.order;
      hide UnderClosed, ClosedIn, WorkOf, Swept;
    }
  }

  lemma {:induction false} BookBooked(u: Setup, s: State, key: Path, rec: JobRecord)
    requires InScope(u.scope, key) && u.base <= U64_MAX
    ensures Booked(u, s, Book(u, s, key, rec), key) && Placed(u, s, Book(u, s, key, rec), RelOf(u.scope, key))
  {
    var s1 := s.(summary := s.summary.(jobs := s.summary.jobs + 1, evals := s.summary.evals + rec.evals));
    hide Censor, NoteDraw, Stored, ClosedUp, UnderClosed;
    match rec.end {
      case Censored => CensorBooked(u, s1, key, rec.evals);
      case ProvenDraw => DrawBooked(u, s1, key);
      case Decisive(o) =>
        StoredBooked(u, s1, key);
        if o == Loss {
          ClosedUpBooked(u, s1, Stored(u, s1, key), key);
        }
    }
    SameBooked(u, s, s1, Book(u, s, key, rec), key);
  }

  lemma {:induction false} SameBooked(u: Setup, s: State, s1: State, t: State, key: Path)
    requires InScope(u.scope, key) && s1 == s.(summary := s1.summary) && Booked(u, s1, t, key)
    requires Placed(u, s1, t, RelOf(u.scope, key))
    ensures Booked(u, s, t, key) && Placed(u, s, t, RelOf(u.scope, key))
  {
    hide UnderClosed;
    assert forall k :: Worked(u, s1, k) == Worked(u, s, k);
    assert ClosedIn(u, s1) == ClosedIn(u, s);
  }

  // ----- what was chosen -----

  /** A candidate without work, the scope root, or an unhandled child of a worked candidate. */
  ghost predicate Chosen(u: Setup, s: State, rel: Path)
  {
    || (IsFirst(s.order, rel) && !Worked(u, s, rel))
    || (s.order == {} && rel == [] && !RootDone(u, s))
    || (rel != [] && IsFirst(s.order, Up(rel)) && Worked(u, s, Up(rel)) && !Handled(u, s, u.scope + rel))
  }

  lemma {:induction false} SearchChosen(u: Setup, s: State, a: Act)
    requires Chooses(u, s, a) && a.Search?
    ensures InScope(u.scope, a.key) && Chosen(u, s, RelOf(u.scope, a.key))
  {
    var rel := ChoiceCases(u, s, a);
    hide Chooses, RootDone, Handled, AllHandled, PathLegal, IsFirst;
    ScopeRound(u.scope, a.key, rel);
    if s.order != {} && a.key != u.scope + rel {
      var m :| LeastUnhandled(u, s, u.scope + rel, m) && a == Search(u.scope + rel + [m]);
      assert u.scope + (rel + [m]) == u.scope + rel + [m];
      ScopeRound(u.scope, a.key, rel + [m]);
      assert Up(rel + [m]) == rel;
    }
  }

  // ----- the invariant is kept -----

  lemma {:induction false} SearchListed(u: Setup, s: State, t: State, key: Path)
    requires Listed(u, s) && InScope(u.scope, key) && Chosen(u, s, RelOf(u.scope, key))
    requires Booked(u, s, t, key) && Placed(u, s, t, RelOf(u.scope, key))
    ensures Listed(u, t)
  {
    var rel := RelOf(u.scope, key);
    ScopeRound(u.scope, key, []);
    hide UnderClosed, ClosedIn, AllHandled, RootDone;
    forall k: Path | u.scope + k in t.entries && !UnderClosed(k, ClosedIn(u, t)) && k != rel
      ensures k in t.order || k in t.complete
      ensures Worked(u, t, k) && u.base > 0 ==> k in t.order || AllHandled(u, t, u.scope + k)
    {
      ScopeRound(u.scope, u.scope + k, k);
      if UnderClosed(k, ClosedIn(u, s)) {
        UnderGrew(k, ClosedIn(u, s), ClosedIn(u, t));
      }
      if AllHandled(u, s, u.scope + k) {
        AllHandledGrew(u, s, t, k);
      }
    }
    RootListed(u, s, t, key);
  }

  /** The visited node, when it had work: only the scope root is searched again. */
  lemma {:induction false} RootListed(u: Setup, s: State, t: State, key: Path)
    requires Listed(u, s) && InScope(u.scope, key) && Chosen(u, s, RelOf(u.scope, key))
    requires Booked(u, s, t, key) && Placed(u, s, t, RelOf(u.scope, key))
    ensures var rel := RelOf(u.scope, key);
            Worked(u, t, rel) && u.base > 0 && !UnderClosed(rel, ClosedIn(u, t)) ==>
              rel in t.order || AllHandled(u, t, key)
  {
    var rel := RelOf(u.scope, key);
    ScopeRound(u.scope, key, []);
    hide AllHandled, RootDone, UnderClosed, ClosedIn;
    if UnderClosed(rel, ClosedIn(u, s)) {
      UnderGrew(rel, ClosedIn(u, s), ClosedIn(u, t));
    }
    if AllHandled(u, s, key) {
      AllHandledGrew(u, s, t, rel);
    }
  }

  /** A job makes no orphan. */
  lemma {:induction false} OrphanBefore(u: Setup, s: State, t: State, key: Path, c: Path)
    requires InScope(u.scope, key) && Chosen(u, s, RelOf(u.scope, key)) && Booked(u, s, t, key) && Orphan(u, t, c)
    ensures Orphan(u, s, c)
  {
    hide RootDone, UnderClosed, ClosedIn, Handled;
    assert !Worked(u, t, c[..|c| - 1]);
  }

  /** A blocked node stays blocked: nothing on its line is searched. */
  lemma {:induction false} BlockedStays(u: Setup, s: State, t: State, key: Path, q: Path, i: nat)
    requires InScope(u.scope, key) && Chosen(u, s, RelOf(u.scope, key)) && Booked(u, s, t, key) && BlockedAt(u, s, q, i)
    ensures BlockedAt(u, t, q, i)
  {
    var rel := RelOf(u.scope, key);
    hide UnderClosed, ClosedIn, Orphan;
    forall j | i <= j < |q|
      ensures rel != q[..j]
    {
      assert j > i ==> Up(q[..j]) == q[..j - 1];
    }
  }

  lemma {:induction false} UnreachableStays(u: Setup, s: State, t: State, key: Path, q: Path)
    requires InScope(u.scope, key) && Chosen(u, s, RelOf(u.scope, key)) && Booked(u, s, t, key) && Unreachable(u, s, q)
    ensures Unreachable(u, t, q)
  {
    hide BlockedAt, Chosen, Handled;
    if q != [] {
      if Handled(u, s, u.scope + q) {
        HandledGrew(u, s, t, q);
      } else {
        var i: nat :| BlockedAt(u, s, q, i);
        BlockedStays(u, s, t, key, q, i);
      }
    }
  }

  // ----- a node that is or-closed is out of reach -----

  lemma {:induction false} RowPrefix(rows: map<Path, Option<Outcome>>, scope: Path, rel: Path, n: nat)
    requires RowsClosed(rows) && scope + rel in rows && n <= |rel|
    ensures scope + rel[..n] in rows
    decreases |rel| - n
  {
    if n < |rel| {
      RowPrefix(rows, scope, rel, n + 1);
      var k := scope + rel[..n + 1];
      assert k[..|k| - 1] == scope + rel[..n];
    } else {
      assert rel[..n] == rel;
    }
  }

  lemma {:induction false} UnderLonger(key: Path, n: nat, closed: set<Path>)
    requires n <= |key| && !UnderClosed(key, closed)
    ensures !UnderClosed(key[..n], closed)
  {
    forall i | 0 <= i <= n
      ensures key[..n][..i] == key[..i]
    {
    }
  }

  /** Below a worked record some worked record is still a candidate, unless the line enters the stored
      rows or the last node before `c` is handled. */
  lemma {:induction false} Descend(u: Setup, s: State, c: Path, i: nat) returns (k: nat)
    requires Grounded(u) && Coherent(u, s) && Listed(u, s) && !UnderClosed(c, ClosedIn(u, s))
    requires PathLegal(u.g, u.start, u.scope + c) && i < |c| && Worked(u, s, c[..i]) && u.base > 0
    ensures k < |c|
    ensures c[..k] in s.order || Handled(u, s, u.scope + Up(c)) || (k > 0 && u.scope + c[..k] in u.rows)
    decreases |c| - i
  {
    hide Worked, Coherent, Listed, PathLegal, UnderClosed, Handled, ClosedIn, Grounded;
    k := i;
    if i + 1 < |c| && c[..i] !in s.order {
      DownOne(u, s, c, i);
      if u.scope + c[..i + 1] in u.rows {
        k := i + 1;
      } else {
        k := Descend(u, s, c, i + 1);
      }
    } else if i + 1 == |c| {
      WorkedHandled(u, s, c[..i]);
    }
  }

  lemma {:induction false} WorkedHandled(u: Setup, s: State, rel: Path)
    requires Worked(u, s, rel) && u.base > 0
    ensures u.scope + rel in s.entries && Handled(u, s, u.scope + rel)
  {
  }

  lemma {:induction false} NoChildLeft(u: Setup, s: State, rel: Path)
    requires Listed(u, s) && !UnderClosed(rel, ClosedIn(u, s)) && Worked(u, s, rel) && u.base > 0 && rel !in s.order
    ensures AllHandled(u, s, u.scope + rel)
  {
    hide AllHandled, UnderClosed, ClosedIn, Handled;
    WorkedHandled(u, s, rel);
  }

  /** A worked node that is no candidate has no child left to visit. */
  lemma {:induction false} DownOne(u: Setup, s: State, c: Path, i: nat)
    requires Coherent(u, s) && Listed(u, s) && !UnderClosed(c, ClosedIn(u, s)) && PathLegal(u.g, u.start, u.scope + c)
    requires i + 1 < |c| && Worked(u, s, c[..i]) && u.base > 0 && c[..i] !in s.order
    ensures u.scope + c[..i + 1] in u.rows || Worked(u, s, c[..i + 1])
  {
    hide UnderClosed, AllHandled, Replay, PathLegal, ClosedIn, Worked, Handled, Coherent, Listed;
    UnderLonger(c, i, ClosedIn(u, s));
    NextLegal(u, c, i);
    NoChildLeft(u, s, c[..i]);
    HandledChild(u, s, c[..i], c[i]);
    assert c[..i] + [c[i]] == c[..i + 1];
    UnderLonger(c, i + 1, ClosedIn(u, s));
    HandledMeans(u, s, c[..i + 1]);
  }

  lemma {:induction false} NextLegal(u: Setup, c: Path, i: nat)
    requires PathLegal(u.g, u.start, u.scope + c) && i < |c|
    ensures c[i] in u.g.legal(Replay(u.g, u.start, u.scope + c[..i]))
  {
    var key := u.scope + c;
    assert key[|u.scope| + i] == c[i] && key[..|u.scope| + i] == u.scope + c[..i];
  }

  lemma {:induction false} HandledChild(u: Setup, s: State, rel: Path, m: Move)
    requires AllHandled(u, s, u.scope + rel) && m in u.g.legal(Replay(u.g, u.start, u.scope + rel))
    ensures Handled(u, s, u.scope + (rel + [m]))
  {
    assert u.scope + (rel + [m]) == u.scope + rel + [m];
  }

  /** An uncovered node is handled by its row or its record. */
  lemma {:induction false} HandledMeans(u: Setup, s: State, rel: Path)
    requires Coherent(u, s) && Listed(u, s) && !UnderClosed(rel, ClosedIn(u, s)) && Handled(u, s, u.scope + rel)
    ensures u.scope + rel in u.rows || Worked(u, s, rel)
  {
    ScopeRound(u.scope, [], rel);
    NotItself(rel, ClosedIn(u, s));
    hide UnderClosed, AllHandled;
  }

  lemma {:induction false} NotItself(key: Path, closed: set<Path>)
    requires !UnderClosed(key, closed)
    ensures key !in closed
  {
    assert key[..|key|] == key;
  }

  /** The parent of the first candidate is not searched again, once the candidate closes it. */
  lemma {:induction false} CloseFinds(u: Setup, s: State, c: Path)
    requires Grounded(u) && Coherent(u, s) && Listed(u, s) && !Orphan(u, s, c) && Chosen(u, s, c)
    requires PathLegal(u.g, u.start, u.scope + c) && c != [] && Up(c) !in s.complete && |u.scope + c| % 2 == 1
    ensures Unreachable(u, s, Up(c))
  {
    var q := Up(c);
    if q != [] && !Handled(u, s, u.scope + q) {
      ChosenFirst(u, s, c);
      hide PathLegal, AllHandled, UnderClosed, ClosedIn, RootDone, Chosen, Worked, Handled, Coherent, Listed, Grounded,
        Unreachable, IsFirst, BlockedAt;
      NoneAbove(u, s, c);
      if i :| 0 <= i <= |c| && Worked(u, s, c[..i]) {
        assert c[..|c|] == c;
        Uncovered(u, s, c);
        var k := Descend(u, s, c, i);
        RowBlocks(u, s, c, k);
      } else if u.scope + c[..1] in u.rows {
        RowBlocks(u, s, c, 1);
      } else {
        assert u.scope + q in s.entries || u.scope in s.entries;
        RecordBlocks(u, s, c);
      }
    }
  }

  /** Below a node without work only a first candidate is chosen. */
  lemma {:induction false} ChosenFirst(u: Setup, s: State, c: Path)
    requires Chosen(u, s, c) && Coherent(u, s) && c != [] && Up(c) != [] && !Handled(u, s, u.scope + Up(c))
    ensures IsFirst(s.order, c) && c in s.order && !Worked(u, s, c) && u.base > 0
  {
    hide UnderClosed, RootDone;
    if IsFirst(s.order, Up(c)) {
      assert u.scope + Up(c) in s.entries;
    }
  }

  /** A record of the parent, or of the scope root, is complete, so nothing comes down to the parent. */
  lemma {:induction false} RecordBlocks(u: Setup, s: State, c: Path)
    requires Coherent(u, s) && Listed(u, s) && IsFirst(s.order, c) && c != [] && Up(c) != [] && Up(c) !in s.complete
    requires u.scope + Up(c) in s.entries || u.scope in s.entries
    ensures Unreachable(u, s, Up(c))
  {
    Uncovered(u, s, c);
    NoneAbove(u, s, c);
    hide UnderClosed, ClosedIn, AllHandled, Handled;
    assert u.scope + [] == u.scope && c[..0] == [];
    assert BlockedAt(u, s, Up(c), 0);
  }

  /** Neither the first candidate nor anything above it is covered. */
  lemma {:induction false} Uncovered(u: Setup, s: State, c: Path)
    requires Coherent(u, s) && c in s.order && c != []
    ensures !UnderClosed(c, ClosedIn(u, s)) && !UnderClosed([], ClosedIn(u, s)) && !UnderClosed(Up(c), ClosedIn(u, s))
  {
    UnderLonger(c, 0, ClosedIn(u, s));
    UnderLonger(c, |c| - 1, ClosedIn(u, s));
  }

  lemma {:induction false} NoneAbove(u: Setup, s: State, c: Path)
    requires IsFirst(s.order, c) && c != []
    ensures forall j :: 0 <= j < |c| ==> c[..j] !in s.order
    ensures forall j :: 0 <= j < |c| - 1 ==> Up(c)[..j] == c[..j]
    ensures Up(c) == c[..|c| - 1]
  {
  }

  lemma {:induction false} RowBlocks(u: Setup, s: State, c: Path, k: nat)
    requires 0 < k < |c| && u.scope + c[..k] in u.rows && !Handled(u, s, u.scope + Up(c))
    requires forall j :: 0 <= j < |c| ==> c[..j] !in s.order
    ensures Unreachable(u, s, Up(c))
  {
    var q := Up(c);
    if k < |q| {
      assert forall j :: 0 <= j < |q| ==> q[..j] == c[..j];
      assert BlockedAt(u, s, q, k);
    }
  }

  // ----- without orphans nothing or-closed is searched -----

  /** What every state of such a session keeps. */
  ghost predicate Kept(u: Setup, s: State)
  {
    Coherent(u, s) && Listed(u, s) && NoOrphan(u, s) && ClosedForGood(u, s)
  }

  /** The parent of the visited node is all that a job can or-close. */
  lemma {:induction false} NewlyClosed(u: Setup, s: State, key: Path, rec: JobRecord, q: Path)
    requires InScope(u.scope, key) && q in Book(u, s, key, rec).orDyn && q !in s.orDyn
    ensures var rel := RelOf(u.scope, key);
            rel != [] && q == Up(rel) && q !in s.complete && |u.scope + rel| % 2 == 1
  {
    hide UnderClosed, Swept, Bumped;
    ScopeRound(u.scope, key, []);
    assert Closes(u.scope, key) && q == ParentRel(u.scope, key);
  }

  lemma {:induction false} SearchKept(u: Setup, s: State, key: Path, rec: JobRecord)
    requires Grounded(u) && Kept(u, s) && InScope(u.scope, key) && Chosen(u, s, RelOf(u.scope, key))
    requires u.base <= U64_MAX && PathLegal(u.g, u.start, key)
    ensures Kept(u, Book(u, s, key, rec))
  {
    var rel, t := RelOf(u.scope, key), Book(u, s, key, rec);
    BookBooked(u, s, key, rec);
    BookCoherent(u, s, key, rec);
    ScopeRound(u.scope, key, []);
    hide Book, Chosen, Booked, Placed, Coherent, Listed, Orphan, Unreachable, PathLegal, Grounded;
    SearchListed(u, s, t, key);
    forall c
      ensures !Orphan(u, t, c)
    {
      if Orphan(u, t, c) {
        OrphanBefore(u, s, t, key, c);
      }
    }
    forall q | q in t.orDyn
      ensures Unreachable(u, t, q)
    {
      if q !in s.orDyn {
        NewlyClosed(u, s, key, rec, q);
        CloseFinds(u, s, rel);
      }
      UnreachableStays(u, s, t, key, q);
    }
  }

  lemma {:induction false} RetireKept(u: Setup, s: State, rel: Path)
    requires Kept(u, s) && IsFirst(s.order, rel) && AllHandled(u, s, u.scope + rel)
    ensures Kept(u, Retired(s, rel))
  {
    var t := Retired(s, rel);
    assert ClosedIn(u, t) == ClosedIn(u, s);
    assert Grew(u, s, t);
    hide UnderClosed, ClosedIn;
    RetireListed(u, s, rel);
    forall c
      ensures !Orphan(u, t, c)
    {
      assert !Orphan(u, s, c);
    }
    hide Orphan, AllHandled;
    forall q | q in t.orDyn
      ensures Unreachable(u, t, q)
    {
      if q != [] && !Handled(u, s, u.scope + q) {
        var i: nat :| BlockedAt(u, s, q, i);
        assert BlockedAt(u, t, q, i);
      }
    }
  }

  lemma {:induction false} RetireListed(u: Setup, s: State, rel: Path)
    requires Listed(u, s) && AllHandled(u, s, u.scope + rel)
    ensures Listed(u, Retired(s, rel))
  {
    var t := Retired(s, rel);
    assert ClosedIn(u, t) == ClosedIn(u, s) && Grew(u, s, t);
    hide UnderClosed, ClosedIn, AllHandled;
    forall k: Path | AllHandled(u, s, u.scope + k)
      ensures AllHandled(u, t, u.scope + k)
    {
      AllHandledGrew(u, s, t, k);
    }
  }

  lemma {:induction false} StepKept(u: Setup, s: State, a: Act, oracle: (nat, Path) -> JobRecord)
    requires Grounded(u) && Kept(u, s) && Chooses(u, s, a) && u.base <= U64_MAX
    ensures Kept(u, Effect(u, s, a, oracle)) && !Revisit(u, s, a)
  {
    hide Kept, Chosen, Book, PathLegal, Grounded, RootDone, IsFirst, AllHandled, LeastUnhandled;
    if a.Search? {
      SearchChosen(u, s, a);
      SearchFirst(u, s, a);
      hide Chooses, Revisit;
      if PathLegal(u.g, u.start, a.key) {
        SearchKept(u, s, a.key, oracle(s.summary.jobs, a.key));
      }
    } else if a.Retire? {
      var rel := ChoiceCases(u, s, a);
      RetireKept(u, s, rel);
    }
  }

  /** A chosen node is not or-closed. */
  lemma {:induction false} SearchFirst(u: Setup, s: State, a: Act)
    requires Kept(u, s) && a.Search? && InScope(u.scope, a.key) && Chosen(u, s, RelOf(u.scope, a.key))
    ensures !Revisit(u, s, a)
  {
    var rel := RelOf(u.scope, a.key);
    hide UnderClosed, Orphan, Listed, PathLegal;
    if rel in s.order {
      NotItself(rel, ClosedIn(u, s));
    }
  }

  lemma {:induction false} RunKept(u: Setup, oracle: (nat, Path) -> JobRecord, trace: seq<State>, n: nat)
    requires Grounded(u) && IsRun(u, oracle, trace) && Kept(u, trace[0]) && u.base <= U64_MAX && n < |trace|
    ensures Kept(u, trace[n])
  {
    hide Kept, Chooses, Effect, Grounded;
    if n > 0 {
      RunKept(u, oracle, trace, n - 1);
      assert StepAt(u, oracle, trace[n - 1], trace[n]);
      var a :| Chooses(u, trace[n - 1], a) && trace[n] == Effect(u, trace[n - 1], a, oracle);
      StepKept(u, trace[n - 1], a, oracle);
    }
  }

  lemma {:induction false} StartKept(u: Setup, s: State)
    requires Starts(u, s) && NoOrphan(u, s)
    ensures Kept(u, s)
  {
    StartCoherent(u, s);
    RelativeIs(u.scope, s.entries.Keys);
    RelativeIs(u.scope, s.marks);
    hide UnderClosed, Orphan, AllHandled, Relative;
    forall k: Path | u.scope + k in s.entries
      ensures k in Relative(u.scope, s.entries.Keys)
    {
      ScopeRound(u.scope, u.scope + k, k);
    }
    forall k: Path | u.scope + k in s.marks
      ensures k in s.drawn
    {
      ScopeRound(u.scope, u.scope + k, k);
    }
  }

  /** Some session from `s` runs a job at a node that is or-closed. */
  ghost predicate Revisits(u: Setup, s: State)
  {
    exists oracle: (nat, Path) -> JobRecord, trace: seq<State>, a :: RevisitsBy(u, s, oracle, trace, a)
  }

  ghost predicate RevisitsBy(u: Setup, s: State, oracle: (nat, Path) -> JobRecord, trace: seq<State>, a: Act)
  {
    IsRun(u, oracle, trace) && trace[0] == s && Chooses(u, trace[|trace| - 1], a) && Revisit(u, trace[|trace| - 1], a)
  }

  /** Whatever the jobs answer, a session that starts without orphans never searches an or-closed node. */
  lemma {:induction false} NoOrphanNoRevisit(u: Setup, s: State)
    requires Starts(u, s) && NoOrphan(u, s) && u.base <= U64_MAX
    ensures !Revisits(u, s)
  {
    StartKept(u, s);
    hide Kept, Chooses, Effect, Grounded, Revisit, NoOrphan;
    forall oracle: (nat, Path) -> JobRecord, trace: seq<State>, a
      ensures !RevisitsBy(u, s, oracle, trace, a)
    {
      if IsRun(u, oracle, trace) && trace[0] == s && Chooses(u, trace[|trace| - 1], a) {
        RunKept(u, oracle, trace, |trace| - 1);
        StepKept(u, trace[|trace| - 1], a, oracle);
      }
    }
  }
}
