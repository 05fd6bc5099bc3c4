/** The campaign master: root moves, their replies as leaves, jobs on leaves, and the steps of its
    loop.  What a worker sends is arbitrary; only verified outcomes change a leaf. */
module Campaign {
  import opened Game
  import opened CampaignTrie

  datatype LeafStatus = Open | Won | Lost

  /** A job's id carries its worker, the session's seed and a running number. */
  datatype Job = Job(worker: nat, seed: nat, number: nat)

  datatype Leaf = Leaf(mv: Move, status: LeafStatus, depth: nat, pn: nat, dn: nat, work: nat, slices: nat,
                       lastWorker: Option<nat>, job: Option<Job>, rank: nat)

  datatype Child = Child(mv: Move, terminal: Option<Outcome>, hash: nat, replies: seq<Leaf>,
                         resolved: bool, refuted: bool, depth: nat, synthesized: bool, rank: nat)

  // ----- truth -----

  /** The side that moves at the root is to move at a leaf: `Won` and `Lost` are its verdicts. */
  ghost predicate LeafTrue(g: Rules, q: Position, s: LeafStatus)
  {
    && (s == Won ==> Holds(g, q, Win)) && (s == Lost ==> !Holds(g, q, Win))
    && (g.terminal(q).Some? ==> s != Open)
  }

  ghost predicate LeafOk(g: Rules, p: Position, l: Leaf)
  {
    l.mv in g.legal(p) && LeafTrue(g, g.play(p, l.mv), l.status)
  }

  /** The leaves are the replies of `p`, and what the table says of them is true. */
  ghost predicate RepliesOk(g: Rules, p: Position, replies: seq<Leaf>)
  {
    |replies| == |g.legal(p)|
    && forall i :: 0 <= i < |replies| ==> replies[i].mv == g.legal(p)[i] && LeafOk(g, p, replies[i])
  }

  /** A resolved child is lost for the opponent, a refuted one is not. */
  ghost predicate ChildOk(g: Rules, root: Position, c: Child)
  {
    var p := g.play(root, c.mv);
    && c.terminal == g.terminal(p) && c.hash == g.hash(p)
    && (c.terminal.Some? ==> c.replies == []) && (c.terminal.None? ==> RepliesOk(g, p, c.replies))
    && (c.resolved ==> Holds(g, p, Loss)) && (c.refuted ==> !Holds(g, p, Loss))
    && (c.synthesized ==> Holds(g, p, Loss))
  }

  /** A classification rests on the static outcome or on the leaves as they stand. */
  ghost predicate Classified(c: Child)
  {
    && (c.resolved ==> c.terminal == Some(Loss) || (c.terminal.None? && c.replies != [] && AllWon(c.replies)))
    && (c.refuted ==> (c.terminal.Some? && c.terminal != Some(Loss)) || (c.terminal.None? && AnyLost(c.replies)))
  }

  ghost predicate TableOk(g: Rules, root: Position, cs: seq<Child>)
  {
    |cs| == |g.legal(root)|
    && forall i :: 0 <= i < |cs| ==> cs[i].mv == g.legal(root)[i] && ChildOk(g, root, cs[i]) && Classified(cs[i])
  }

  // ----- locks -----

  predicate LocHas(cs: seq<Child>, ci: nat, li: nat) { ci < |cs| && li < |cs[ci].replies| }

  function JobAt(cs: seq<Child>, ci: nat, li: nat): Option<Job>
  {
    if LocHas(cs, ci, li) then cs[ci].replies[li].job else None
  }

  predicate SameWorker(a: Option<Job>, b: Option<Job>) { a.Some? && b.Some? && a.value.worker == b.value.worker }

  /** A worker holds at most one lock, and every lock's number was handed out. */
  ghost predicate LocksOk(cs: seq<Child>, dispatched: nat)
  {
    && (forall ci: nat, li: nat :: JobAt(cs, ci, li).Some? ==> JobAt(cs, ci, li).value.number < dispatched)
    && (forall ci: nat, li: nat, cj: nat, lj: nat ::
          SameWorker(JobAt(cs, ci, li), JobAt(cs, cj, lj)) ==> ci == cj && li == lj)
  }

  /** Only locks disappeared. */
  ghost predicate FewerLocks(a: seq<Child>, b: seq<Child>)
  {
    forall ci: nat, li: nat :: JobAt(b, ci, li).Some? ==> JobAt(b, ci, li) == JobAt(a, ci, li)
  }

  lemma {:induction false} FewerLocksOk(a: seq<Child>, b: seq<Child>, dispatched: nat)
    requires LocksOk(a, dispatched) && FewerLocks(a, b)
    ensures LocksOk(b, dispatched)
  {
  }

  // ----- statuses only move away from open -----

  ghost predicate Settled(a: Leaf, b: Leaf) { b.mv == a.mv && (a.status != Open ==> b.status == a.status) }

  ghost predicate Progress(a: seq<Child>, b: seq<Child>)
  {
    |a| == |b| && forall i :: 0 <= i < |a| ==> ChildProgress(a[i], b[i])
  }

  ghost predicate ChildProgress(a: Child, b: Child)
  {
    && b.mv == a.mv && |b.replies| == |a.replies| && (a.resolved ==> b.resolved) && (a.refuted ==> b.refuted)
    && forall j :: 0 <= j < |a.replies| ==> Settled(a.replies[j], b.replies[j])
  }

  lemma {:induction false} ProgressTrans(a: seq<Child>, b: seq<Child>, c: seq<Child>)
    requires Progress(a, b) && Progress(b, c)
    ensures Progress(a, c)
  {
    forall i | 0 <= i < |a|
      ensures ChildProgress(a[i], c[i])
    {
      assert ChildProgress(a[i], b[i]) && ChildProgress(b[i], c[i]);
      forall j | 0 <= j < |a[i].replies|
        ensures Settled(a[i].replies[j], c[i].replies[j])
      {
        assert Settled(a[i].replies[j], b[i].replies[j]) && Settled(b[i].replies[j], c[i].replies[j]);
      }
    }
  }

  // ----- refresh -----

  predicate AnyLost(replies: seq<Leaf>) { exists i :: 0 <= i < |replies| && replies[i].status == Lost }

  predicate AllWon(replies: seq<Leaf>) { forall i :: 0 <= i < |replies| ==> replies[i].status == Won }

  function MaxDepth(replies: seq<Leaf>, n: nat): nat
    requires n <= |replies|
  {
    if n == 0 then 0 else Max(MaxDepth(replies, n - 1), replies[n - 1].depth)
  }

  /** Classify a child from its static outcome and its leaves; a classification is never
      revised. */
  function Refresh(c: Child): (r: Child)
  {
    if c.resolved || c.refuted then c
    else if c.terminal == Some(Loss) then c.(resolved := true, depth := 0)
    else if c.terminal.Some? then c.(refuted := true)
    else if AnyLost(c.replies) then c.(refuted := true)
    else if c.replies != [] && AllWon(c.replies) then c.(resolved := true,
        depth := MaxDepth(c.replies, |c.replies|) + 1)
    else c
  }

  /** One reply that is not won refutes a loss; won replies throughout make one. */
  lemma {:induction false} RepliesDecide(g: Rules, p: Position, replies: seq<Leaf>)
    requires g.Sane() && g.terminal(p).None? && RepliesOk(g, p, replies)
    ensures AnyLost(replies) ==> !Holds(g, p, Loss)
    ensures AllWon(replies) ==> Holds(g, p, Loss)
  {
    HoldsIff(g, p);
    if AnyLost(replies) {
      var i :| 0 <= i < |replies| && replies[i].status == Lost;
      assert LeafOk(g, p, replies[i]);
    } else if AllWon(replies) {
      forall m | m in g.legal(p)
        ensures Holds(g, g.play(p, m), Win)
      {
        var i :| 0 <= i < |g.legal(p)| && g.legal(p)[i] == m;
        assert LeafOk(g, p, replies[i]);
      }
    }
  }

  /** Refreshing keeps a true child true. */
  lemma {:induction false} RefreshOk(g: Rules, root: Position, c: Child)
    requires g.Sane() && ChildOk(g, root, c) && Classified(c)
    ensures ChildOk(g, root, Refresh(c)) && Classified(Refresh(c)) && ChildProgress(c, Refresh(c))
            && Refresh(c).replies == c.replies
  {
    var p := g.play(root, c.mv);
    if c.terminal == Some(Loss) {
      assert Forced(g, p, Loss, 0);
    } else if c.terminal.Some? {
      assert forall n: nat :: !Forced(g, p, Loss, n);
    } else {
      RepliesDecide(g, p, c.replies);
    }
  }

  // ----- building the table -----

  /** A leaf's first status: a static win is won, any other static result is lost. */
  function StaticStatus(t: Option<Outcome>): LeafStatus
  {
    match t
    case Some(Win) => Won
    case Some(_) => Lost
    case None => Open
  }

  lemma {:induction false} StaticTrue(g: Rules, q: Position)
    ensures LeafTrue(g, q, StaticStatus(g.terminal(q)))
  {
    if g.terminal(q) == Some(Win) {
      assert Forced(g, q, Win, 0);
    } else if g.terminal(q).Some? {
      assert forall n: nat :: !Forced(g, q, Win, n);
    }
  }

  /** A leaf nobody has worked on: its status is static, it has no lock. */
  ghost predicate NewLeaf(g: Rules, p: Position, l: Leaf)
  {
    l.status == StaticStatus(g.terminal(g.play(p, l.mv))) && l.job.None?
  }

  ghost predicate NewReplies(g: Rules, p: Position, replies: seq<Leaf>)
  {
    forall j :: 0 <= j < |replies| ==> NewLeaf(g, p, replies[j])
  }

  method BuildReplies(g: Rules, p: Position) returns (replies: seq<Leaf>)
    requires g.Sane()
    ensures RepliesOk(g, p, replies)
            && forall i :: 0 <= i < |replies| ==> NewLeaf(g, p, replies[i]) && replies[i].rank == i
  {
    var legal := g.legal(p);
    replies := [];
    for rank := 0 to |legal|
      invariant |replies| == rank
      invariant forall i :: 0 <= i < rank ==> replies[i].mv == legal[i] && replies[i].rank == i
      invariant forall i :: 0 <= i < rank ==> LeafOk(g, p, replies[i]) && NewLeaf(g, p, replies[i])
    {
      var q := g.play(p, legal[rank]);
      StaticTrue(g, q);
      replies := replies + [Leaf(legal[rank], StaticStatus(g.terminal(q)), 0, 1, 1, 0, 0, None, None, rank)];
    }
  }

  ghost predicate NoLocks(cs: seq<Child>) { forall ci: nat, li: nat :: JobAt(cs, ci, li).None? }

  /** The initial obligation table of a root. */
  method BuildChildren(g: Rules, root: Position) returns (cs: seq<Child>)
    requires g.Sane()
    ensures TableOk(g, root, cs) && NoLocks(cs)
    ensures forall i :: 0 <= i < |cs| ==> NewReplies(g, g.play(root, cs[i].mv), cs[i].replies)
  {
    var legal := g.legal(root);
    cs := [];
    for rank := 0 to |legal|
      invariant |cs| == rank
      invariant forall i :: 0 <= i < rank ==> cs[i].mv == legal[i] && ChildOk(g, root, cs[i]) && Classified(cs[i])
      invariant forall i :: 0 <= i < rank ==> NewReplies(g, g.play(root, cs[i].mv), cs[i].replies)
    {
      var p := g.play(root, legal[rank]);
      var replies: seq<Leaf> := [];
      if g.terminal(p).None? {
        replies := BuildReplies(g, p);
      }
      var c := Child(legal[rank], g.terminal(p), g.hash(p), replies, false, false, 0, false, rank);
      RefreshOk(g, root, c);
      cs := cs + [Refresh(c)];
    }
    forall ci: nat, li: nat
      ensures JobAt(cs, ci, li).None?
    {
      if LocHas(cs, ci, li) {
        assert NewLeaf(g, g.play(root, cs[ci].mv), cs[ci].replies[li]);
      }
    }
  }

  // ----- selection -----

  /** OR-level proof number over the open leaves among the first `n`. */
  function OpenPn(replies: seq<Leaf>, n: nat): nat
    requires n <= |replies|
  {
    if n == 0 then 0 else OpenPn(replies, n - 1) + if replies[n - 1].status == Open then replies[n - 1].pn else 0
  }


  predicate Eligible(cs: seq<Child>, ci: nat, li: nat)
  {
    LocHas(cs, ci, li) && !cs[ci].resolved && !cs[ci].refuted && OpenPn(cs[ci].replies, |cs[ci].replies|) != U64_MAX
    && cs[ci].replies[li].status == Open && cs[ci].replies[li].job.None?
  }

  type Key = (nat, nat, nat, nat, nat, nat)

  function KeyOf(cs: seq<Child>, ci: nat, li: nat, worker: nat): Key
    requires LocHas(cs, ci, li)
  {
    var l := cs[ci].replies[li];
    (OpenPn(cs[ci].replies, |cs[ci].replies|), if l.lastWorker == Some(worker) then 0 else 1, l.dn, l.rank, ci, li)
  }

  predicate Less(a: Key, b: Key)
  {
    if a.0 != b.0 then a.0 < b.0
    else if a.1 != b.1 then a.1 < b.1
    else if a.2 != b.2 then a.2 < b.2
    else if a.3 != b.3 then a.3 < b.3
    else if a.4 != b.4 then a.4 < b.4
    else a.5 < b.5
  }

  ghost predicate Beats(cs: seq<Child>, best: Option<Key>, ci: nat, li: nat, worker: nat)
  {
    Eligible(cs, ci, li) ==> best.Some? && !Less(KeyOf(cs, ci, li, worker), best.value)
  }

  ghost predicate Found(cs: seq<Child>, best: Option<Key>, worker: nat)
  {
    best.Some? ==>
      Eligible(cs, best.value.4, best.value.5) && best.value == KeyOf(cs, best.value.4, best.value.5, worker)
  }

  lemma {:induction false} LessTrans(a: Key, b: Key, c: Key)
    requires !Less(a, b) && Less(c, b)
    ensures !Less(a, c)
  {
  }

  /** The leaf a worker gets: open, unlocked, under an undecided child, and least by proof
      number, affinity, disproof number and static order; none only if no leaf qualifies. */
  method SelectLeaf(cs: seq<Child>, worker: nat) returns (r: Option<(nat, nat)>)
    ensures r.Some? ==> Eligible(cs, r.value.0, r.value.1)
    ensures forall ci: nat, li: nat :: Eligible(cs, ci, li) ==>
              r.Some? && LocHas(cs, r.value.0, r.value.1)
              && !Less(KeyOf(cs, ci, li, worker), KeyOf(cs, r.value.0, r.value.1, worker))
  {
    var best: Option<Key> := None;
    for ci := 0 to |cs|
      invariant Found(cs, best, worker)
      invariant forall cj: nat, lj: nat :: cj < ci ==> Beats(cs, best, cj, lj, worker)
    {
      var cpn := OpenPn(cs[ci].replies, |cs[ci].replies|);
      if !cs[ci].resolved && !cs[ci].refuted && cpn != U64_MAX {
        for li := 0 to |cs[ci].replies|
          invariant Found(cs, best, worker)
          invariant forall cj: nat, lj: nat :: cj < ci || (cj == ci && lj < li) ==> Beats(cs, best, cj, lj, worker)
        {
          var leaf := cs[ci].replies[li];
          if leaf.status == Open && leaf.job.None? {
            var key := KeyOf(cs, ci, li, worker);
            if best.None? || Less(key, best.value) {
              BetterKey(cs, best, key, ci, li, worker);
              best := Some(key);
            }
          }
        }
      }
    }
    r := if best.Some? then Some((best.value.4, best.value.5)) else None;
    forall ci: nat, li: nat | Eligible(cs, ci, li)
      ensures r.Some? && LocHas(cs, r.value.0, r.value.1)
              && !Less(KeyOf(cs, ci, li, worker), KeyOf(cs, r.value.0, r.value.1, worker))
    {
      assert Beats(cs, best, ci, li, worker);
    }
  }

  lemma {:induction false} BetterKey(cs: seq<Child>, best: Option<Key>, key: Key, ci: nat, li: nat, worker: nat)
    requires best.Some? ==> Less(key, best.value)
    requires forall cj: nat, lj: nat :: cj < ci || (cj == ci && lj < li) ==> Beats(cs, best, cj, lj, worker)
    ensures forall cj: nat, lj: nat :: cj < ci || (cj == ci && lj < li) ==> Beats(cs, Some(key), cj, lj, worker)
  {
    hide KeyOf, Less;
    forall cj: nat, lj: nat | (cj < ci || (cj == ci && lj < li)) && Eligible(cs, cj, lj)
      ensures !Less(KeyOf(cs, cj, lj, worker), key)
    {
      assert Beats(cs, best, cj, lj, worker);
      LessTrans(KeyOf(cs, cj, lj, worker), best.value, key);
    }
  }

  // ----- locating a result -----

  method FindJobLoc(cs: seq<Child>, job: Job) returns (r: Option<(nat, nat)>)
    ensures r.Some? ==> JobAt(cs, r.value.0, r.value.1) == Some(job)
    ensures r.None? ==> forall ci: nat, li: nat :: JobAt(cs, ci, li) != Some(job)
  {
    for ci := 0 to |cs|
      invariant forall cj: nat, lj: nat :: cj < ci ==> JobAt(cs, cj, lj) != Some(job)
    {
      for li := 0 to |cs[ci].replies|
        invariant forall cj: nat, lj: nat :: cj < ci || (cj == ci && lj < li) ==> JobAt(cs, cj, lj) != Some(job)
      {
        if cs[ci].replies[li].job == Some(job) {
          return Some((ci, li));
        }
      }
    }
    r := None;
  }

  /** A straggler's leaf by its echoed two-move path. */
  method FindLocByPath(cs: seq<Child>, path: seq<Move>) returns (r: Option<(nat, nat)>)
    ensures r.Some? ==>
              LocHas(cs, r.value.0, r.value.1) && path == [cs[r.value.0].mv, cs[r.value.0].replies[r.value.1].mv]
    ensures r.None? && |path| == 2 ==>
              forall ci: nat :: ci < |cs| && cs[ci].mv == path[0] && (forall cj: nat :: cj < ci ==>
                cs[cj].mv != path[0]) ==>
                forall li: nat :: li < |cs[ci].replies| ==> cs[ci].replies[li].mv != path[1]
  {
    if |path| != 2 {
      return None;
    }
    var ci := 0;
    while ci < |cs| && cs[ci].mv != path[0]
      invariant ci <= |cs| && forall cj: nat :: cj < ci ==> cs[cj].mv != path[0]
    {
      ci := ci + 1;
    }
    if ci == |cs| {
      return None;
    }
    for li := 0 to |cs[ci].replies|
      invariant forall lj: nat :: lj < li ==> cs[ci].replies[lj].mv != path[1]
    {
      if cs[ci].replies[li].mv == path[1] {
        return Some((ci, li));
      }
    }
    r := None;
  }
}
