/** Whole campaigns: any number of sessions, each any sequence of master steps, with resumption
    from the dumped table in between. */
module CampaignRun {
  import opened Game
  import opened CampaignTrie
  import opened Campaign
  import opened CampaignMaster

  // ----- resuming -----

  method FindChild(dump: seq<Child>, mv: Move) returns (r: Option<nat>)
    ensures r.Some? ==> r.value < |dump| && dump[r.value].mv == mv
    ensures r.None? ==> forall i :: 0 <= i < |dump| ==> dump[i].mv != mv
  {
    for i := 0 to |dump|
      invariant forall j :: 0 <= j < i ==> dump[j].mv != mv
    {
      if dump[i].mv == mv {
        return Some(i);
      }
    }
    r := None;
  }

  method FindLeaf(dump: seq<Leaf>, mv: Move) returns (r: Option<nat>)
    ensures r.Some? ==> r.value < |dump| && dump[r.value].mv == mv
    ensures r.None? ==> forall i :: 0 <= i < |dump| ==> dump[i].mv != mv
  {
    for i := 0 to |dump|
      invariant forall j :: 0 <= j < i ==> dump[j].mv != mv
    {
      if dump[i].mv == mv {
        return Some(i);
      }
    }
    r := None;
  }

  /** Two lists of the same legal moves agree position by position. */
  lemma {:induction false} SamePlace(g: Rules, p: Position, i: nat, j: nat)
    requires g.Sane() && i < |g.legal(p)| && j < |g.legal(p)| && g.legal(p)[i] == g.legal(p)[j]
    ensures i == j
  {
  }

  /** The leaf fields a dump restores; locks are dropped. */
  function Overlaid(l: Leaf, d: Leaf): Leaf
  {
    l.(status := d.status, depth := d.depth, pn := d.pn, dn := d.dn, work := d.work, slices := d.slices,
       lastWorker := d.lastWorker, job := None)
  }

  method OverlayReplies(g: Rules, p: Position, replies: seq<Leaf>, dump: seq<Leaf>) returns (r: seq<Leaf>)
    requires g.Sane() && RepliesOk(g, p, replies) && RepliesOk(g, p, dump)
    ensures RepliesOk(g, p, r) && SameReplies(dump, r)
    ensures forall j :: 0 <= j < |r| ==> r[j].job.None?
  {
    r := [];
    for j := 0 to |replies|
      invariant |r| == j
      invariant forall k :: 0 <= k < j ==>
                  r[k].mv == g.legal(p)[k] && LeafOk(g, p, r[k]) && r[k].status == dump[k].status && r[k].job.None?
    {
      var at := FindLeaf(dump, replies[j].mv);
      assert dump[j].mv == replies[j].mv;
      SamePlace(g, p, at.value, j);
      assert LeafOk(g, p, dump[j]);
      r := r + [Overlaid(replies[j], dump[at.value])];
    }
  }

  /** What is settled statically in a new table is settled alike in any dump. */
  lemma {:induction false} StaticKept(g: Rules, p: Position, a: seq<Leaf>, d: seq<Leaf>)
    requires g.Sane() && RepliesOk(g, p, a) && NewReplies(g, p, a) && RepliesOk(g, p, d)
    ensures AllWon(a) ==> AllWon(d)
    ensures AnyLost(a) ==> AnyLost(d)
  {
    forall j | 0 <= j < |a| && a[j].status != Open
      ensures d[j].status == a[j].status
    {
      assert a[j].mv == g.legal(p)[j] == d[j].mv;
      assert LeafOk(g, p, a[j]) && LeafOk(g, p, d[j]) && NewLeaf(g, p, a[j]);
    }
    if AnyLost(a) {
      var k :| 0 <= k < |a| && a[k].status == Lost;
      assert d[k].status == Lost;
    }
  }

  lemma {:induction false} SameSummary(a: seq<Leaf>, b: seq<Leaf>)
    requires SameReplies(a, b)
    ensures AllWon(a) == AllWon(b) && AnyLost(a) == AnyLost(b)
  {
    if AnyLost(a) {
      var k :| 0 <= k < |a| && a[k].status == Lost;
      assert b[k].status == Lost;
    }
    if AnyLost(b) {
      var k :| 0 <= k < |b| && b[k].status == Lost;
      assert a[k].status == Lost;
    }
  }

  /** A resumed child: dumped leaves under the static facts, classified afresh. */
  ghost predicate Resumed(g: Rules, root: Position, d: Child, r: Child)
  {
    && r.mv == d.mv && ChildOk(g, root, r) && Classified(r) && SameReplies(d.replies, r.replies)
    && (d.resolved ==> r.resolved) && (d.refuted ==> r.refuted)
    && forall j :: 0 <= j < |r.replies| ==> r.replies[j].job.None?
  }

  /** Overlay one child; its classification is recomputed and cannot get weaker. */
  method OverlayChild(g: Rules, root: Position, c: Child, d: Child) returns (r: Child)
    requires g.Sane() && ChildOk(g, root, c) && Classified(c) && ChildOk(g, root, d) && Classified(d) && c.mv == d.mv
    requires NewReplies(g, g.play(root, c.mv), c.replies)
    ensures Resumed(g, root, d, r)
  {
    var replies := c.replies;
    var p := g.play(root, c.mv);
    if c.terminal.None? {
      replies := OverlayReplies(g, p, c.replies, d.replies);
      StaticKept(g, p, c.replies, d.replies);
      SameSummary(d.replies, replies);
    }
    var overlaid := c.(replies := replies, depth := d.depth, synthesized := d.synthesized);
    assert Classified(overlaid);
    assert ChildOk(g, root, overlaid);
    RefreshOk(g, root, overlaid);
    r := Refresh(overlaid);
    if c.terminal.None? {
      RepliesDecide(g, p, replies);
    }
  }

  /** Load a dump over a new table: verdicts and advice come back, locks do not, and stale
      classifications cannot survive. */
  method LoadState(g: Rules, root: Position, cs: seq<Child>, dump: seq<Child>) returns (r: seq<Child>)
    requires g.Sane() && TableOk(g, root, cs) && TableOk(g, root, dump)
    requires forall i :: 0 <= i < |cs| ==> NewReplies(g, g.play(root, cs[i].mv), cs[i].replies)
    ensures TableOk(g, root, r) && NoLocks(r)
    ensures |r| == |dump| && forall i :: 0 <= i < |dump| ==> Resumed(g, root, dump[i], r[i])
  {
    r := [];
    for i := 0 to |cs|
      invariant |r| == i && forall k :: 0 <= k < i ==> Resumed(g, root, dump[k], r[k])
    {
      var at := FindChild(dump, cs[i].mv);
      assert dump[i].mv == g.legal(root)[i] == cs[i].mv;
      assert at.value < |dump| && dump[at.value].mv == g.legal(root)[at.value];
      SamePlace(g, root, at.value, i);
      var c := OverlayChild(g, root, cs[i], dump[at.value]);
      r := r + [c];
    }
    forall ci: nat, li: nat
      ensures JobAt(r, ci, li).None?
    {
      if ci < |r| {
        assert Resumed(g, root, dump[ci], r[ci]);
      }
    }
    assert forall i :: 0 <= i < |r| ==> Resumed(g, root, dump[i], r[i]) && dump[i].mv == g.legal(root)[i];
  }

  lemma {:induction false} ResumedProgress(g: Rules, root: Position, dump: seq<Child>, r: seq<Child>)
    requires TableOk(g, root, dump) && |r| == |dump| && forall i :: 0 <= i < |dump| ==> Resumed(g, root, dump[i], r[i])
    ensures Progress(dump, r)
  {
    forall i | 0 <= i < |dump|
      ensures ChildProgress(dump[i], r[i])
    {
      assert Resumed(g, root, dump[i], r[i]) && SameReplies(dump[i].replies, r[i].replies);
      var p := g.play(root, dump[i].mv);
      assert ChildOk(g, root, dump[i]) && ChildOk(g, root, r[i]);
      forall j | 0 <= j < |dump[i].replies|
        ensures Settled(dump[i].replies[j], r[i].replies[j])
      {
        assert dump[i].replies[j].mv == g.legal(p)[j] == r[i].replies[j].mv;
      }
    }
  }

  // ----- whole campaigns -----

  /** Anything that can happen, in any order.  `Restart` resumes from any table that was ever
      dumped, however old, or from scratch when there is none of that number. */
  datatype Step =
    | Result(r: JobResult)
    | Stale(ci: nat, li: nat)
    | Sweep
    | Idle(worker: nat, written: bool)
    | Checkpoint
    | Restart(seed: nat, dump: nat)

  ghost predicate DumpsOk(g: Rules, root: Position, dumps: seq<seq<Child>>)
  {
    forall i :: 0 <= i < |dumps| ==> TableOk(g, root, dumps[i])
  }

  lemma {:induction false} NoDumps(g: Rules, root: Position)
    ensures DumpsOk(g, root, [])
  {
  }

  /** A new session over a dumped table: verdicts are the dump's or better. */
  method Resume(g: Rules, root: Position, seed: nat, dump: Option<seq<Child>>) returns (m: Master)
    requires g.Sane() && g.terminal(root).None? && (dump.Some? ==> TableOk(g, root, dump.value))
    ensures fresh(m) && m.Valid() && m.g == g && m.root == root
    ensures dump.Some? ==> Progress(dump.value, m.cs)
  {
    var table := BuildChildren(g, root);
    if dump.Some? {
      var loaded := LoadState(g, root, table, dump.value);
      ResumedProgress(g, root, dump.value, loaded);
      table := loaded;
    }
    m := new Master(g, root, seed, table);
    m.EmitSynthesized();
    if dump.Some? {
      ProgressTrans(dump.value, table, m.cs);
    }
  }

  method TakeStep(m: Master, s: Step, dumps: seq<seq<Child>>) returns (next: Master, stored: seq<seq<Child>>)
    requires m.Valid() && DumpsOk(m.g, m.root, dumps)
    modifies m
    ensures next == m || fresh(next)
    ensures next.Valid() && next.g == m.g && next.root == m.root && DumpsOk(m.g, m.root, stored)
    ensures stored == if s.Checkpoint? then dumps + [old(m.cs)] else dumps
    ensures !s.Restart? ==> Progress(old(m.cs), next.cs)
    ensures s.Restart? && s.dump < |dumps| ==> Progress(dumps[s.dump], next.cs)
  {
    next, stored := m, dumps;
    ProgressSelf(m.cs);
    match s {
      case Result(r) => ghost var at := m.MergeResult(r);
      case Stale(ci, li) =>
        if LocHas(m.cs, ci, li) {
          m.ReleaseStale(ci, li);
        }
      case Sweep => m.Abandon();
      case Idle(worker, written) => ghost var at := m.Dispatch(worker, written);
      case Checkpoint => stored := dumps + [m.cs];
      case Restart(seed, dump) => next := Resume(m.g, m.root, seed, if dump < |dumps| then Some(dumps[dump]) else None);
    }
  }

  /** The same leaf or child is never settled both ways. */
  ghost predicate NeverFlipped(a: seq<Child>, b: seq<Child>)
  {
    && |a| == |b|
    && (forall ci: nat, li: nat :: LocHas(a, ci, li) && LocHas(b, ci, li) ==>
          !(a[ci].replies[li].status == Won && b[ci].replies[li].status == Lost))
    && forall ci: nat :: ci < |a| ==> !(a[ci].resolved && b[ci].refuted)
  }

  /** True tables agree on everything they settle, whatever sessions they come from. */
  lemma {:induction false} TrueTablesAgree(g: Rules, root: Position, a: seq<Child>, b: seq<Child>)
    requires g.Sane() && TableOk(g, root, a) && TableOk(g, root, b)
    ensures NeverFlipped(a, b)
  {
    forall ci: nat, li: nat | LocHas(a, ci, li) && LocHas(b, ci, li)
      ensures !(a[ci].replies[li].status == Won && b[ci].replies[li].status == Lost)
    {
      ChildAt(g, root, a, ci);
      ChildAt(g, root, b, ci);
      var p := g.play(root, a[ci].mv);
      assert a[ci].mv == g.legal(root)[ci] == b[ci].mv;
      assert a[ci].replies[li].mv == g.legal(p)[li] == b[ci].replies[li].mv;
      assert LeafOk(g, p, a[ci].replies[li]) && LeafOk(g, p, b[ci].replies[li]);
    }
    forall ci: nat | ci < |a|
      ensures !(a[ci].resolved && b[ci].refuted)
    {
      ChildAt(g, root, a, ci);
      ChildAt(g, root, b, ci);
      assert a[ci].mv == g.legal(root)[ci] == b[ci].mv;
    }
  }

  /** All children refuted: the root is no win. */
  lemma {:induction false} AllRefuted(g: Rules, root: Position, cs: seq<Child>)
    requires g.Sane() && g.terminal(root).None? && TableOk(g, root, cs) && forall i :: 0 <= i < |cs| ==> cs[i].refuted
    ensures !Holds(g, root, Win)
  {
    HoldsIff(g, root);
    forall mv | mv in g.legal(root)
      ensures !Holds(g, g.play(root, mv), Loss)
    {
      var i :| 0 <= i < |g.legal(root)| && g.legal(root)[i] == mv;
      ChildAt(g, root, cs, i);
    }
  }

  lemma {:induction false} AllAgree(g: Rules, root: Position, tables: seq<seq<Child>>)
    requires g.Sane() && forall i :: 0 <= i < |tables| ==> TableOk(g, root, tables[i])
    ensures forall i, j :: 0 <= i < |tables| && 0 <= j < |tables| ==> NeverFlipped(tables[i], tables[j])
  {
    hide NeverFlipped, TableOk;
    forall i, j | 0 <= i < |tables| && 0 <= j < |tables|
      ensures NeverFlipped(tables[i], tables[j])
    {
      TrueTablesAgree(g, root, tables[i], tables[j]);
    }
  }

  datatype Verdict = RootWin | RefutedAll | Undecided

  /** Won by a resolved child, refuted by all of them, or neither. */
  method Judge(m: Master) returns (v: Verdict)
    requires m.Valid()
    ensures v == RootWin <==> m.rootOutcome.Some?
    ensures v == RefutedAll <==> m.rootOutcome.None? && forall i :: 0 <= i < |m.cs| ==> m.cs[i].refuted
    ensures v == RootWin ==> Holds(m.g, m.root, Win)
    ensures v == RefutedAll ==> !Holds(m.g, m.root, Win)
  {
    if m.rootOutcome.Some? {
      v := RootWin;
    } else if forall i :: 0 <= i < |m.cs| ==> m.cs[i].refuted {
      AllRefuted(m.g, m.root, m.cs);
      v := RefutedAll;
    } else {
      v := Undecided;
    }
  }

  /** A campaign over several sessions.  Whatever workers report and however results, worker
      deaths, sweeps, dispatches, checkpoints and restarts from old dumps interleave: every
      verdict in the table is true at every moment, verdicts only settle within a session and
      never flip across sessions, no worker ever holds two locks, only true facts reach the
      proof tree, and the root is called won or refuted only when it is. */
  method RunCampaign(g: Rules, root: Position, seed: nat, schedule: seq<Step>)
    returns (m: Master, v: Verdict, ghost tables: seq<seq<Child>>)
    requires g.Sane() && g.terminal(root).None?
    ensures m.Valid() && m.g == g && m.root == root
    ensures |tables| == |schedule| + 1 && tables[|schedule|] == m.cs
    ensures forall i :: 0 <= i < |tables| ==> TableOk(g, root, tables[i])
    ensures forall i :: 0 <= i < |schedule| && !schedule[i].Restart? ==> Progress(tables[i], tables[i + 1])
    ensures forall i, j :: 0 <= i < |tables| && 0 <= j < |tables| ==> NeverFlipped(tables[i], tables[j])
    ensures v == RootWin ==> Holds(g, root, Win)
    ensures v == RefutedAll ==> !Holds(g, root, Win)
  {
    var table := BuildChildren(g, root);
    m := new Master(g, root, seed, table);
    m.EmitSynthesized();
    tables := [m.cs];
    var dumps: seq<seq<Child>> := [];
    hide TableOk, Progress, LocksOk, FactsTrue, Holds, NeverFlipped, DumpsOk;
    NoDumps(g, root);
    for n := 0 to |schedule|
      invariant fresh(m) && m.Valid() && m.g == g && m.root == root
      invariant |tables| == n + 1 && tables[n] == m.cs
      invariant forall i :: 0 <= i < |tables| ==> TableOk(g, root, tables[i])
      invariant forall i :: 0 <= i < n && !schedule[i].Restart? ==> Progress(tables[i], tables[i + 1])
      invariant DumpsOk(g, root, dumps)
    {
      m, dumps := TakeStep(m, schedule[n], dumps);
      tables := tables + [m.cs];
    }
    AllAgree(g, root, tables);
    v := Judge(m);
  }
}
