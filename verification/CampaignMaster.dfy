/** The master at work: every step of its loop, in any order, over several sessions. */
module CampaignMaster {
  import opened Game
  import opened CampaignTrie
  import opened Campaign

  datatype Claim = Decisive | Drawn | Unknown

  /** A result file: its name, the job it says it answers, and whatever else it says. */
  datatype JobResult = JobResult(name: nat, job: Job, path: seq<Move>, failed: bool, claim: Claim,
                                 events: seq<EventRec>, pn: nat, dn: nat, evals: nat)

  function SetLeaf(cs: seq<Child>, ci: nat, li: nat, l: Leaf): (r: seq<Child>)
    requires LocHas(cs, ci, li)
    ensures |r| == |cs| && LocHas(r, ci, li)
  {
    cs[ci := cs[ci].(replies := cs[ci].replies[li := l])]
  }

  function SetChild(cs: seq<Child>, ci: nat, c: Child): (r: seq<Child>)
    requires ci < |cs|
    ensures |r| == |cs|
  {
    cs[ci := c]
  }

  lemma {:induction false} SetLeafJobs(cs: seq<Child>, ci: nat, li: nat, l: Leaf)
    requires LocHas(cs, ci, li)
    ensures forall cj: nat, lj: nat :: JobAt(SetLeaf(cs, ci, li, l), cj, lj) == if cj == ci && lj ==
              li then l.job else JobAt(cs, cj, lj)
  {
  }

  lemma {:induction false} ChildAt(g: Rules, root: Position, cs: seq<Child>, ci: nat)
    requires TableOk(g, root, cs) && ci < |cs|
    ensures cs[ci].mv in g.legal(root) && ChildOk(g, root, cs[ci]) && Classified(cs[ci])
  {
    assert cs[ci].mv == g.legal(root)[ci];
  }

  lemma {:induction false} LeafAt(g: Rules, root: Position, cs: seq<Child>, ci: nat, li: nat)
    requires TableOk(g, root, cs) && LocHas(cs, ci, li)
    ensures LeafOk(g, g.play(root, cs[ci].mv), cs[ci].replies[li])
  {
    ChildAt(g, root, cs, ci);
  }

  /** Updating one leaf truthfully, without flipping it, keeps the table. */
  lemma {:induction false} SetLeafOk(g: Rules, root: Position, cs: seq<Child>, ci: nat, li: nat, l: Leaf)
    requires TableOk(g, root, cs) && LocHas(cs, ci, li) && Settled(cs[ci].replies[li], l)
    requires LeafOk(g, g.play(root, cs[ci].mv), l)
    ensures TableOk(g, root, SetLeaf(cs, ci, li, l)) && Progress(cs, SetLeaf(cs, ci, li, l))
  {
    var r := SetLeaf(cs, ci, li, l);
    ChildAt(g, root, cs, ci);
    var was, now := cs[ci].replies, r[ci].replies;
    assert forall j :: 0 <= j < |was| ==> Settled(was[j], now[j]);
    if AnyLost(was) {
      var k :| 0 <= k < |was| && was[k].status == Lost;
      assert now[k].status == Lost;
    }
    forall i | 0 <= i < |cs|
      ensures r[i].mv == g.legal(root)[i] && ChildOk(g, root, r[i]) && Classified(r[i]) && ChildProgress(cs[i], r[i])
    {
      ChildAt(g, root, cs, i);
      assert cs[i].mv == g.legal(root)[i];
      if i == ci {
        assert RepliesOk(g, g.play(root, cs[ci].mv), was);
      }
    }
  }

  lemma {:induction false} SetChildOk(g: Rules, root: Position, cs: seq<Child>, ci: nat, c: Child)
    requires TableOk(g, root, cs) && ci < |cs| && ChildOk(g, root, c) && Classified(c) && ChildProgress(cs[ci], c)
    ensures TableOk(g, root, SetChild(cs, ci, c)) && Progress(cs, SetChild(cs, ci, c))
  {
    var r := SetChild(cs, ci, c);
    forall i | 0 <= i < |cs|
      ensures r[i].mv == g.legal(root)[i] && ChildOk(g, root, r[i]) && Classified(r[i]) && ChildProgress(cs[i], r[i])
    {
      assert cs[i].mv == g.legal(root)[i];
      assert forall j :: 0 <= j < |cs[i].replies| ==> Settled(cs[i].replies[j], cs[i].replies[j]);
    }
  }

  lemma {:induction false} LeafPosition(g: Rules, root: Position, a: Move, b: Move)
    ensures Game.Replay(g, root, [a]) == g.play(root, a)
    ensures Game.Replay(g, root, [a, b]) == g.play(g.play(root, a), b)
  {
    assert [a][..0] == [] && [a, b][..1] == [a];
  }

  /** A verified outcome cannot contradict what a leaf already says. */
  lemma {:induction false} VerifiedSettles(g: Rules, q: Position, s: LeafStatus, o: Outcome)
    requires LeafTrue(g, q, s) && Means(g, q, o)
    ensures var t := if o == Win then Won else Lost;
            LeafTrue(g, q, t) && (s != Open ==> t == s)
  {
    if o == Loss {
      if Holds(g, q, Win) {
        HoldsUnique(g, q, Win, Loss);
      }
    } else if o == Draw {
      assert forall n: nat :: !Forced(g, q, Win, n);
    }
  }

  ghost predicate Locked(cs: seq<Child>, j: Job) { exists ci: nat, li: nat :: JobAt(cs, ci, li) == Some(j) }

  /** Sweep the locks of settled leaves and decided children. */
  predicate Dead(c: Child, l: Leaf) { c.resolved || c.refuted || l.status != Open }

  function LiveJob(c: Child, l: Leaf): Option<Job> { if Dead(c, l) then None else l.job }

  method AbandonInFlight(cs: seq<Child>) returns (r: seq<Child>, cancelled: seq<Job>)
    ensures |r| == |cs|
    ensures forall i :: 0 <= i < |cs| ==> r[i] == cs[i].(replies := r[i].replies) && |r[i].replies| == |cs[i].replies|
    ensures forall i, j :: 0 <= i < |cs| && 0 <= j < |cs[i].replies| ==>
              r[i].replies[j] == cs[i].replies[j].(job := LiveJob(cs[i], cs[i].replies[j]))
    ensures forall k :: 0 <= k < |cancelled| ==> Locked(cs, cancelled[k])
  {
    r, cancelled := [], [];
    for i := 0 to |cs|
      invariant |r| == i
      invariant forall k :: 0 <= k < i ==> r[k] == cs[k].(replies := r[k].replies) && |r[k].replies| == |cs[k].replies|
      invariant forall k, j :: 0 <= k < i && 0 <= j < |cs[k].replies| ==>
                  r[k].replies[j] == cs[k].replies[j].(job := LiveJob(cs[k], cs[k].replies[j]))
      invariant forall k :: 0 <= k < |cancelled| ==> Locked(cs, cancelled[k])
    {
      var replies := cs[i].replies;
      for j := 0 to |replies|
        invariant |replies| == |cs[i].replies|
        invariant forall k :: 0 <= k < j ==> replies[k] == cs[i].replies[k].(job := LiveJob(cs[i], cs[i].replies[k]))
        invariant forall k :: j <= k < |replies| ==> replies[k] == cs[i].replies[k]
        invariant forall k :: 0 <= k < |cancelled| ==> Locked(cs, cancelled[k])
      {
        if replies[j].job.Some? && Dead(cs[i], replies[j]) {
          assert JobAt(cs, i, j) == Some(replies[j].job.value);
          cancelled := cancelled + [replies[j].job.value];
          replies := replies[j := replies[j].(job := None)];
        }
      }
      r := r + [cs[i].(replies := replies)];
    }
  }

  ghost predicate LockDropped(a: Leaf, b: Leaf) { b == a.(job := b.job) && (b.job.None? || b.job == a.job) }

  /** Dropping locks changes nothing else. */
  ghost predicate LocksDropped(a: seq<Child>, b: seq<Child>)
  {
    && |b| == |a|
    && (forall i :: 0 <= i < |a| ==> b[i] == a[i].(replies := b[i].replies) && |b[i].replies| == |a[i].replies|)
    && (forall i, j :: 0 <= i < |a| && 0 <= j < |a[i].replies| ==>
          LockDropped(a[i].replies[j], b[i].replies[j]))
  }

  lemma {:induction false} DroppedOk(g: Rules, root: Position, a: seq<Child>, b: seq<Child>)
    requires TableOk(g, root, a) && LocksDropped(a, b)
    ensures TableOk(g, root, b) && Progress(a, b) && FewerLocks(a, b)
  {
    forall i | 0 <= i < |a|
      ensures b[i].mv == g.legal(root)[i] && ChildOk(g, root, b[i]) && Classified(b[i]) && ChildProgress(a[i], b[i])
    {
      ChildAt(g, root, a, i);
      assert a[i].mv == g.legal(root)[i];
      assert forall j :: 0 <= j < |a[i].replies| ==> b[i].replies[j] == a[i].replies[j].(job := b[i].replies[j].job);
      if AnyLost(a[i].replies) {
        var k :| 0 <= k < |a[i].replies| && a[i].replies[k].status == Lost;
        assert b[i].replies[k].status == Lost;
      }
      if a[i].terminal.None? {
        assert RepliesOk(g, g.play(root, a[i].mv), a[i].replies);
        DroppedReplies(g, g.play(root, a[i].mv), a[i].replies, b[i].replies);
      }
    }
  }

  lemma {:induction false} DroppedReplies(g: Rules, p: Position, a: seq<Leaf>, b: seq<Leaf>)
    requires RepliesOk(g, p, a) && |b| == |a|
             && forall j :: 0 <= j < |a| ==> b[j].mv == a[j].mv && b[j].status == a[j].status
    ensures RepliesOk(g, p, b)
  {
    forall j | 0 <= j < |b|
      ensures b[j].mv == g.legal(p)[j] && LeafOk(g, p, b[j])
    {
      assert LeafOk(g, p, a[j]);
    }
  }

  /** What a step of the master does to the table: verdicts only settle, locks only go. */
  ghost predicate Stepped(a: seq<Child>, b: seq<Child>)
  {
    Progress(a, b) && FewerLocks(a, b)
  }

  /** No leaf's verdict changed. */
  ghost predicate SameVerdicts(a: seq<Child>, b: seq<Child>)
  {
    |a| == |b| && forall i :: 0 <= i < |a| ==> SameReplies(a[i].replies, b[i].replies)
  }

  ghost predicate SameReplies(a: seq<Leaf>, b: seq<Leaf>)
  {
    |a| == |b| && forall j :: 0 <= j < |a| ==> b[j].status == a[j].status
  }

  /** No other leaf's verdict changed. */
  ghost predicate VerdictsBut(a: seq<Child>, b: seq<Child>, ci: nat, li: nat)
  {
    |a| == |b| && forall i :: 0 <= i < |a| ==>
      RepliesBut(a[i].replies, b[i].replies, if i == ci then Some(li) else None)
  }

  ghost predicate RepliesBut(a: seq<Leaf>, b: seq<Leaf>, li: Option<nat>)
  {
    |a| == |b| && forall j :: 0 <= j < |a| && li != Some(j) ==> b[j].status == a[j].status
  }

  function VerdictOf(o: Outcome): LeafStatus { if o == Win then Won else Lost }

  lemma {:induction false} VerdictsFrame(a: seq<Child>, b: seq<Child>, c: seq<Child>, ci: nat, li: nat)
    requires LocHas(a, ci, li)
    requires (SameVerdicts(a, b) && VerdictsBut(b, c, ci, li)) || (VerdictsBut(a, b, ci, li) && SameVerdicts(b, c))
    ensures VerdictsBut(a, c, ci, li) && LocHas(b, ci, li) && LocHas(c, ci, li)
    ensures SameVerdicts(a, b) ==> b[ci].replies[li].status == a[ci].replies[li].status
    ensures SameVerdicts(b, c) ==> c[ci].replies[li].status == b[ci].replies[li].status
  {
    forall i | 0 <= i < |a|
      ensures RepliesBut(a[i].replies, c[i].replies, if i == ci then Some(li) else None)
    {
      if SameVerdicts(a, b) {
        assert SameReplies(a[i].replies, b[i].replies);
      } else {
        assert SameReplies(b[i].replies, c[i].replies);
      }
    }
    assert SameVerdicts(a, b) ==> SameReplies(a[ci].replies, b[ci].replies);
    assert SameVerdicts(b, c) ==> SameReplies(b[ci].replies, c[ci].replies);
  }

  /** The two moves that lead to a leaf. */
  function JobPath(cs: seq<Child>, ci: nat, li: nat): seq<Move>
    requires LocHas(cs, ci, li)
  {
    [cs[ci].mv, cs[ci].replies[li].mv]
  }

  lemma {:induction false} SamePath(a: seq<Child>, b: seq<Child>, ci: nat, li: nat)
    requires Progress(a, b) && LocHas(a, ci, li)
    ensures LocHas(b, ci, li) && JobPath(b, ci, li) == JobPath(a, ci, li)
  {
    assert ChildProgress(a[ci], b[ci]);
    assert Settled(a[ci].replies[li], b[ci].replies[li]);
  }

  /** A result speaks and its claim survives the check. */
  ghost predicate Convinces(g: Rules, root: Position, cs: seq<Child>, ci: nat, li: nat, r: JobResult)
    requires LocHas(cs, ci, li)
  {
    !r.failed && r.claim == Decisive && Accepts(g, root, JobPath(cs, ci, li), r.events)
  }

  /** A result speaks and its claim does not survive. */
  ghost predicate Refuses(g: Rules, root: Position, cs: seq<Child>, ci: nat, li: nat, r: JobResult)
    requires LocHas(cs, ci, li)
  {
    !r.failed && r.claim == Decisive && !Accepts(g, root, JobPath(cs, ci, li), r.events)
  }

  /** A verified claim settles its leaf as the trie says; nothing else changes a verdict. */
  ghost predicate Judged(g: Rules, root: Position, a: seq<Child>, b: seq<Child>, ci: nat, li: nat, r: JobResult)
    requires LocHas(a, ci, li)
  {
    && VerdictsBut(a, b, ci, li) && LocHas(b, ci, li)
    && (if Convinces(g, root, a, ci, li, r)
        then AcceptedOutcome(r.events).Some? && b[ci].replies[li].status == VerdictOf(AcceptedOutcome(r.events).value)
        else b[ci].replies[li].status == a[ci].replies[li].status)
  }

  lemma {:induction false} SteppedTrans(a: seq<Child>, b: seq<Child>, c: seq<Child>)
    requires Stepped(a, b) && Stepped(b, c)
    ensures Stepped(a, c)
    ensures SameVerdicts(a, b) && SameVerdicts(b, c) ==> SameVerdicts(a, c)
  {
    ProgressTrans(a, b, c);
    if SameVerdicts(a, b) && SameVerdicts(b, c) {
      forall i | 0 <= i < |a|
        ensures SameReplies(a[i].replies, c[i].replies)
      {
        assert SameReplies(a[i].replies, b[i].replies) && SameReplies(b[i].replies, c[i].replies);
      }
    }
  }

  lemma {:induction false} SteppedSelf(cs: seq<Child>)
    ensures Stepped(cs, cs) && SameVerdicts(cs, cs)
  {
    ProgressSelf(cs);
  }

  lemma {:induction false} SteppedParts(a: seq<Child>, b: seq<Child>, ci: nat, li: nat)
    requires Stepped(a, b) && LocHas(a, ci, li)
    ensures LocHas(b, ci, li) && JobPath(b, ci, li) == JobPath(a, ci, li)
    ensures JobAt(a, ci, li).None? ==> JobAt(b, ci, li).None?
  {
    SamePath(a, b, ci, li);
  }

  /** A result that does not convince leaves every verdict. */
  lemma {:induction false} QuietJudged(g: Rules, root: Position, a: seq<Child>, b: seq<Child>, ci: nat, li: nat,
          r: JobResult)
    requires LocHas(a, ci, li) && SameVerdicts(a, b) && !Convinces(g, root, a, ci, li, r)
    ensures Judged(g, root, a, b, ci, li, r)
  {
    hide Convinces;
    assert SameReplies(a[ci].replies, b[ci].replies);
    forall i | 0 <= i < |a|
      ensures RepliesBut(a[i].replies, b[i].replies, if i == ci then Some(li) else None)
    {
      assert SameReplies(a[i].replies, b[i].replies);
    }
  }

  /** Unlock, settle, synthesise: the verdicts are those of the middle step. */
  lemma {:induction false} SettledJudged(g: Rules, root: Position, a: seq<Child>, unlocked: seq<Child>,
          settled: seq<Child>, b: seq<Child>, ci: nat, li: nat, r: JobResult)
    requires LocHas(a, ci, li) && SameVerdicts(a, unlocked) && VerdictsBut(unlocked, settled, ci, li)
    requires SameVerdicts(settled, b) && LocHas(settled, ci, li) && Convinces(g, root, a, ci, li, r)
    requires AcceptedOutcome(r.events).Some?
    requires settled[ci].replies[li].status == VerdictOf(AcceptedOutcome(r.events).value)
    ensures Judged(g, root, a, b, ci, li, r)
  {
    hide SameVerdicts, VerdictsBut, Convinces;
    VerdictsFrame(a, unlocked, settled, ci, li);
    VerdictsFrame(a, settled, b, ci, li);
  }

  class Master {
    const g: Rules
    const root: Position
    const seed: nat
    var cs: seq<Child>
    var dispatched: nat
    var cancelled: set<Job>
    var processed: set<nat>
    var rootOutcome: Option<Outcome>
    var aborted: bool
    var facts: seq<Fact>

    /** Nothing the master believes is false, and no worker has two locks. */
    ghost predicate Valid()
      reads this
    {
      && g.Sane() && g.terminal(root).None?
      && TableOk(g, root, cs) && LocksOk(cs, dispatched) && FactsTrue(g, root, facts)
      && (rootOutcome.Some? ==> rootOutcome == Some(Win) && Holds(g, root, Win))
    }

    constructor (g: Rules, root: Position, seed: nat, cs: seq<Child>)
      requires g.Sane() && g.terminal(root).None? && TableOk(g, root, cs) && NoLocks(cs)
      ensures Valid() && this.g == g && this.root == root && this.cs == cs && facts == [] && rootOutcome.None?
    {
      this.g, this.root, this.seed, this.cs := g, root, seed, cs;
      dispatched, cancelled, processed, rootOutcome, aborted, facts := 0, {}, {}, None, false, [];
    }

    /** Emit the Loss facts that are known at session start. */
    method EmitSynthesized()
      requires Valid()
      modifies this`cs, this`facts
      ensures Valid() && Stepped(old(cs), cs) && SameVerdicts(old(cs), cs) && dispatched == old(dispatched)
    {
      SteppedSelf(cs);
      hide Stepped, SameVerdicts, LocksOk, FactsTrue;
      for ci := 0 to |cs|
        invariant Valid() && |cs| == |old(cs)| && Stepped(old(cs), cs) && SameVerdicts(old(cs), cs)
      {
        ghost var was := cs;
        SteppedSelf(cs);
        if cs[ci].terminal == Some(Loss) {
          ChildAt(g, root, cs, ci);
          assert Forced(g, g.play(root, cs[ci].mv), Loss, 0);
          MarkSynthesized(ci);
        }
        if cs[ci].synthesized {
          EmitLoss(ci);
        }
        SteppedTrans(old(cs), was, cs);
      }
    }

    method MarkSynthesized(ci: nat)
      requires Valid() && ci < |cs| && Holds(g, g.play(root, cs[ci].mv), Loss)
      modifies this`cs
      ensures Valid() && cs == SetChild(old(cs), ci, old(cs)[ci].(synthesized := true))
      ensures Stepped(old(cs), cs) && SameVerdicts(old(cs), cs)
    {
      var c := cs[ci].(synthesized := true);
      ChildAt(g, root, cs, ci);
      assert forall j :: 0 <= j < |c.replies| ==> Settled(c.replies[j], c.replies[j]);
      SetChildOk(g, root, cs, ci, c);
      cs := SetChild(cs, ci, c);
      assert FewerLocks(old(cs), cs);
      FewerLocksOk(old(cs), cs, dispatched);
    }

    method EmitLoss(ci: nat)
      requires Valid() && ci < |cs| && Holds(g, g.play(root, cs[ci].mv), Loss)
      modifies this`facts
      ensures Valid() && facts == old(facts) + [Fact([cs[ci].mv], cs[ci].hash, Loss, cs[ci].depth)]
    {
      ChildAt(g, root, cs, ci);
      LeafPosition(g, root, cs[ci].mv, NO_MOVE);
      facts := facts + [Fact([cs[ci].mv], cs[ci].hash, Loss, cs[ci].depth)];
    }

    method WriteLeaf(ci: nat, li: nat, l: Leaf)
      requires Valid() && LocHas(cs, ci, li) && Settled(cs[ci].replies[li], l) && LeafOk(g, g.play(root, cs[ci].mv), l)
      requires l.job.None? || l.job == cs[ci].replies[li].job
      modifies this`cs
      ensures Valid() && cs == SetLeaf(old(cs), ci, li, l) && Progress(old(cs), cs) && FewerLocks(old(cs), cs)
    {
      SetLeafOk(g, root, cs, ci, li, l);
      SetLeafJobs(cs, ci, li, l);
      cs := SetLeaf(cs, ci, li, l);
      FewerLocksOk(old(cs), cs, dispatched);
    }

    /** Drain one result: each file once, results of cancelled jobs not at all.  The leaf is the one locked
        for the job, or the one at the echoed path.  It is unlocked; a claim that is verified settles it, no
        other verdict changes, and a claim that is not verified aborts the campaign. */
    method MergeResult(r: JobResult) returns (ghost at: Option<(nat, nat)>)
      requires Valid()
      modifies this
      ensures Valid() && Stepped(old(cs), cs) && dispatched == old(dispatched)
      ensures r.name in old(processed) || r.job in old(cancelled) ==> at.None?
      ensures at.None? ==> cs == old(cs) && facts == old(facts) && aborted == old(aborted)
      ensures r.name !in old(processed) && r.job !in old(cancelled) && Locked(old(cs), r.job) ==>
                at.Some? && JobAt(old(cs), at.value.0, at.value.1) == Some(r.job)
      ensures at.Some? ==>
                LocHas(old(cs), at.value.0, at.value.1)
                && (JobAt(old(cs), at.value.0, at.value.1) == Some(r.job)
                    || JobPath(old(cs), at.value.0, at.value.1) == r.path)
                && JobAt(cs, at.value.0, at.value.1).None?
                && Judged(g, root, old(cs), cs, at.value.0, at.value.1, r)
                && (aborted == (old(aborted) || Refuses(g, root, old(cs), at.value.0, at.value.1, r)))
      ensures old(rootOutcome).Some? ==> rootOutcome == old(rootOutcome)
    {
      SteppedSelf(cs);
      hide Stepped, SameVerdicts, TableOk, LocksOk, Holds, Judged, Convinces;
      at := None;
      if r.name in processed {
        return;
      }
      processed := processed + {r.name};
      if r.job in cancelled {
        return;
      }
      var loc := FindJobLoc(cs, r.job);
      var fromLock := loc.Some?;
      if loc.None? {
        loc := FindLocByPath(cs, r.path);
      }
      if loc.None? {
        return;
      }
      var (ci, li) := loc.value;
      at := loc;
      MergeAt(ci, li, fromLock, r);
    }

    /** Unlock the leaf of a result and let the result speak. */
    method MergeAt(ci: nat, li: nat, fromLock: bool, r: JobResult)
      requires Valid() && LocHas(cs, ci, li)
      modifies this`cs, this`facts, this`rootOutcome, this`aborted
      ensures Valid() && Stepped(old(cs), cs) && JobAt(cs, ci, li).None?
      ensures Judged(g, root, old(cs), cs, ci, li, r)
      ensures aborted == (old(aborted) || Refuses(g, root, old(cs), ci, li, r))
      ensures old(rootOutcome).Some? ==> rootOutcome == old(rootOutcome)
    {
      UnlockLeaf(ci, li, if fromLock && !r.failed then r.evals else 0);
      ghost var was, unlocked := old(cs), cs;
      SteppedParts(was, cs, ci, li);
      SteppedSelf(cs);
      hide Stepped, SameVerdicts, TableOk, LocksOk, Holds, FactsTrue, VerdictsBut, Accepts, JobPath, Judged;
      if r.failed {
        QuietJudged(g, root, was, cs, ci, li, r);
        return;
      }
      match r.claim {
        case Decisive =>
          var merged := MergeDecisive(ci, li, r.events);
          if !merged {
            QuietJudged(g, root, was, cs, ci, li, r);
            return;
          }
        case Drawn => AdviseLeaf(ci, li, r.pn, r.dn);
        case Unknown =>
      }
      SteppedTrans(was, unlocked, cs);
      ghost var settled := cs;
      Synthesize(ci);
      SteppedTrans(unlocked, settled, cs);
      SteppedTrans(was, unlocked, cs);
      SteppedParts(unlocked, cs, ci, li);
      if r.claim == Decisive {
        SettledJudged(g, root, was, unlocked, settled, cs, ci, li, r);
      } else {
        QuietJudged(g, root, was, cs, ci, li, r);
      }
    }

    /** Release the lock of a leaf and account the work. */
    method UnlockLeaf(ci: nat, li: nat, evals: nat)
      requires Valid() && LocHas(cs, ci, li)
      modifies this`cs
      ensures Valid() && Stepped(old(cs), cs) && SameVerdicts(old(cs), cs) && LocHas(cs, ci, li)
      ensures JobAt(cs, ci, li).None?
    {
      LeafAt(g, root, cs, ci, li);
      var leaf := cs[ci].replies[li];
      WriteLeaf(ci, li, leaf.(job := None, work := leaf.work + evals));
    }

    /** Advisory numbers only. */
    method AdviseLeaf(ci: nat, li: nat, pn: nat, dn: nat)
      requires Valid() && LocHas(cs, ci, li)
      modifies this`cs
      ensures Valid() && Stepped(old(cs), cs) && SameVerdicts(old(cs), cs)
    {
      LeafAt(g, root, cs, ci, li);
      var leaf := cs[ci].replies[li];
      WriteLeaf(ci, li, leaf.(pn := if pn > 0 then pn else leaf.pn, dn := if dn > 0 then dn else leaf.dn));
    }

    /** Verify a decisive claim and settle its leaf; false rejects the result and aborts the
        campaign. */
    method MergeDecisive(ci: nat, li: nat, events: seq<EventRec>) returns (merged: bool)
      requires Valid() && LocHas(cs, ci, li)
      modifies this`cs, this`facts, this`aborted
      ensures Valid() && Stepped(old(cs), cs) && |cs| == |old(cs)|
      ensures merged <==> Accepts(g, root, JobPath(old(cs), ci, li), events)
      ensures merged ==> VerdictsBut(old(cs), cs, ci, li) && LocHas(cs, ci, li) && AcceptedOutcome(events).Some?
      ensures merged ==> cs[ci].replies[li].status == VerdictOf(AcceptedOutcome(events).value)
      ensures merged ==> JobAt(cs, ci, li) == JobAt(old(cs), ci, li) && aborted == old(aborted)
      ensures !merged ==> aborted && cs == old(cs)
    {
      var jobPath := JobPath(cs, ci, li);
      var verified, emitted := VerifyAndMerge(g, root, jobPath, events);
      facts := facts + emitted;
      ProgressSelf(cs);
      if verified.Err? {
        aborted := true;
        return false;
      }
      var (outcome, depth) := verified.value;
      LeafAt(g, root, cs, ci, li);
      LeafPosition(g, root, cs[ci].mv, cs[ci].replies[li].mv);
      var leaf := cs[ci].replies[li];
      VerifiedSettles(g, g.play(g.play(root, cs[ci].mv), leaf.mv), leaf.status, outcome);
      if outcome == Win {
        leaf := leaf.(status := Won, depth := depth);
      } else {
        leaf := leaf.(status := Lost);
      }
      WriteLeaf(ci, li, leaf);
      merged := true;
    }

    method RefreshChild(ci: nat)
      requires Valid() && ci < |cs|
      modifies this`cs
      ensures Valid() && Stepped(old(cs), cs) && SameVerdicts(old(cs), cs) && |cs| == |old(cs)|
      ensures cs[ci] == Refresh(old(cs)[ci])
    {
      var c := Refresh(cs[ci]);
      ChildAt(g, root, cs, ci);
      RefreshOk(g, root, cs[ci]);
      SetChildOk(g, root, cs, ci, c);
      cs := SetChild(cs, ci, c);
      assert FewerLocks(old(cs), cs);
      FewerLocksOk(old(cs), cs, dispatched);
    }

    /** Refresh a child, emit its Loss once it is resolved, and declare the root won. */
    method Synthesize(ci: nat)
      requires Valid() && ci < |cs|
      modifies this`cs, this`facts, this`rootOutcome
      ensures Valid() && Stepped(old(cs), cs) && SameVerdicts(old(cs), cs) && |cs| == |old(cs)|
      ensures old(rootOutcome).Some? ==> rootOutcome == old(rootOutcome)
      ensures rootOutcome.Some? <==> old(rootOutcome).Some? || cs[ci].resolved
    {
      RefreshChild(ci);
      hide Stepped, SameVerdicts, LocksOk, FactsTrue;
      ghost var refreshed := cs;
      SteppedSelf(cs);
      ChildAt(g, root, cs, ci);
      if cs[ci].resolved && !cs[ci].synthesized {
        MarkSynthesized(ci);
        EmitLoss(ci);
        SteppedTrans(old(cs), refreshed, cs);
      }
      if cs[ci].resolved && rootOutcome.None? {
        WinByReply(g, root, cs[ci].mv);
        rootOutcome := Some(Win);
      }
    }

    /** A worker died: its lock goes. */
    method ReleaseStale(ci: nat, li: nat)
      requires Valid() && LocHas(cs, ci, li)
      modifies this`cs
      ensures Valid() && Progress(old(cs), cs) && FewerLocks(old(cs), cs) && JobAt(cs, ci, li).None?
    {
      LeafAt(g, root, cs, ci, li);
      WriteLeaf(ci, li, cs[ci].replies[li].(job := None));
    }

    /** Give up the jobs whose answer no longer matters. */
    method Abandon()
      requires Valid()
      modifies this`cs, this`cancelled
      ensures Valid() && Progress(old(cs), cs) && FewerLocks(old(cs), cs)
      ensures forall ci: nat, li: nat :: JobAt(cs, ci, li).Some? ==> !Dead(cs[ci], cs[ci].replies[li])
      ensures forall j :: j in cancelled && j !in old(cancelled) ==> Locked(old(cs), j)
    {
      var swept, jobs := AbandonInFlight(cs);
      DroppedOk(g, root, cs, swept);
      FewerLocksOk(cs, swept, dispatched);
      cs := swept;
      cancelled := cancelled + set k | 0 <= k < |jobs| :: jobs[k];
    }

    /** Is some leaf locked for `w`? */
    method Busy(w: nat) returns (busy: bool)
      ensures busy <==> LockedFor(cs, w)
    {
      for ci := 0 to |cs|
        invariant forall cj: nat, lj: nat :: cj < ci ==> JobAt(cs, cj, lj).None? || JobAt(cs, cj, lj).value.worker != w
      {
        for li := 0 to |cs[ci].replies|
          invariant forall cj: nat, lj: nat :: cj < ci || (cj == ci && lj < li) ==>
                      JobAt(cs, cj, lj).None? || JobAt(cs, cj, lj).value.worker != w
        {
          if cs[ci].replies[li].job.Some? && cs[ci].replies[li].job.value.worker == w {
            assert JobAt(cs, ci, li).Some?;
            return true;
          }
        }
      }
      busy := false;
    }

    /** Give an idle worker the leaf that the selection rule names, under a fresh job number; `written` says
        whether the job file could be written.  Nothing happens for a busy worker, or without a leaf. */
    method Dispatch(w: nat, written: bool) returns (ghost at: Option<(nat, nat)>)
      requires Valid()
      modifies this`cs, this`dispatched
      ensures Valid() && Progress(old(cs), cs)
      ensures at.None? <==> LockedFor(old(cs), w) || forall ci: nat, li: nat :: !Eligible(old(cs), ci, li)
      ensures at.None? ==> cs == old(cs) && dispatched == old(dispatched)
      ensures at.Some? ==>
                FirstChoice(old(cs), w, at.value.0, at.value.1) && dispatched == old(dispatched) + 1
                && cs ==
                     if written then Handed(old(cs), at.value.0, at.value.1, Job(w, seed, old(dispatched))) else old(cs)
    {
      ProgressSelf(cs);
      at := None;
      var busy := Busy(w);
      if busy {
        return;
      }
      var leaf := SelectLeaf(cs, w);
      if leaf.None? {
        return;
      }
      var (ci, li) := leaf.value;
      at := leaf;
      var job := Job(w, seed, dispatched);
      dispatched := dispatched + 1;
      if written {
        HandedOk(g, root, cs, ci, li, job);
        cs := Handed(cs, ci, li, job);
      }
    }
  }

  /** Some leaf is locked for `w`. */
  ghost predicate LockedFor(cs: seq<Child>, w: nat)
  {
    exists ci: nat, li: nat :: JobAt(cs, ci, li).Some? && JobAt(cs, ci, li).value.worker == w
  }

  /** An eligible leaf with the least key. */
  ghost predicate FirstChoice(cs: seq<Child>, w: nat, ci: nat, li: nat)
  {
    Eligible(cs, ci, li)
    && forall cj: nat, lj: nat :: Eligible(cs, cj, lj) ==> !Less(KeyOf(cs, cj, lj, w), KeyOf(cs, ci, li, w))
  }

  /** The leaf locked for a job, with one slice more. */
  function Handed(cs: seq<Child>, ci: nat, li: nat, job: Job): seq<Child>
    requires LocHas(cs, ci, li)
  {
    var leaf := cs[ci].replies[li];
    SetLeaf(cs, ci, li, leaf.(job := Some(job), slices := leaf.slices + 1, lastWorker := Some(job.worker)))
  }

  lemma {:induction false} HandedOk(g: Rules, root: Position, cs: seq<Child>, ci: nat, li: nat, job: Job)
    requires TableOk(g, root, cs) && LocksOk(cs, job.number) && LocHas(cs, ci, li) && !LockedFor(cs, job.worker)
    ensures var r := Handed(cs, ci, li, job);
            TableOk(g, root, r) && Progress(cs, r) && LocksOk(r, job.number + 1)
  {
    LeafAt(g, root, cs, ci, li);
    HandedLocks(cs, ci, li, job);
    hide TableOk, LocksOk, Progress, LockedFor;
    var leaf := cs[ci].replies[li];
    leaf := leaf.(job := Some(job), slices := leaf.slices + 1, lastWorker := Some(job.worker));
    SetLeafOk(g, root, cs, ci, li, leaf);
  }

  lemma {:induction false} HandedLocks(cs: seq<Child>, ci: nat, li: nat, job: Job)
    requires LocksOk(cs, job.number) && LocHas(cs, ci, li) && !LockedFor(cs, job.worker)
    ensures LocksOk(Handed(cs, ci, li, job), job.number + 1)
  {
    var leaf := cs[ci].replies[li];
    SetLeafJobs(cs, ci, li, leaf.(job := Some(job), slices := leaf.slices + 1, lastWorker := Some(job.worker)));
    hide SetLeaf, JobAt;
  }

  lemma {:induction false} ProgressSelf(cs: seq<Child>)
    ensures Progress(cs, cs) && FewerLocks(cs, cs)
  {
    forall i | 0 <= i < |cs|
      ensures ChildProgress(cs[i], cs[i])
    {
      assert forall j :: 0 <= j < |cs[i].replies| ==> Settled(cs[i].replies[j], cs[i].replies[j]);
    }
  }
}
