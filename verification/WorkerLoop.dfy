/** The worker's whole life: events and finalise queries in any order, also events that arrive after a
    finalisation. */
module WorkerLoop {
  import opened Game
  import opened Tree
  import opened Worker
  import opened WorkerInvariant
  import opened WorkerTidy
  import opened WorkerMachine
  import opened Finalize
  import Validate
  import ValidateSound

  datatype Msg = Heard(e: Event) | Asked

  /** Some event so far left the memory estimate over budget. */
  ghost predicate Limited(msgs: seq<Msg>, over: nat -> bool, n: nat)
    requires n <= |msgs|
  {
    exists j :: 0 <= j < n && msgs[j].Heard? && over(j)
  }

  ghost predicate RealMsgs(msgs: seq<Msg>)
  {
    forall i :: 0 <= i < |msgs| && msgs[i].Heard? ==> NO_MOVE !in msgs[i].e.path
  }

  ghost predicate Sound(a: Arena) { Inv(a) && Tidy(a.nodes) }

  /** What one message does: an event is processed unless memory has run out; a query installs the finished
      tree and reports the validator's defects. */
  ghost predicate Answered(g: Rules, root: Position, m: Msg, limited: bool, a: Arena, b: Arena, reply: Option<nat>)
    requires Sound(a) && Sound(b)
  {
    match m
    case Heard(e) => reply == None && b == if limited then a else Process(a, e)
    case Asked =>
      && a.nodes[0].outcome.Some? && IsFinished(a.nodes, b.nodes) && ValidateSound.LeavesAreZero(b.nodes)
      && reply == Some(|Validate.Report(g, b.nodes, 0, root, [], {})|)
  }

  /** The states and replies so far are those of the messages so far. */
  ghost predicate History(g: Rules, root: Position, msgs: seq<Msg>, over: nat -> bool, trace: seq<Arena>,
      replies: seq<Option<nat>>)
  {
    && |replies| <= |msgs| && |trace| == |replies| + 1 && trace[0] == Fresh()
    && (forall i :: 0 <= i < |trace| ==> Sound(trace[i]))
    && forall i :: 0 <= i < |replies| ==>
         Answered(g, root, msgs[i], Limited(msgs, over, i), trace[i], trace[i + 1], replies[i])
  }

  lemma {:induction false} HistoryMore(g: Rules, root: Position, msgs: seq<Msg>, over: nat -> bool, trace: seq<Arena>,
          replies: seq<Option<nat>>, a: Arena, reply: Option<nat>)
    requires History(g, root, msgs, over, trace, replies) && |replies| < |msgs| && Sound(a)
    requires Answered(g, root, msgs[|replies|], Limited(msgs, over, |replies|), trace[|replies|], a, reply)
    ensures History(g, root, msgs, over, trace + [a], replies + [reply])
  {
    hide Sound, Answered, Limited;
  }

  lemma {:induction false} LimitedMore(msgs: seq<Msg>, over: nat -> bool, n: nat)
    requires n < |msgs|
    ensures Limited(msgs, over, n + 1) <==> Limited(msgs, over, n) || (msgs[n].Heard? && over(n))
  {
  }

  method Hear(w: ProofTreeWorker, e: Event, over: bool)
    requires w.Valid() && Tidy(w.nodes) && NO_MOVE !in e.path
    modifies w
    ensures w.Valid() && Tidy(w.nodes)
    ensures w.Now() == if old(w.memoryLimited) then old(w.Now()) else Process(old(w.Now()), e)
    ensures w.memoryLimited == (old(w.memoryLimited) || over)
  {
    ghost var was := w.Now();
    ProcessTidy(was, e);
    hide Inv, Tidy, Process;
    w.ProcessEvent(e, over);
  }

  lemma {:induction false} SoundNow(w: ProofTreeWorker)
    requires w.Valid() && Tidy(w.nodes)
    ensures Sound(w.Now()) && Linked(w.nodes)
  {
  }

  /** One message; the worker exits at a query before the root is realised. */
  method ServeOne(w: ProofTreeWorker, m: Msg, over: bool, g: Rules, root: Position)
    returns (exited: bool, reply: Option<nat>)
    requires w.Valid() && Tidy(w.nodes) && g.Sane() && (m.Heard? ==> NO_MOVE !in m.e.path)
    modifies w
    ensures w.Valid() && Sound(w.Now()) && Sound(old(w.Now()))
    ensures exited <==> m.Asked? && old(w.nodes)[0].outcome.None?
    ensures exited ==> w.Now() == old(w.Now())
    ensures !exited ==> Answered(g, root, m, old(w.memoryLimited), old(w.Now()), w.Now(), reply)
    ensures w.memoryLimited == (old(w.memoryLimited) || (m.Heard? && over))
  {
    SoundNow(w);
    hide Inv, Tidy, Process, IsFinished, Sound, ProofTreeWorker.Valid, Validate.Report, ValidateSound.LeavesAreZero,
      Linked;
    exited, reply := false, None;
    if m.Heard? {
      Hear(w, m.e, over);
    } else {
      var r := FinalizeTree(w, g, root);
      if r.RootUnrealised? {
        exited := true;
      } else {
        reply := Some(r.defects);
      }
    }
    SoundNow(w);
  }

  /** The worker answers every message by its specification and keeps its invariant, also on what a
      finalisation installed; it exits exactly at a query before the root is realised. */
  method Serve(msgs: seq<Msg>, over: nat -> bool, g: Rules, root: Position)
    returns (w: ProofTreeWorker, exited: bool, replies: seq<Option<nat>>, ghost trace: seq<Arena>)
    requires g.Sane() && RealMsgs(msgs)
    ensures fresh(w) && w.Valid() && History(g, root, msgs, over, trace, replies) && trace[|replies|] == w.Now()
    ensures if exited then |replies| < |msgs| && msgs[|replies|].Asked? && trace[|replies|].nodes[0].outcome.None?
            else |replies| == |msgs|
  {
    w := new ProofTreeWorker();
    FreshTidy();
    replies, trace, exited := [], [w.Now()], false;
    assert Sound(w.Now());
    hide Inv, Tidy, Limited, Answered;
    assert !Limited(msgs, over, 0) by { NotYet(msgs, over); }
    for n := 0 to |msgs|
      invariant fresh(w) && w.Valid() && Sound(w.Now())
      invariant |replies| == n && History(g, root, msgs, over, trace, replies) && trace[n] == w.Now()
      invariant w.memoryLimited <==> Limited(msgs, over, n)
    {
      var reply;
      exited, reply := ServeOne(w, msgs[n], over(n), g, root);
      if exited {
        return;
      }
      HistoryMore(g, root, msgs, over, trace, replies, w.Now(), reply);
      LimitedMore(msgs, over, n);
      replies, trace := replies + [reply], trace + [w.Now()];
    }
  }

  lemma {:induction false} NotYet(msgs: seq<Msg>, over: nat -> bool)
    ensures !Limited(msgs, over, 0)
  {
  }
}
