/** What a completed reconstruction walk is: a proof term, and the events it was emitted as. */
module Walk {
  import opened Game
  import opened Lists
  import opened Worker

  datatype Term = Term(mv: Move, outcome: Outcome, depth: U32, kids: seq<Term>)

  function LastMove(path: seq<Move>): Move { if path == [] then NO_MOVE else path[|path| - 1] }

  /** `t` is a complete proof of its outcome at `p`: static at terminal positions, one losing
      reply at a win, every legal reply in order at a loss. */
  ghost predicate Proves(g: Rules, p: Position, t: Term)
    decreases t
  {
    && t.outcome != Draw
    && if g.terminal(p).Some? then g.terminal(p) == Some(t.outcome) && t.depth == 0 && t.kids == []
       else
         && (t.outcome == Win ==> |t.kids| == 1)
         && (t.outcome == Loss ==> |t.kids| == |g.legal(p)|)
         && forall k :: 0 <= k < |t.kids| ==>
              && (t.outcome == Loss ==> t.kids[k].mv == g.legal(p)[k])
              && t.kids[k].mv in g.legal(p) && t.kids[k].outcome == t.outcome.Flip()
              && Proves(g, g.play(p, t.kids[k].mv), t.kids[k])
  }

  lemma {:induction false} ProvesHolds(g: Rules, p: Position, t: Term)
    requires g.Sane() && Proves(g, p, t)
    ensures Holds(g, p, t.outcome)
    decreases t
  {
    if g.terminal(p).Some? {
      assert Forced(g, p, t.outcome, 0);
    } else {
      forall k | 0 <= k < |t.kids|
        ensures Holds(g, g.play(p, t.kids[k].mv), t.outcome.Flip())
      {
        ProvesHolds(g, g.play(p, t.kids[k].mv), t.kids[k]);
      }
      if t.outcome == Win {
        WinByReply(g, p, t.kids[0].mv);
      } else {
        LossByReplies(g, p);
      }
    }
  }

  /** The events of a walk, parents before children. */
  ghost function Preorder(g: Rules, p: Position, path: seq<Move>, t: Term): seq<Event>
    decreases t, |t.kids| + 1
  {
    [Event(path, g.hash(p), t.outcome, t.depth)] + PreorderKids(g, p, path, t, |t.kids|)
  }

  ghost function PreorderKids(g: Rules, p: Position, path: seq<Move>, t: Term, n: nat): seq<Event>
    requires n <= |t.kids|
    decreases t, n
  {
    if n == 0 then []
    else
      var k := t.kids[n - 1];
      PreorderKids(g, p, path, t, n - 1) + Preorder(g, g.play(p, k.mv), path + [k.mv], k)
  }

  ghost function KidEvents(g: Rules, p: Position, path: seq<Move>, k: Term): seq<Event>
  {
    Preorder(g, g.play(p, k.mv), path + [k.mv], k)
  }

  lemma {:induction false} PreorderNext(g: Rules, p: Position, path: seq<Move>, t: Term, n: nat)
    requires n <= |t.kids|
    ensures n == 0 ==> PreorderKids(g, p, path, t, n) == []
    ensures n > 0 ==>
              PreorderKids(g, p, path, t, n) ==
              PreorderKids(g, p, path, t, n - 1) + KidEvents(g, p, path, t.kids[n - 1])
  {
  }

  lemma {:induction false} PreorderPrefix(g: Rules, p: Position, path: seq<Move>, a: Term, b: Term, n: nat)
    requires n <= |a.kids| && n <= |b.kids| && a.kids[..n] == b.kids[..n]
    ensures PreorderKids(g, p, path, a, n) == PreorderKids(g, p, path, b, n)
    decreases n
  {
    if n > 0 {
      assert a.kids[n - 1] == a.kids[..n][n - 1] == b.kids[n - 1];
      assert a.kids[..n - 1] == a.kids[..n][..n - 1] == b.kids[..n - 1];
      PreorderPrefix(g, p, path, a, b, n - 1);
    }
  }

  /** One more child walked. */
  lemma {:induction false} PreorderMore(g: Rules, p: Position, path: seq<Move>, t: Term, k: Term)
    ensures PreorderKids(g, p, path, t.(kids := t.kids + [k]), |t.kids| + 1) ==
            PreorderKids(g, p, path, t, |t.kids|) + Preorder(g, g.play(p, k.mv), path + [k.mv], k)
  {
    var u := t.(kids := t.kids + [k]);
    assert u.kids[..|t.kids|] == t.kids[..|t.kids|];
    PreorderPrefix(g, p, path, t, u, |t.kids|);
  }

  /** A Loss node whose first `n` replies have been walked. */
  ghost predicate Expanding(g: Rules, p: Position, path: seq<Move>, depth: U32, t: Term, n: nat, before: seq<Event>,
          events: seq<Event>)
  {
    && t == Term(LastMove(path), Loss, depth, t.kids) && |t.kids| == n <= |g.legal(p)|
    && (forall k :: 0 <= k < n ==> RepliedBy(g, p, t.kids[k], g.legal(p)[k]))
    && events == before + [Event(path, g.hash(p), Loss, depth)] + PreorderKids(g, p, path, t, n)
  }

  ghost predicate RepliedBy(g: Rules, p: Position, kid: Term, m: Move)
  {
    kid.mv == m && kid.outcome == Win && Proves(g, g.play(p, m), kid)
  }

  lemma {:induction false} ExpandStart(g: Rules, p: Position, path: seq<Move>, depth: U32, before: seq<Event>)
    ensures Expanding(g, p, path, depth, Term(LastMove(path), Loss, depth, []), 0, before,
            before + [Event(path, g.hash(p), Loss, depth)])
  {
    var e := [Event(path, g.hash(p), Loss, depth)];
    assert before + e + [] == before + e;
  }

  lemma {:induction false} ExpandMore(g: Rules, p: Position, path: seq<Move>, depth: U32, t: Term, n: nat,
          before: seq<Event>, events: seq<Event>, kid: Term, events': seq<Event>)
    requires Expanding(g, p, path, depth, t, n, before, events) && n < |g.legal(p)|
    requires RepliedBy(g, p, kid, g.legal(p)[n])
    requires events' == events + Preorder(g, g.play(p, kid.mv), path + [kid.mv], kid)
    ensures Expanding(g, p, path, depth, t.(kids := t.kids + [kid]), n + 1, before, events')
  {
    hide Proves, Preorder, PreorderKids;
    PreorderMore(g, p, path, t, kid);
    Assoc(before + [Event(path, g.hash(p), Loss, depth)], PreorderKids(g, p, path, t, n),
        Preorder(g, g.play(p, kid.mv), path + [kid.mv], kid));
  }

  lemma {:induction false} ExpandDone(g: Rules, p: Position, path: seq<Move>, depth: U32, t: Term, before: seq<Event>,
          events: seq<Event>)
    requires Expanding(g, p, path, depth, t, |g.legal(p)|, before, events) && g.terminal(p).None?
    ensures Proves(g, p, t) && events == before + Preorder(g, p, path, t)
  {
    assert forall k :: 0 <= k < |t.kids| ==> RepliedBy(g, p, t.kids[k], g.legal(p)[k]);
    Assoc(before, [Event(path, g.hash(p), Loss, depth)], PreorderKids(g, p, path, t, |t.kids|));
  }

  lemma {:induction false} Descended(g: Rules, p: Position, path: seq<Move>, depth: U32, kid: Term, before: seq<Event>,
          events: seq<Event>)
    requires g.terminal(p).None? && kid.mv in g.legal(p) && kid.outcome == Loss && Proves(g, g.play(p, kid.mv), kid)
    requires events ==
               before + [Event(path, g.hash(p), Win, depth)] + Preorder(g, g.play(p, kid.mv), path + [kid.mv], kid)
    ensures var t := Term(LastMove(path), Win, depth, [kid]);
            Proves(g, p, t) && events == before + Preorder(g, p, path, t)
  {
    var none := Term(LastMove(path), Win, depth, []);
    PreorderMore(g, p, path, none, kid);
    assert none.kids + [kid] == [kid];
    var below := Preorder(g, g.play(p, kid.mv), path + [kid.mv], kid);
    assert PreorderKids(g, p, path, none, 0) + below == below;
    Assoc(before, [Event(path, g.hash(p), Win, depth)], below);
  }
}
