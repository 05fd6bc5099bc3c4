/** Small facts about sequences. */
module Lists {

  /** All but the last element. */
  function Front<T>(s: seq<T>): seq<T> { if s == [] then s else s[..|s| - 1] }

  /** The concatenation of `xs` from index `i` on. */
  ghost function Flat<T>(xs: seq<seq<T>>, i: nat): seq<T>
    requires i <= |xs|
    decreases |xs| - i
  {
    if i == |xs| then [] else xs[i] + Flat(xs, i + 1)
  }

  lemma {:induction false} FlatEmpty<T>(xs: seq<seq<T>>, i: nat)
    requires i <= |xs|
    ensures |Flat(xs, i)| == 0 <==> forall k :: i <= k < |xs| ==> |xs[k]| == 0
    decreases |xs| - i
  {
    if i < |xs| {
      FlatEmpty(xs, i + 1);
    }
  }

  lemma {:induction false} Assoc<T>(a: seq<T>, b: seq<T>, c: seq<T>)
    ensures (a + b) + c == a + (b + c)
  {
  }

  ghost predicate Distinct(s: seq<nat>)
  {
    forall a, b :: 0 <= a < b < |s| ==> s[a] != s[b]
  }

  lemma {:induction false} SubsetSize<T>(a: set<T>, b: set<T>)
    requires a <= b
    ensures |a| <= |b| && (|a| == |b| ==> a == b)
    decreases |a|
  {
    if a != {} {
      var x :| x in a;
      SubsetSize(a - {x}, b - {x});
      assert a == (a - {x}) + {x} && b == (b - {x}) + {x};
    }
  }
}
