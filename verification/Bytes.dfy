/** Little-endian integers and a byte cursor. */
module Bytes {
  import opened Game

  type Byte = b: int | 0 <= b < 256
  type U16 = n: int | 0 <= n < 0x1_0000
  type U64 = n: int | 0 <= n < 0x1_0000_0000_0000_0000

  function Pow256(k: nat): (p: nat)
    ensures p > 0
  {
    if k == 0 then 1 else 256 * Pow256(k - 1)
  }

  /** The `k` low bytes of `n`, least first. */
  function Le(n: nat, k: nat): (b: seq<Byte>)
    ensures |b| == k
    decreases k
  {
    if k == 0 then [] else [n % 256] + Le(n / 256, k - 1)
  }

  function UnLe(b: seq<Byte>): (n: nat)
    ensures n < Pow256(|b|)
  {
    if b == [] then 0 else b[0] + 256 * UnLe(b[1..])
  }

  lemma {:induction false} LeThenUnLe(n: nat, k: nat)
    requires n < Pow256(k)
    ensures UnLe(Le(n, k)) == n
    decreases k
  {
    if k > 0 {
      LeThenUnLe(n / 256, k - 1);
      assert Le(n, k)[1..] == Le(n / 256, k - 1);
    }
  }

  lemma {:induction false} UnLeThenLe(b: seq<Byte>)
    ensures Le(UnLe(b), |b|) == b
    decreases |b|
  {
    if b != [] {
      UnLeThenLe(b[1..]);
      assert UnLe(b) % 256 == b[0] && UnLe(b) / 256 == UnLe(b[1..]);
    }
  }

  lemma {:induction false} Widths()
    ensures Pow256(1) == 0x100 && Pow256(2) == 0x1_0000 && Pow256(4) == 0x1_0000_0000
            && Pow256(8) == 0x1_0000_0000_0000_0000
  {
    assert Pow256(0) == 1;
    assert Pow256(3) == 0x100_0000;
    assert Pow256(5) == 0x100_0000_0000;
    assert Pow256(6) == 0x1_0000_0000_0000;
    assert Pow256(7) == 0x100_0000_0000_0000;
  }

  function Le16(n: U16): (b: seq<Byte>)
    ensures |b| == 2
  {
    Le(n, 2)
  }

  function Le32(n: U32): (b: seq<Byte>)
    ensures |b| == 4
  {
    Le(n, 4)
  }

  function Le64(n: U64): (b: seq<Byte>)
    ensures |b| == 8
  {
    Le(n, 8)
  }

  function Un16(b: seq<Byte>): (n: U16)
    requires |b| == 2
    ensures Le16(n) == b
  {
    Widths();
    UnLeThenLe(b);
    UnLe(b)
  }

  lemma {:induction false} Le16Injective(a: U16, b: U16)
    requires Le16(a) == Le16(b)
    ensures a == b
  {
    Widths();
    LeThenUnLe(a, 2);
    LeThenUnLe(b, 2);
  }

  function Un32(b: seq<Byte>): (n: U32)
    requires |b| == 4
    ensures Le32(n) == b
  {
    Widths();
    UnLeThenLe(b);
    UnLe(b)
  }

  lemma {:induction false} Le32Injective(a: U32, b: U32)
    requires Le32(a) == Le32(b)
    ensures a == b
  {
    Widths();
    LeThenUnLe(a, 4);
    LeThenUnLe(b, 4);
  }

  function Un64(b: seq<Byte>): (n: U64)
    requires |b| == 8
    ensures Le64(n) == b
  {
    Widths();
    UnLeThenLe(b);
    UnLe(b)
  }

  lemma {:induction false} Le64Injective(a: U64, b: U64)
    requires Le64(a) == Le64(b)
    ensures a == b
  {
    Widths();
    LeThenUnLe(a, 8);
    LeThenUnLe(b, 8);
  }

  const NEWLINE: Byte := 10

  /** The bytes that have been read so far are `data[..at]`. */
  class Source {
    const data: seq<Byte>
    var at: nat

    constructor (data: seq<Byte>)
      ensures this.data == data && at == 0
    {
      this.data := data;
      at := 0;
    }

    ghost predicate Valid()
      reads this
    {
      at <= |data|
    }

    /** Exactly `n` bytes, or nothing when the stream is too short. */
    method Take(n: nat) returns (b: Option<seq<Byte>>)
      requires Valid()
      modifies this
      ensures Valid() && b.None? == (|data| < old(at) + n)
      ensures b.Some? ==> at == old(at) + n && b.value == data[old(at)..at] && |b.value| == n
      ensures b.None? ==> at == old(at)
    {
      if |data| < at + n {
        return None;
      }
      b := Some(data[at..at + n]);
      at := at + n;
    }

    /** Everything up to the end of the stream. */
    method TakeRest() returns (b: seq<Byte>)
      requires Valid()
      modifies this
      ensures Valid() && at == |data| && b == data[old(at)..]
    {
      b := data[at..];
      at := |data|;
    }

    /** A line without its newline; nothing when no newline follows. */
    method TakeLine() returns (line: Option<seq<Byte>>)
      requires Valid()
      modifies this
      ensures Valid()
      ensures line.Some? ==>
          at == old(at) + |line.value| + 1 && data[old(at)..at] == line.value + [NEWLINE] && NEWLINE !in line.value
      ensures line.None? ==> NEWLINE !in data[old(at)..]
    {
      var start := at;
      var bytes: seq<Byte> := [];
      while at < |data|
        invariant start <= at <= |data| && bytes == data[start..at] && NEWLINE !in bytes && start == old(at)
        decreases |data| - at
      {
        var byte := data[at];
        at := at + 1;
        if byte == NEWLINE {
          return Some(bytes);
        }
        bytes := bytes + [byte];
      }
      line := None;
    }
  }

  /** Equal streams with parts of equal length have equal parts. */
  lemma {:induction false} Split(a: seq<Byte>, b: seq<Byte>, c: seq<Byte>, d: seq<Byte>)
    requires a + b == c + d && (|a| == |c| || |b| == |d|)
    ensures a == c && b == d
  {
    assert |a| == |c|;
    assert (a + b)[..|a|] == a && (c + d)[..|a|] == c;
    assert (a + b)[|a|..] == b && (c + d)[|a|..] == d;
  }

  /** The first newline ends the first line. */
  lemma {:induction false} LineUnique(x: seq<Byte>, y: seq<Byte>, rest: seq<Byte>, more: seq<Byte>)
    requires NEWLINE !in x && NEWLINE !in y && x + [NEWLINE] + rest == y + [NEWLINE] + more
    ensures x == y && rest == more
  {
    var a, b := x + [NEWLINE] + rest, y + [NEWLINE] + more;
    assert forall k :: 0 <= k < |x| ==> a[k] == x[k] && x[k] in x;
    assert forall k :: 0 <= k < |y| ==> b[k] == y[k] && y[k] in y;
    assert a[|x|] == NEWLINE && b[|y|] == NEWLINE;
    assert |x| == |y|;
    assert a[..|x|] == x && b[..|x|] == y;
    assert a[|x| + 1..] == rest && b[|x| + 1..] == more;
  }
}
