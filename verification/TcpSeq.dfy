/** 32-bit sequence numbers of src/net_ip.c, and the unbounded stream positions they
    stand for. */
module TcpSeq {
  const M: int := 0x1_0000_0000
  const HALF: int := 0x8000_0000

  type u32 = n: int | 0 <= n < 0x1_0000_0000

  function Wrap(n: int): u32 { n % M }

  /** (int32)(a - b). */
  function Diff(a: u32, b: u32): (d: int)
    ensures -HALF <= d < HALF
  {
    var d: int := (a - b) % M;
    if d < HALF then d else d - M
  }

  predicate SeqLt(a: u32, b: u32) { Diff(a, b) < 0 }
  predicate SeqLe(a: u32, b: u32) { Diff(a, b) <= 0 }
  predicate SeqGt(a: u32, b: u32) { Diff(a, b) > 0 }

  lemma ModIs(x: int, k: int, r: int)
    requires x == k * M + r && 0 <= r < M
    ensures x % M == r
  {
    assert x == M * (x / M) + x % M;
  }

  lemma WrapIs(x: int) returns (k: int)
    ensures Wrap(x) == x - k * M
  {
    k := x / M;
  }

  /** The wrapped difference is the true one while that stays below 2^31. */
  lemma DiffIs(base: int, p: int, q: int)
    requires -HALF <= p - q < HALF
    ensures Diff(Wrap(base + p), Wrap(base + q)) == p - q
  {
    var a: int, b: int := Wrap(base + p), Wrap(base + q);
    var k := WrapIs(base + p);
    var l := WrapIs(base + q);
    var d: int := p - q;
    assert a - b == d + (l - k) * M by { assert l * M - k * M == (l - k) * M; }
    if d >= 0 {
      ModIs(a - b, l - k, d);
    } else {
      assert (l - k - 1) * M == (l - k) * M - M;
      ModIs(a - b, l - k - 1, d + M);
    }
  }

  /** So the wrapped comparisons agree with the comparison of positions. */
  lemma CompareIs(base: int, p: int, q: int)
    requires -HALF < p - q < HALF
    ensures SeqLt(Wrap(base + p), Wrap(base + q)) <==> p < q
    ensures SeqLe(Wrap(base + p), Wrap(base + q)) <==> p <= q
    ensures SeqGt(Wrap(base + p), Wrap(base + q)) <==> p > q
    ensures Wrap(base + p) == Wrap(base + q) <==> p == q
  {
    DiffIs(base, p, q);
    DiffIs(base, q, q);
  }

  /** At exactly 2^31 apart they no longer do: each of the two is before the other. */
  lemma HalfApart(a: u32)
    ensures SeqLt(a, Wrap(a + HALF)) && SeqLt(Wrap(a + HALF), a)
  {
    DiffIs(0, a, a + HALF);
    if a < HALF {
      assert Wrap(a + HALF) == a + HALF;
      ModIs(a - (a + HALF), -1, HALF);
      ModIs(a + HALF - a, 0, HALF);
    } else {
      ModIs(a + HALF, 1, a - HALF);
      ModIs(a - (a - HALF), 0, HALF);
      ModIs(a - HALF - a, -1, HALF);
    }
  }

  /** The three comparisons say how two positions lie to each other. */
  predicate Agree(base: int, p: int, q: int) {
    var a, b := Wrap(base + p), Wrap(base + q);
    (SeqLt(a, b) <==> p < q) && (SeqLe(a, b) <==> p <= q) && (SeqGt(a, b) <==> p > q)
  }

  /** Of positions less than one turn apart they do, asked either way round, exactly if it
      is less than half a turn. */
  lemma CompareExactly(base: int, p: int, q: int)
    requires -M < p - q < M
    ensures Agree(base, p, q) && Agree(base, q, p) <==> -HALF < p - q < HALF
  {
    hide Diff, Wrap;
    if -HALF < p - q < HALF {
      CompareIs(base, p, q);
      CompareIs(base, q, p);
    } else if p - q >= HALF {
      WrapAround(base, p);
      DiffIs(base, p - M, q);
    } else {
      WrapAround(base, q);
      DiffIs(base, q - M, p);
    }
  }

  lemma WrapAround(base: int, p: int)
    ensures Wrap(base + (p - M)) == Wrap(base + p)
  {
    var k := WrapIs(base + p);
    ModIs(base + (p - M), k - 1, Wrap(base + p));
  }

  lemma WrapAdd(x: int, n: int)
    ensures Wrap(Wrap(x) + n) == Wrap(x + n)
  {
    var k := WrapIs(x);
    var l := WrapIs(x + n);
    assert Wrap(x) + n == (l - k) * M + Wrap(x + n) by { assert (l - k) * M == l * M - k * M; }
    ModIs(Wrap(x) + n, l - k, Wrap(x + n));
  }

  /** The unsigned difference of two positions in order. */
  lemma FlightIs(base: int, p: int, q: int)
    requires 0 <= p - q < M
    ensures Wrap(Wrap(base + p) - Wrap(base + q)) == p - q
  {
    var k := WrapIs(base + p);
    var l := WrapIs(base + q);
    var x := Wrap(base + p) - Wrap(base + q);
    assert x == (l - k) * M + (p - q) by { assert (l - k) * M == l * M - k * M; }
    ModIs(x, l - k, p - q);
  }
}
