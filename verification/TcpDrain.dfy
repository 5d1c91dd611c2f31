/** The reassembly of src/net_ip.c on whatever state it finds, and exactly when its loop
    over the held segments ends. */
module TcpDrain {
  import opened Common
  import opened TcpSeq
  import opened TcpSend
  import opened TcpRecv

  /** The sizes are what the code allots. */
  ghost predicate Fitting(r: Rcv) {
    && |r.rxq| == RXQ && r.len <= RXQ && |r.ooo| == NOOO
    && forall i :: 0 <= i < NOOO && r.ooo[i].used ==> |r.ooo[i].data| <= OOOSEG
  }

  // ---- what the routines do

  /** rcv_accept with nobody nominated for the interrupt character. */
  ghost function Accepted(r: Rcv, data: seq<byte>): (r': Rcv)
    requires Fitting(r)
    ensures Fitting(r') && r'.ooo == r.ooo
  {
    var n := Room(r.len, |data|);
    r.(rxq := Put(r.rxq, r.len, data[..n]), len := r.len + n, nxt := Wrap(r.nxt + n))
  }

  ghost function Freed(r: Rcv, i: nat): (r': Rcv)
    requires Fitting(r) && i < NOOO
    ensures Fitting(r')
  {
    r.(ooo := r.ooo[i := r.ooo[i].(used := false)])
  }

  /** What the loop of ooo_drain does about one held segment, and whether that counts as
      progress. */
  ghost function Turn(r: Rcv, i: nat): (t: (Rcv, bool))
    requires Fitting(r) && i < NOOO
    ensures Fitting(t.0)
  {
    var h := r.ooo[i];
    if !h.used || SeqGt(h.at, r.nxt) then (r, false)
    else if SeqLe(Wrap(h.at + |h.data|), r.nxt) then (Freed(r, i), true)
    else
      Straddles(h.at, |h.data|, r.nxt);
      var rest := h.data[Diff(r.nxt, h.at)..];
      var r1 := Accepted(r, rest);
      (if Room(r.len, |rest|) == |rest| then Freed(r1, i) else r1, true)
  }

  /** One pass over the held segments, from the i-th on. */
  ghost function Pass(r: Rcv, i: nat): (t: (Rcv, bool))
    requires Fitting(r) && i <= NOOO
    ensures Fitting(t.0)
    decreases NOOO - i
  {
    if i == NOOO then (r, false) else
    var (r1, moved) := Turn(r, i);
    var (r2, more) := Pass(r1, i + 1);
    (r2, moved || more)
  }

  ghost function Passes(r: Rcv, k: nat): (r': Rcv)
    requires Fitting(r)
    ensures Fitting(r')
    decreases k
  {
    if k == 0 then r else Passes(Pass(r, 0).0, k - 1)
  }

  /** The next pass makes progress, so there will be another. */
  ghost predicate Moves(r: Rcv)
    requires Fitting(r)
  {
    Pass(r, 0).1
  }

  /** ooo_store; room is whether malloc finds any. */
  ghost function Stored(r: Rcv, at: u32, data: seq<byte>, room: bool): (r': Rcv)
    requires Fitting(r)
    ensures Fitting(r') && r' == r.(ooo := r'.ooo)
  {
    if (exists i :: 0 <= i < NOOO && r.ooo[i].used && r.ooo[i].at == at) || !room then r
    else
      var i := FirstFree(r.ooo, 0);
      if i == NOOO then r else r.(ooo := r.ooo[i := Held(true, at, if |data| <= OOOSEG then data else data[..OOOSEG])])
  }

  function FirstFree(ooo: seq<Held>, i: nat): (f: nat)
    requires i <= |ooo|
    ensures i <= f <= |ooo| && (f < |ooo| ==> !ooo[f].used) && forall j :: i <= j < f ==> ooo[j].used
    decreases |ooo| - i
  {
    if i == |ooo| || !ooo[i].used then i else FirstFree(ooo, i + 1)
  }

  /** rcv_data up to its call of ooo_drain, and whether it comes to that. */
  ghost function Received(r: Rcv, at: u32, data: seq<byte>, room: bool): (t: (Rcv, bool))
    requires Fitting(r) && |data| < HALF
    ensures Fitting(t.0)
  {
    if SeqLe(Wrap(at + |data|), r.nxt) then (r, false)
    else if SeqLt(at, r.nxt) then
      Ahead(at, |data|, r.nxt);
      (Accepted(r, data[Diff(r.nxt, at)..]), true)
    else if at == r.nxt then (Accepted(r, data), true)
    else (Stored(r, at, data, room), false)
  }

  // ---- where a segment lies

  /** How far x is past at. */
  function Dist(x: u32, at: u32): u32 { Wrap(x - at) }

  lemma DistIs(x: u32, at: u32)
    ensures x == Wrap(at + Dist(x, at)) && x == Wrap(at + (Dist(x, at) - M)) && at == Wrap(at + 0)
  {
    WrapAdd(x - at, at);
    WrapAdd(x - at, at - M);
    ModIs(x - M, -1, x);
    ModIs(x, 0, x);
    ModIs(at, 0, at);
    assert x - at + at == x && x - at + (at - M) == x - M;
  }

  lemma DistAdd(x: u32, at: u32, n: nat)
    requires Dist(x, at) + n < M
    ensures Dist(Wrap(x + n), at) == Dist(x, at) + n
  {
    WrapAdd(x + n, 0 - at);
    WrapAdd(x - at, n);
    assert x + n + (0 - at) == x - at + n;
    ModIs(Dist(x, at) + n, 0, Dist(x, at) + n);
  }

  lemma DistSub(x: u32, at: u32, n: nat)
    requires n <= Dist(x, at)
    ensures Dist(x, Wrap(at + n)) == Dist(x, at) - n
  {
    var k := WrapIs(at + n);
    var l := WrapIs(x - at);
    assert x - Wrap(at + n) == (k + l) * M + (Dist(x, at) - n) by { assert (k + l) * M == k * M + l * M; }
    ModIs(x - Wrap(at + n), k + l, Dist(x, at) - n);
  }

  /** The comparisons the code makes, as distances. */
  lemma Lies(at: u32, l: nat, nxt: u32)
    requires l < HALF
    ensures SeqGt(at, nxt) <==> Dist(nxt, at) > HALF
    ensures !SeqGt(at, nxt) ==> (SeqLe(Wrap(at + l), nxt) <==> l <= Dist(nxt, at))
    ensures Dist(nxt, at) < HALF ==> Diff(nxt, at) == Dist(nxt, at)
    ensures !SeqGt(at, nxt) && !SeqLe(Wrap(at + l), nxt) <==> Dist(nxt, at) < l
  {
    hide Wrap, Diff, Dist;
    var x := Dist(nxt, at);
    DistIs(nxt, at);
    if x <= HALF {
      DiffIs(at, 0, x);
      DiffIs(at, l, x);
      if x < HALF { DiffIs(at, x, 0); }
    } else {
      DiffIs(at, 0, x - M);
    }
  }

  lemma Straddles(at: u32, l: nat, nxt: u32)
    requires l <= OOOSEG && !SeqGt(at, nxt) && !SeqLe(Wrap(at + l), nxt)
    ensures 0 <= Diff(nxt, at) < l && Diff(nxt, at) == Dist(nxt, at)
  {
    hide Wrap, Diff, Dist;
    Lies(at, l, nxt);
  }

  lemma Ahead(at: u32, l: nat, nxt: u32)
    requires l < HALF && SeqLt(at, nxt) && !SeqLe(Wrap(at + l), nxt)
    ensures 0 <= Diff(nxt, at) < l && Diff(nxt, at) == Dist(nxt, at)
  {
    hide Wrap, Diff, Dist;
    Lies(at, l, nxt);
  }

  // ---- when the loop ends

  /** Position x is in a held segment. */
  predicate Covers(h: Held, x: u32) { h.used && Dist(x, h.at) < |h.data| }

  ghost predicate Covered(r: Rcv, x: u32) { exists i :: 0 <= i < |r.ooo| && Covers(r.ooo[i], x) }

  /** Everything from what is expected next to the first byte past the window is held. */
  ghost predicate Overrun(r: Rcv) { forall d: nat :: d <= RXQ - r.len ==> CoveredAt(r, d) }

  ghost predicate CoveredAt(r: Rcv, d: nat) { Covered(r, Wrap(r.nxt + d)) }

  /** x is no further than the first byte past the window, and not held. */
  ghost predicate Edge(r: Rcv, x: u32) { Dist(x, r.nxt) <= RXQ - r.len && !Covered(r, x) }

  lemma EdgeIs(r: Rcv) returns (x: u32)
    requires Fitting(r) && !Overrun(r)
    ensures Edge(r, x)
  {
    hide Wrap, Dist, Covered;
    var d: nat :| d <= RXQ - r.len && !CoveredAt(r, d);
    x := Wrap(r.nxt + d);
    NoDist(r.nxt);
    DistAdd(r.nxt, r.nxt, d);
  }

  lemma NoDist(x: u32)
    ensures Dist(x, x) == 0
  {
  }

  /** While there is such an x, progress means letting a segment go. */
  lemma TurnFrees(r: Rcv, i: nat, x: u32)
    requires Fitting(r) && i < NOOO && Edge(r, x)
    ensures var (r', moved) := Turn(r, i);
            && Edge(r', x) && (moved ==> r.ooo[i].used && r'.ooo == r.ooo[i := r.ooo[i].(used := false)])
            && (!moved ==> r' == r)
  {
    hide Wrap, Diff, Dist, SeqGt, SeqLe, Put;
    var h, t := r.ooo[i], Turn(r, i);
    forall j | 0 <= j < NOOO ensures !Covers(r.ooo[j], x) { }
    if h.used {
      Lies(h.at, |h.data|, r.nxt);
      if Dist(r.nxt, h.at) < |h.data| {
        FrontFits(r, h, x);
        Straddles(h.at, |h.data|, r.nxt);
        DistSub(x, r.nxt, |h.data| - Dist(r.nxt, h.at));
      }
    }
    assert forall j :: 0 <= j < NOOO ==> t.0.ooo[j].used ==> t.0.ooo[j] == r.ooo[j];
  }

  lemma FrontFits(r: Rcv, h: Held, x: u32)
    requires Fitting(r) && h.used && |h.data| <= OOOSEG && Dist(r.nxt, h.at) < |h.data| && Dist(x, r.nxt) <= RXQ
             && !Covers(h, x)
    ensures |h.data| - Dist(r.nxt, h.at) <= Dist(x, r.nxt)
  {
    hide Wrap, Dist;
    DistIs(x, r.nxt);
    DistAdd(r.nxt, h.at, Dist(x, r.nxt));
  }

  lemma {:induction false} PassFrees(r: Rcv, i: nat, x: u32)
    requires Fitting(r) && i <= NOOO && Edge(r, x)
    ensures var (r', moved) := Pass(r, i);
            Edge(r', x) && UsedFrom(r'.ooo, 0) <= UsedFrom(r.ooo, 0)
                && (moved ==> UsedFrom(r'.ooo, 0) < UsedFrom(r.ooo, 0))
    decreases NOOO - i
  {
    hide Turn, Edge;
    if i < NOOO {
      TurnFrees(r, i, x);
      var (r1, moved) := Turn(r, i);
      if moved { UsedLess(r.ooo, 0, i, r.ooo[i].(used := false)); }
      PassFrees(r1, i + 1, x);
    }
  }

  lemma {:induction false} EndsIn(r: Rcv, x: u32) returns (k: nat)
    requires Fitting(r) && Edge(r, x)
    ensures !Moves(Passes(r, k))
    decreases UsedFrom(r.ooo, 0)
  {
    hide Edge, Pass;
    PassFrees(r, 0, x);
    if Moves(r) {
      var l := EndsIn(Pass(r, 0).0, x);
      k := l + 1;
    } else {
      k := 0;
    }
  }

  /** With the window overrun every turn leaves it so. */
  lemma TurnKeeps(r: Rcv, i: nat)
    requires Fitting(r) && i < NOOO && Overrun(r)
    ensures Overrun(Turn(r, i).0) && (Covers(r.ooo[i], r.nxt) ==> Turn(r, i).1)
  {
    hide Wrap, Diff, Dist, SeqGt, SeqLe, Put;
    var h, r' := r.ooo[i], Turn(r, i).0;
    if h.used {
      Lies(h.at, |h.data|, r.nxt);
      if Dist(r.nxt, h.at) < |h.data| { Straddles(h.at, |h.data|, r.nxt); }
    }
    var n := r'.len - r.len;
    forall d: nat | d <= RXQ - r'.len ensures CoveredAt(r', d) {
      TurnCovers(r, i, n, d);
    }
  }

  lemma TurnCovers(r: Rcv, i: nat, n: nat, d: nat)
    requires Fitting(r) && i < NOOO && Overrun(r) && n == Turn(r, i).0.len - r.len && d <= RXQ - Turn(r, i).0.len
    ensures CoveredAt(Turn(r, i).0, d)
  {
    hide Wrap, Diff, Dist, SeqGt, SeqLe, Put;
    var h, r' := r.ooo[i], Turn(r, i).0;
    assert CoveredAt(r, n + d);
    var j :| 0 <= j < NOOO && Covers(r.ooo[j], Wrap(r.nxt + (n + d)));
    WrapAdd(r.nxt + n, d);
    WrapStill(r.nxt);
    assert r.nxt + n + d == r.nxt + (n + d);
    if h.used {
      Lies(h.at, |h.data|, r.nxt);
      if Dist(r.nxt, h.at) < |h.data| { Straddles(h.at, |h.data|, r.nxt); }
      if Dist(r.nxt, h.at) <= HALF { DistAdd(r.nxt, h.at, n + d); }
    }
    assert r'.ooo[j] == r.ooo[j];
  }

  lemma WrapStill(x: u32)
    ensures Wrap(x + 0) == x
  {
  }

  lemma {:induction false} PassKeeps(r: Rcv, i: nat)
    requires Fitting(r) && i <= NOOO && Overrun(r)
    ensures Overrun(Pass(r, i).0)
    ensures !Pass(r, i).1 ==> forall j :: i <= j < NOOO ==> !Covers(r.ooo[j], r.nxt)
    decreases NOOO - i
  {
    hide Overrun;
    if i < NOOO {
      TurnKeeps(r, i);
      Unmoved(r, i);
      PassKeeps(Turn(r, i).0, i + 1);
    }
  }

  lemma Unmoved(r: Rcv, i: nat)
    requires Fitting(r) && i < NOOO
    ensures !Turn(r, i).1 ==> Turn(r, i).0 == r
  {
    hide Wrap, Diff, Accepted;
  }

  lemma {:induction false} GoesOn(r: Rcv, k: nat)
    requires Fitting(r) && Overrun(r)
    ensures Moves(Passes(r, k))
    decreases k
  {
    hide Pass, Wrap;
    PassKeeps(r, 0);
    if k == 0 {
      WrapStill(r.nxt);
      assert CoveredAt(r, 0);
    } else {
      GoesOn(Pass(r, 0).0, k - 1);
    }
  }

  /** ooo_drain ends exactly if, somewhere from the byte expected next to the first one
      past the window, there is a byte not held. */
  lemma DrainEnds(r: Rcv)
    requires Fitting(r)
    ensures (exists k: nat :: !Moves(Passes(r, k))) <==> !Overrun(r)
  {
    hide Overrun, Moves, Passes, Edge;
    if Overrun(r) {
      forall k: nat ensures Moves(Passes(r, k)) { GoesOn(r, k); }
    } else {
      var x := EdgeIs(r);
      var k := EndsIn(r, x);
    }
  }

  // ---- a peer that keeps to the window

  lemma MidFits(r: Rcv, p: Peer)
    requires RecvMid(r, p)
    ensures Fitting(r)
  {
    forall i | 0 <= i < NOOO && r.ooo[i].used ensures |r.ooo[i].data| <= OOOSEG { assert HeldAt(r, p, i); }
  }

  /** Such a peer cannot overrun it. */
  lemma WindowEnds(r: Rcv, p: Peer)
    requires RecvMid(r, p) && !p.fin
    ensures Fitting(r) && !Overrun(r)
  {
    hide Wrap;
    MidFits(r, p);
    var d := RXQ - r.len;
    WrapAdd(r.irs + RcvPos(p), d);
    var x := Wrap(r.nxt + d);
    assert r.irs + RcvPos(p) + d == r.irs + (1 + p.taken + RXQ);
    forall i | 0 <= i < NOOO ensures !Covers(r.ooo[i], x) {
      assert HeldAt(r, p, i);
      if r.ooo[i].used { FlightIs(r.irs, 1 + p.taken + RXQ, 1 + p.offs[i]); }
    }
    assert !CoveredAt(r, d);
  }

  /** With the window respected a turn that makes progress lets the segment go. */
  lemma StepFrees(r: Rcv, p: Peer, i: nat)
    requires RecvMid(r, p) && i < NOOO && !p.fin
    ensures Fitting(r)
    ensures var h, off := r.ooo[i], p.offs[i];
            var (r', progress) := Turn(r, i);
            && (progress <==> h.used && off <= p.got) && (!progress ==> r' == r)
            && (progress ==> r'.ooo == r.ooo[i := h.(used := false)])
            && (progress ==> r'.len - r.len == if p.got < off + |h.data| then off + |h.data| - p.got else 0)
            && (h.used && !SeqGt(h.at, r.nxt) && !SeqLe(Wrap(h.at + |h.data|), r.nxt) <==>
                h.used && off <= p.got < off + |h.data|)
            && (h.used && off <= p.got < off + |h.data| ==> Diff(r.nxt, h.at) == p.got - off)
  {
    hide Wrap, Diff;
    MidFits(r, p);
    assert HeldAt(r, p, i);
    var h, off := r.ooo[i], p.offs[i];
    if h.used {
      Where(r, p, off, |h.data|);
      if off <= p.got < off + |h.data| { Fits(r, p, off + |h.data| - p.got); }
    }
  }

  // ---- a peer that does not

  /** A connection just open. */
  function Fresh(irs: u32): Rcv { Rcv(irs, Wrap(irs + 1), seq(RXQ, _ => 0), 0, seq(NOOO, _ => Held(false, 0, []))) }

  /** Two full segments ahead of the stream, and then the byte before them: 2401 bytes
      into a window of 2048, and the loop does not end. */
  lemma OverrunRun(irs: u32, a: seq<byte>, b: seq<byte>, c: byte)
    requires |a| == OOOSEG && |b| == OOOSEG
    ensures var r1 := Received(Fresh(irs), Wrap(irs + 2), a, true).0;
            var r2 := Received(r1, Wrap(irs + 2 + OOOSEG), b, true).0;
            var (r3, drains) := Received(r2, Wrap(irs + 1), [c], true);
            drains && forall k: nat :: Moves(Passes(r3, k))
  {
    hide Wrap, Diff, Moves, Passes, Overrun, Put;
    var r0 := Fresh(irs);
    RunCompares(irs);
    var r1 := Received(r0, Wrap(irs + 2), a, true).0;
    assert r1 == r0.(ooo := r0.ooo[0 := Held(true, Wrap(irs + 2), a)]);
    var r2 := Received(r1, Wrap(irs + 2 + OOOSEG), b, true).0;
    assert FirstFree(r1.ooo, 0) == 1 && !r1.ooo[1].used && !r1.ooo[2].used;
    assert r2 == r1.(ooo := r1.ooo[1 := Held(true, Wrap(irs + 2 + OOOSEG), b)]);
    var (r3, drains) := Received(r2, Wrap(irs + 1), [c], true);
    WrapAdd(irs + 1, 1);
    RunOverruns(irs, r3, a, b);
    forall k: nat ensures Moves(Passes(r3, k)) { GoesOn(r3, k); }
  }

  lemma RunCompares(irs: u32)
    ensures var nxt, s, t := Wrap(irs + 1), Wrap(irs + 2), Wrap(irs + 2 + OOOSEG);
            && !SeqLe(Wrap(s + OOOSEG), nxt) && !SeqLt(s, nxt) && s != nxt && t != s
            && !SeqLe(Wrap(t + OOOSEG), nxt) && !SeqLt(t, nxt) && t != nxt && !SeqLe(Wrap(nxt + 1), nxt)
            && !SeqLt(nxt, nxt)
  {
    hide Wrap, Diff, SeqLe, SeqLt;
    WrapAdd(irs + 2, OOOSEG);
    WrapAdd(irs + 2 + OOOSEG, OOOSEG);
    WrapAdd(irs + 1, 1);
    CompareIs(irs, 2, 1);
    CompareIs(irs, 2 + OOOSEG, 1);
    CompareIs(irs, 2 + OOOSEG + OOOSEG, 1);
    CompareIs(irs, 2 + OOOSEG, 2);
    CompareIs(irs, 1, 1);
    assert irs + 1 + 1 == irs + 2 && irs + (2 + OOOSEG) == irs + 2 + OOOSEG
        && irs + (2 + OOOSEG + OOOSEG) == irs + 2 + OOOSEG + OOOSEG;
  }

  lemma RunOverruns(irs: u32, r: Rcv, a: seq<byte>, b: seq<byte>)
    requires |a| == OOOSEG && |b| == OOOSEG && |r.ooo| == NOOO && r.len == 1 && r.nxt == Wrap(irs + 2)
    requires r.ooo[0] == Held(true, Wrap(irs + 2), a) && r.ooo[1] == Held(true, Wrap(irs + 2 + OOOSEG), b)
    ensures Overrun(r)
  {
    hide Wrap;
    forall d: nat | d <= RXQ - r.len ensures CoveredAt(r, d) {
      WrapAdd(irs + 2, d);
      if d < OOOSEG {
        FlightIs(irs + 2, d, 0);
        assert Covers(r.ooo[0], Wrap(r.nxt + d));
      } else {
        FlightIs(irs + 2, d, OOOSEG);
        assert Covers(r.ooo[1], Wrap(r.nxt + d));
      }
    }
  }
}
