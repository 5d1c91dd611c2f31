/** The receive side of a connection in src/net_ip.c: a read queue, and segments held
    aside until the gap before them closes. */
module TcpRecv {
  import opened Common
  import opened TcpSeq

  const RXQ: nat := 2048
  const NOOO: nat := 3
  const OOOSEG: nat := 1200

  datatype Held = Held(used: bool, at: u32, data: seq<byte>)

  datatype Rcv = Rcv(irs: u32, nxt: u32, rxq: seq<byte>, len: nat, ooo: seq<Held>)

  /** What only the proof knows: the peer's stream, how much of it was accepted and how
      much read, whether its FIN was consumed, and where each held segment belongs. */
  datatype Peer = Peer(str: seq<byte>, got: nat, taken: nat, fin: bool, offs: seq<nat>)

  /** The position after what was received; the peer's SYN is position 0. */
  function RcvPos(p: Peer): nat { 1 + p.got + if p.fin then 1 else 0 }

  ghost predicate HeldAt(r: Rcv, p: Peer, i: nat)
    requires i < |r.ooo| && i < |p.offs|
  {
    var h, off := r.ooo[i], p.offs[i];
    h.used ==>
        && h.data != [] && |h.data| <= OOOSEG && h.at == Wrap(r.irs + (1 + off)) && off + |h.data| <= |p.str|
        && h.data == p.str[off..off + |h.data|]
               && p.taken <= off && off + |h.data| <= p.taken + RXQ
  }

  /** The queue is exactly the part of the stream accepted and not yet read. */
  ghost predicate QueueOk(r: Rcv, p: Peer) {
    && |r.rxq| == RXQ && p.taken <= p.got <= |p.str| && r.len == p.got - p.taken <= RXQ
    && r.rxq[..r.len] == p.str[p.taken..p.got]
    && r.nxt == Wrap(r.irs + RcvPos(p)) && (p.fin ==> p.got == |p.str|)
    && |r.ooo| == NOOO && |p.offs| == NOOO
  }

  ghost predicate RecvMid(r: Rcv, p: Peer) {
    QueueOk(r, p) && forall i {:trigger HeldAt(r, p, i)} :: 0 <= i < NOOO ==> HeldAt(r, p, i)
  }

  /** Nothing is held that could have been delivered. */
  ghost predicate Settled(r: Rcv, p: Peer)
    requires |r.ooo| == NOOO && |p.offs| == NOOO
  {
    forall i :: 0 <= i < NOOO && r.ooo[i].used ==> p.got < p.offs[i]
  }

  ghost predicate RecvOk(r: Rcv, p: Peer) {
    RecvMid(r, p) && Settled(r, p)
  }

  /** A segment is a slice of the peer's stream, inside the window it was told of. */
  ghost predicate Arrives(r: Rcv, p: Peer, seqNo: u32, data: seq<byte>, off: nat) {
    && seqNo == Wrap(r.irs + (1 + off)) && off + |data| <= |p.str| && data == p.str[off..off + |data|]
    && off + |data| <= p.taken + RXQ && p.taken - off < HALF - 2 * RXQ
  }

  // ---- where a segment lies

  lemma Where(r: Rcv, p: Peer, off: nat, len: nat)
    requires QueueOk(r, p) && off + len <= p.taken + RXQ && p.taken - off < HALF - 2 * RXQ
    ensures var s := Wrap(r.irs + (1 + off));
            && (SeqGt(s, r.nxt) <==> 1 + off > RcvPos(p)) && (SeqLt(s, r.nxt) <==> 1 + off < RcvPos(p))
            && (s == r.nxt <==> 1 + off == RcvPos(p)) && Diff(r.nxt, s) == RcvPos(p) - (1 + off)
            && (SeqLe(Wrap(s + len), r.nxt) <==> 1 + off + len <= RcvPos(p))
            && (Wrap(s + len) == r.nxt <==> 1 + off + len == RcvPos(p))
  {
    hide Wrap, Diff;
    var s := Wrap(r.irs + (1 + off));
    CompareIs(r.irs, 1 + off, RcvPos(p));
    DiffIs(r.irs, RcvPos(p), 1 + off);
    WrapAdd(r.irs + (1 + off), len);
    assert r.irs + (1 + off) + len == r.irs + (1 + off + len);
    CompareIs(r.irs, 1 + off + len, RcvPos(p));
  }

  lemma Cut(s: seq<byte>, a: nat, b: nat, m: nat, n: nat)
    requires a <= b <= |s| && m <= n <= b - a
    ensures s[a..b][m..n] == s[a + m..a + n] && s[a..b][..n] == s[a..a + n]
  {
    forall i | 0 <= i < n - m ensures s[a..b][m..n][i] == s[a + m..a + n][i] { }
    assert |s[a..b][m..n]| == |s[a + m..a + n]|;
    assert s[a..b][..n] == s[a..a + n];
  }

  lemma Joined(s: seq<byte>, a: nat, b: nat, c: nat)
    requires a <= b <= c <= |s|
    ensures s[a..c] == s[a..b] + s[b..c]
  {
  }

  // ---- accepting

  /** How many of len bytes the queue takes. */
  function Room(queued: nat, len: nat): nat
    requires queued <= RXQ
  {
    if len < RXQ - queued then len else RXQ - queued
  }

  lemma QueueAccept(r: Rcv, p: Peer, data: seq<byte>, n: nat, rxq: seq<byte>)
    requires QueueOk(r, p) && !p.fin && p.got + |data| <= |p.str| && data == p.str[p.got..p.got + |data|]
             && n == Room(r.len, |data|)
    requires |rxq| == RXQ && rxq[..r.len] == r.rxq[..r.len] && rxq[r.len..r.len + n] == data[..n]
    ensures QueueOk(r.(rxq := rxq, len := r.len + n, nxt := Wrap(r.nxt + n)), p.(got := p.got + n))
  {
    hide Wrap;
    var p' := p.(got := p.got + n);
    WrapAdd(r.irs + RcvPos(p), n);
    assert r.irs + RcvPos(p) + n == r.irs + RcvPos(p');
    Joined(rxq, 0, r.len, r.len + n);
    Cut(p.str, p.got, p.got + |data|, 0, n);
    Joined(p.str, p.taken, p.got, p.got + n);
    assert rxq[0..r.len + n] == rxq[..r.len + n] && rxq[0..r.len] == rxq[..r.len];
  }

  lemma AfterAccept(r: Rcv, p: Peer, data: seq<byte>, n: nat, rxq: seq<byte>)
    requires RecvMid(r, p) && !p.fin && p.got + |data| <= |p.str| && data == p.str[p.got..p.got + |data|]
             && n == Room(r.len, |data|)
    requires |rxq| == RXQ && rxq[..r.len] == r.rxq[..r.len] && rxq[r.len..r.len + n] == data[..n]
    ensures RecvMid(r.(rxq := rxq, len := r.len + n, nxt := Wrap(r.nxt + n)), p.(got := p.got + n))
  {
    hide Wrap;
    var r', p' := r.(rxq := rxq, len := r.len + n, nxt := Wrap(r.nxt + n)), p.(got := p.got + n);
    QueueAccept(r, p, data, n, rxq);
    forall i | 0 <= i < NOOO ensures HeldAt(r', p', i) { assert HeldAt(r, p, i); }
  }

  /** Everything inside the window fits. */
  lemma Fits(r: Rcv, p: Peer, len: nat)
    requires QueueOk(r, p) && p.got + len <= p.taken + RXQ
    ensures Room(r.len, len) == len
  {
  }

  // ---- one held segment

  lemma HeldGone(r: Rcv, p: Peer, i: nat)
    requires RecvMid(r, p) && i < NOOO
    ensures RecvMid(r.(ooo := r.ooo[i := r.ooo[i].(used := false)]), p)
  {
    var r' := r.(ooo := r.ooo[i := r.ooo[i].(used := false)]);
    forall j | 0 <= j < NOOO ensures HeldAt(r', p, j) { assert HeldAt(r, p, j); }
  }

  lemma HeldNew(r: Rcv, p: Peer, i: nat, seqNo: u32, data: seq<byte>, off: nat)
    requires RecvOk(r, p) && i < NOOO && Arrives(r, p, seqNo, data, off) && data != [] && p.got < off
    ensures var d := if |data| <= OOOSEG then data else data[..OOOSEG];
            RecvOk(r.(ooo := r.ooo[i := Held(true, seqNo, d)]), p.(offs := p.offs[i := off]))
  {
    hide Wrap;
    var d := if |data| <= OOOSEG then data else data[..OOOSEG];
    var r', p' := r.(ooo := r.ooo[i := Held(true, seqNo, d)]), p.(offs := p.offs[i := off]);
    NewAt(r', p', i, seqNo, data, off);
    forall j | 0 <= j < NOOO && j != i ensures HeldAt(r', p', j) { assert HeldAt(r, p, j); }
  }

  lemma NewAt(r: Rcv, p: Peer, i: nat, seqNo: u32, data: seq<byte>, off: nat)
    requires i < |r.ooo| && i < |p.offs| && p.taken <= off && Arrives(r, p, seqNo, data, off) && data != []
    requires p.offs[i] == off
    requires r.ooo[i] == Held(true, seqNo, if |data| <= OOOSEG then data else data[..OOOSEG])
    ensures HeldAt(r, p, i)
  {
    hide Wrap;
    Cut(p.str, off, off + |data|, 0, |r.ooo[i].data|);
  }

  /** The peer's FIN, where the stream has got to. */
  lemma AfterPeerFin(r: Rcv, p: Peer)
    requires RecvOk(r, p) && !p.fin && p.got == |p.str|
    ensures RecvOk(r.(nxt := Wrap(r.nxt + 1)), p.(fin := true))
  {
    hide Wrap;
    var r', p' := r.(nxt := Wrap(r.nxt + 1)), p.(fin := true);
    WrapAdd(r.irs + RcvPos(p), 1);
    assert r.irs + RcvPos(p) + 1 == r.irs + RcvPos(p');
    forall j | 0 <= j < NOOO ensures HeldAt(r', p', j) { assert HeldAt(r, p, j); }
  }

  /** Reading n bytes. */
  lemma AfterTake(r: Rcv, p: Peer, n: nat, rxq: seq<byte>)
    requires RecvOk(r, p) && n <= r.len && |rxq| == RXQ && rxq[..r.len - n] == r.rxq[n..r.len]
    ensures RecvOk(r.(rxq := rxq, len := r.len - n), p.(taken := p.taken + n))
            && r.rxq[..n] == p.str[p.taken..p.taken + n]
  {
    hide Wrap;
    var r', p' := r.(rxq := rxq, len := r.len - n), p.(taken := p.taken + n);
    Cut(r.rxq, 0, r.len, n, r.len);
    Cut(r.rxq, 0, r.len, 0, n);
    Cut(p.str, p.taken, p.got, n, r.len);
    Cut(p.str, p.taken, p.got, 0, n);
    assert r.rxq[0..r.len] == r.rxq[..r.len];
    forall j | 0 <= j < NOOO ensures HeldAt(r', p', j) { assert HeldAt(r, p, j); }
  }

  function UsedFrom(ooo: seq<Held>, i: nat): nat
    requires i <= |ooo|
    decreases |ooo| - i
  {
    if i == |ooo| then 0 else (if ooo[i].used then 1 else 0) + UsedFrom(ooo, i + 1)
  }

  lemma {:induction false} UsedLess(ooo: seq<Held>, j: nat, i: nat, h: Held)
    requires j <= i < |ooo| && ooo[i].used && !h.used
    ensures UsedFrom(ooo[i := h], j) == UsedFrom(ooo, j) - 1
    decreases i - j
  {
    if j < i { UsedLess(ooo, j + 1, i, h); } else { UsedSame(ooo, ooo[i := h], i + 1); }
  }

  lemma {:induction false} UsedSame(a: seq<Held>, b: seq<Held>, i: nat)
    requires i <= |a| == |b| && forall k :: i <= k < |a| ==> a[k] == b[k]
    ensures UsedFrom(a, i) == UsedFrom(b, i)
    decreases |a| - i
  {
    if i < |a| { UsedSame(a, b, i + 1); }
  }
}
