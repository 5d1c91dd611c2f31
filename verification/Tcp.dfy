/** One TCP connection of src/net_ip.c: struct tcb and the routines that update it. Time
    and whether the next hop's address is known come from outside, as parameters. */
module Tcp {
  import opened Common
  import opened TcpSeq
  import opened TcpSend
  import opened TcpRecv
  import opened TcpDrain

  const RTO_MIN: nat := 200
  const RTO_MAX: nat := 8000
  const RTO_INITIAL: nat := 300
  const RTO_TRIES: nat := 5
  const TIME_WAIT_MS: nat := 2000

  datatype State = Free | SynSent | SynRcvd | Established | FinWait1 | FinWait2 | Closing | TimeWait | CloseWait
      | LastAck

  /** A control segment that could not be addressed. */
  datatype Pending = Nothing | Control(syn: bool)

  /** A segment as tcp_segment reads it. */
  datatype Segment = Segment(syn: bool, ack: bool, fin: bool, rst: bool, at: u32, ackNo: u32, wnd: nat,
      opts: seq<byte>, data: seq<byte>)

  datatype Outcome = Kept | Reset | GaveUp | Closed

  /** What the state says about our FIN (n bytes were written) and the peer's. */
  ghost predicate StateOk(state: State, fin: bool, una: nat, nxt: nat, n: nat, peerFin: bool) {
    && (fin <==> state in {FinWait1, FinWait2, Closing, TimeWait, LastAck})
    && (peerFin <==> state in {CloseWait, LastAck, Closing, TimeWait})
    && (state in {FinWait2, TimeWait} ==> una == n + 2)
    && (state in {SynSent, SynRcvd} ==> nxt <= 1 && n == 0)
  }

  /** A connection that has only called may as well have been called. */
  lemma Calling(fin: bool, una: nat, nxt: nat, n: nat, peerFin: bool)
    requires StateOk(SynSent, fin, una, nxt, n, peerFin)
    ensures StateOk(SynRcvd, fin, una, nxt, n, peerFin) && !peerFin
  {
  }

  /** Nothing received yet. */
  ghost predicate Idle(r: Rcv, p: Peer) {
    |r.rxq| == RXQ && r.len == 0 && |r.ooo| == NOOO && (forall i :: 0 <= i < NOOO ==> !r.ooo[i].used)
        && p == Peer(p.str, 0, 0, false, [0, 0, 0])
  }

  lemma IdleOpens(r: Rcv, p: Peer, irs: u32)
    requires Idle(r, p)
    ensures RecvOk(r.(irs := irs, nxt := Wrap(irs + 1)), p)
  {
    var r' := r.(irs := irs, nxt := Wrap(irs + 1));
    forall j | 0 <= j < NOOO ensures HeldAt(r', p, j) { }
  }

  /** The retransmission timer and the round-trip estimate; at 0 the timer is off. */
  datatype Timer = Timer(at: nat, tries: nat, pending: Pending, rto: nat, srtt: int, rttvar: int, timing: bool,
      timed: u32, since: nat)

  /** There are bytes written that were not sent since the last rewind. */
  predicate Unsent(s: Snd, nxt: nat, w: seq<byte>) { 1 + |w| - s.len <= nxt <= |w| }

  /** What rcv_data makes of a segment: what it accepts or holds, and then as many passes
      over the held segments as make progress. */
  ghost predicate Took(r: Rcv, r': Rcv, at: u32, data: seq<byte>, room: bool) {
    && Fitting(r) && |data| < HALF
    && var (r1, drains) := Received(r, at, data, room);
       if drains then exists k: nat :: r' == Passes(r1, k) && !Moves(Passes(r1, k)) else r' == r1
  }

  /** Half of what is in flight, and at least two segments. */
  function Threshold(flight: u32): (r: nat)
    ensures 2 * MSS <= r && (flight <= 65535 ==> r <= 65535)
  {
    if flight / 2 > 2 * MSS then flight / 2 else 2 * MSS
  }

  /** Slow start, then congestion avoidance. */
  function Wider(cwnd: nat, ssthresh: nat): (r: nat)
    requires 1 <= cwnd
    ensures 1 <= r <= 65535
  {
    var w := if cwnd < ssthresh then cwnd + MSS else cwnd + MSS * MSS / cwnd;
    if w > 65535 then 65535 else w
  }

  /** The only option the stack reads. */
  method ParseOptions(o: seq<byte>, peer: nat) returns (m: nat)
    requires 1 <= peer
    ensures m == peer || 128 <= m <= 1460
  {
    m := peer;
    var i := 0;
    while i < |o|
      invariant i >= 0 && (m == peer || 128 <= m <= 1460)
      decreases |o| - i
    {
      if o[i] == 0 { break; }
      if o[i] == 1 { i := i + 1; continue; }
      if i + 1 >= |o| || o[i + 1] < 2 { break; }
      if o[i] == 2 && o[i + 1] == 4 && i + 4 <= |o| {
        var hi: int, lo: int := o[i + 2], o[i + 3];
        if 128 <= hi * 0x100 + lo <= 1460 { m := hi * 0x100 + lo; }
      }
      i := i + o[i + 1];
    }
  }

  lemma WireIs(s: Snd, una: nat, nxt: nat, w: seq<byte>)
    requires SendOk(s, una, nxt, w)
    ensures s.nxt == Wrap(s.iss + nxt)
  {
  }

  lemma IssIs(iss: u32)
    ensures iss == Wrap(iss + 0)
  {
  }

  lemma SynAt(s: Snd, una: nat, nxt: nat, w: seq<byte>)
    requires SendOk(s, una, nxt, w) && w == []
    ensures (SeqLt(s.nxt, s.base) <==> nxt == 0) && una <= nxt
  {
    hide Diff, Wrap;
    Numbers(s, una, nxt, w);
  }

  lemma LenFits(s: Snd, una: nat, nxt: nat, w: seq<byte>)
    requires SendOk(s, una, nxt, w)
    ensures |s.buf| == SNDBUF && s.len <= SNDBUF && s.len <= |w| && nxt <= |w| + 2
  {
  }

  lemma FinQueued(s: Snd, una: nat, nxt: nat, w: seq<byte>)
    requires SendOk(s, una, nxt, w)
    ensures SendOk(s.(fin := true), una, nxt, w)
  {
  }

  lemma AckedAll(s: Snd, una: nat, nxt: nat, w: seq<byte>)
    requires SendOk(s, una, nxt, w)
    ensures una <= nxt <= |w| + 2
  {
  }

  // ---- small facts about the receive side

  lemma QueueFits(r: Rcv, p: Peer)
    requires RecvMid(r, p)
    ensures |r.rxq| == RXQ && r.len <= RXQ && |r.ooo| == NOOO && |p.offs| == NOOO
  {
  }

  lemma OooSize(r: Rcv, p: Peer)
    requires RecvMid(r, p)
    ensures |r.ooo| == NOOO && |p.offs| == NOOO
  {
  }

  lemma OooSize2(r: Rcv, p: Peer)
    requires RecvOk(r, p)
    ensures |r.ooo| == NOOO && |p.offs| == NOOO
  {
  }

  lemma NoPass(r: Rcv)
    requires Fitting(r)
    ensures Passes(r, 0) == r
  {
  }

  /** One more pass at the end. */
  lemma {:induction false} OnePass(r: Rcv, k: nat)
    requires Fitting(r)
    ensures Passes(r, k + 1) == Pass(Passes(r, k), 0).0
    decreases k
  {
    hide Pass;
    if k > 0 { OnePass(Pass(r, 0).0, k - 1); }
  }

  lemma MidOk(r: Rcv, p: Peer)
    requires RecvOk(r, p)
    ensures RecvMid(r, p)
  {
  }

  /** The part of a held segment not yet accepted. */
  lemma HeldPart(r: Rcv, p: Peer, i: nat)
    requires RecvMid(r, p) && i < NOOO
    ensures var h, off := r.ooo[i], p.offs[i];
            h.used && off <= p.got < off + |h.data| ==>
              && p.got + (off + |h.data| - p.got) <= |p.str| && h.data[p.got - off..] == p.str[p.got..off + |h.data|]
              && Room(r.len, off + |h.data| - p.got) == off + |h.data| - p.got
  {
    assert HeldAt(r, p, i);
    var h, off := r.ooo[i], p.offs[i];
    if h.used && off <= p.got < off + |h.data| {
      assert p.str[off..off + |h.data|][p.got - off..] == p.str[p.got..off + |h.data|];
    }
  }

  lemma ArrivesAt(r: Rcv, p: Peer, at: u32, data: seq<byte>, off: nat)
    requires RecvOk(r, p) && Arrives(r, p, at, data, off)
    ensures (SeqLe(Wrap(at + |data|), r.nxt) <==> 1 + off + |data| <= RcvPos(p))
            && (SeqLt(at, r.nxt) <==> 1 + off < RcvPos(p))
    ensures (at == r.nxt <==> 1 + off == RcvPos(p)) && Diff(r.nxt, at) == RcvPos(p) - (1 + off)
            && (Wrap(at + |data|) == r.nxt <==> 1 + off + |data| == RcvPos(p))
    ensures p.fin ==> p.got == |p.str|
    ensures off + |data| <= |p.str|
  {
    hide Wrap, Diff;
    Where(r, p, off, |data|);
  }

  lemma ArrivesTail(r: Rcv, p: Peer, at: u32, data: seq<byte>, off: nat, skip: int)
    requires RecvOk(r, p) && Arrives(r, p, at, data, off) && !p.fin && skip == RcvPos(p) - (1 + off)
             && 0 < skip < |data|
    ensures Arrives(r, p, r.nxt, data[skip..], off + skip)
  {
    hide Wrap;
    assert r.irs + (1 + (off + skip)) == r.irs + RcvPos(p);
    assert p.str[off..off + |data|][skip..] == p.str[off + skip..off + |data|];
  }

  lemma WindowFits(r: Rcv, p: Peer, at: u32, data: seq<byte>, off: nat)
    requires RecvOk(r, p) && Arrives(r, p, at, data, off) && off == p.got
    ensures p.got + |data| <= |p.str| && data == p.str[p.got..p.got + |data|] && r.len <= RXQ
            && Room(r.len, |data|) == |data|
  {
    Fits(r, p, |data|);
  }

  lemma IdleKeeps(r: Rcv, p: Peer, irs: u32)
    requires Idle(r, p)
    ensures Idle(r.(irs := irs, nxt := Wrap(irs + 1)), p) && !p.fin
  {
  }

  lemma SynRewind(s: Snd, una: nat, nxt: nat, w: seq<byte>)
    requires SendOk(s, una, nxt, w) && una == 0 && !s.fin
    ensures SendOk(s.(nxt := s.iss), 0, 0, w)
  {
  }

  /** fin_sent together with nothing outstanding means the peer has everything: every
      byte written, and our FIN, however often they had to be sent. */
  lemma AllAcked(s: Snd, una: nat, nxt: nat, w: seq<byte>)
    requires SendOk(s, una, nxt, w)
    ensures s.una == s.nxt <==> una == nxt
    ensures s.finSent && una == nxt ==> una == |w| + 2
  {
    hide Wrap, Diff;
    Numbers(s, una, nxt, w);
  }

  lemma FinWhere(r0: Rcv, p0: Peer, r: Rcv, p: Peer, at: u32, data: seq<byte>, off: nat)
    requires Arrives(r0, p0, at, data, off) && RecvOk(r, p) && r.irs == r0.irs && p.str == p0.str && p.taken == p0.taken
    requires off + |data| == |p.str| && Wrap(at + |data|) == r.nxt
    ensures !p.fin && p.got == |p.str|
  {
    hide Wrap;
    Where(r, p, off, |data|);
  }

  class Tcb {
    var state: State
    var out: Snd
    var inn: Rcv
    var tm: Timer
    var sndWnd: nat
    var peerMss: nat
    var cwnd: nat
    var ssthresh: nat
    var dupacks: nat
    var twAt: nat

    /** Every byte the program wrote, the positions in it of snd_una and snd_nxt, every
        segment handed to the card, and the peer's side of things. */
    ghost var written: seq<byte>
    ghost var una: nat
    ghost var nxt: nat
    ghost var sent: seq<Sent>
    ghost var peer: Peer

    ghost predicate SendSide()
      reads this
    {
      SendOk(out, una, nxt, written) && AllSent(out.iss, out.fin, written, sent) && 1 <= peerMss && 1 <= cwnd <= 65535
          && RTO_MIN <= tm.rto <= RTO_MAX
    }

    ghost predicate RecvSide()
      reads this
    {
      if state == SynSent then Idle(inn, peer) else RecvOk(inn, peer)
    }

    ghost predicate Ok()
      reads this
    {
      && SendSide() && RecvSide() && StateOk(state, out.fin, una, nxt, |written|, peer.fin)
      && (state == SynSent ==> una == 0) && (twAt != 0 ==> state == TimeWait)
    }

    /** tcp_connect, up to the first tcp_output. */
    constructor Connect(isn: u32, ghost str: seq<byte>)
      ensures Ok() && state == SynSent && written == [] && sent == [] && peer.str == str
    {
      state, sndWnd, peerMss, cwnd, ssthresh, dupacks, twAt := SynSent, 0, 536, 2 * MSS, 64 * 1024, 0, 0;
      out := Snd(isn, isn, isn, Wrap(isn + 1), seq(SNDBUF, _ => 0), 0, false, false);
      inn := Rcv(0, 0, seq(RXQ, _ => 0), 0, seq(NOOO, _ => Held(false, 0, [])));
      tm := Timer(0, 0, Nothing, RTO_INITIAL, -1, 0, false, 0, 0);
      written, una, nxt, sent, peer := [], 0, 0, [], Peer(str, 0, 0, false, [0, 0, 0]);
    }

    /** A SYN on a listening port: the new block, up to its tcp_output. */
    constructor Passive(syn: Segment, isn: u32, ghost str: seq<byte>)
      ensures Ok() && state == SynRcvd && written == [] && sent == [] && peer.str == str && inn.irs == syn.at
              && inn.nxt == Wrap(syn.at + 1)
    {
      var m := ParseOptions(syn.opts, 536);
      state, sndWnd, peerMss, cwnd, ssthresh, dupacks, twAt := SynRcvd, syn.wnd, m, 2 * MSS, 64 * 1024, 0, 0;
      out := Snd(isn, isn, isn, Wrap(isn + 1), seq(SNDBUF, _ => 0), 0, false, false);
      inn := Rcv(syn.at, Wrap(syn.at + 1), seq(RXQ, _ => 0), 0, seq(NOOO, _ => Held(false, 0, [])));
      tm := Timer(0, 0, Nothing, RTO_INITIAL, -1, 0, false, 0, 0);
      written, una, nxt, sent, peer := [], 0, 0, [], Peer(str, 0, 0, false, [0, 0, 0]);
      new;
      assert forall j :: 0 <= j < NOOO ==> HeldAt(inn, peer, j);
    }

    // ---- sending

    /** The record of a segment that goes out now. */
    ghost function Stamp(wire: u32, pos: nat, bytes: seq<byte>, fin: bool): Sent
      reads this
    {
      Sent(wire, pos, bytes, fin, una, sndWnd, cwnd)
    }

    /** seg_xmit; the segment goes on record if it went out. */
    method SegXmit(wire: u32, syn: bool, fin: bool, bytes: seq<byte>, up: bool, now: nat, ghost pos: nat)
        returns (ok: bool)
      modifies this`tm, this`sent
      ensures ok == up && sent == if up then old(sent) + [old(Stamp(wire, pos, bytes, fin))] else old(sent)
      ensures tm == if up then old(tm).(pending := Nothing)
              else if bytes == [] then old(tm).(pending := Control(syn), at := now + RTO_INITIAL) else old(tm)
    {
      if !up {
        if bytes == [] { tm := tm.(pending := Control(syn), at := now + RTO_INITIAL); }
        return false;
      }
      tm := tm.(pending := Nothing);
      sent := sent + [Stamp(wire, pos, bytes, fin)];
      ok := true;
    }

    method TimerStart(now: nat)
      modifies this`tm
      ensures tm == if old(tm).at == 0 then old(tm).(at := now + old(tm).rto) else old(tm)
    {
      if tm.at == 0 { tm := tm.(at := now + tm.rto); }
    }

    method SendAck(up: bool, now: nat)
      requires SendSide()
      modifies this`tm, this`sent
      ensures SendSide() && old(sent) <= sent
    {
      hide SendOk;
      WireIs(out, una, nxt, written);
      SentOne(out.iss, out.fin, written, sent, Stamp(out.nxt, nxt, [], false));
      var ok := SegXmit(out.nxt, false, false, [], up, now, nxt);
    }

    /** One turn of the loop of tcp_output. */
    method PushOne(usable: nat, up: bool, now: nat) returns (n: nat)
      requires SendSide() && (usable > 0 ==> nxt + usable <= una + Least(sndWnd, cwnd))
      modifies this`out, this`nxt, this`sent, this`tm
      ensures SendSide() && n <= usable && nxt == old(nxt) + n && out == old(out).(nxt := out.nxt)
              && (n > 0 ==> nxt <= |written| + 1)
      ensures old(sent) <= sent && (up && n == 0 ==> usable == 0 || !Unsent(out, nxt, written))
    {
      hide SendOk, AllSent, Wrap, Diff;
      Numbers(out, una, nxt, written);
      LenFits(out, una, nxt, written);
      var off := Diff(out.nxt, out.base);
      var avail := out.len - off;
      if off < 0 || avail <= 0 || usable == 0 { return 0; }
      n := Least(Least(avail, peerMss), usable);
      SliceIs(out, una, nxt, written, off, n);
      WireIs(out, una, nxt, written);
      SentOne(out.iss, out.fin, written, sent, Stamp(out.nxt, nxt, out.buf[off..off + n], false));
      var ok := SegXmit(out.nxt, false, false, out.buf[off..off + n], up, now, nxt);
      if !ok { return 0; }
      if !tm.timing {
        tm := tm.(timing := true, timed := Wrap(out.nxt + n - 1), since := now);
      }
      AfterData(out, una, nxt, written, n);
      out := out.(nxt := Wrap(out.nxt + n));
      nxt := nxt + n;
      TimerStart(now);
    }

    /** The loop of tcp_output: data, as far as the window and the segment size allow. */
    method PushData(up: bool, now: nat)
      requires SendSide()
      modifies this`out, this`nxt, this`sent, this`tm
      ensures up ==> una + Least(sndWnd, cwnd) <= nxt || !Unsent(out, nxt, written)
      ensures SendSide() && old(sent) <= sent && old(nxt) <= nxt && out == old(out).(nxt := out.nxt)
              && (old(nxt) < nxt ==> nxt <= |written| + 1)
    {
      hide SendOk, AllSent, Wrap, Diff;
      Numbers(out, una, nxt, written);
      var inflight := Wrap(out.nxt - out.una);
      var allowed := Least(sndWnd, cwnd);
      var usable: nat := if allowed > inflight then allowed - inflight else 0;
      while true
        invariant SendSide() && old(sent) <= sent && old(nxt) <= nxt && out == old(out).(nxt := out.nxt)
                  && (old(nxt) < nxt ==> nxt <= |written| + 1)
        invariant (usable > 0 ==> nxt + usable <= una + allowed) && una + allowed <= nxt + usable
        decreases usable
      {
        var n := PushOne(usable, up, now);
        if n == 0 {
          assert up ==> una + allowed <= nxt || !Unsent(out, nxt, written);
          break;
        }
        usable := usable - n;
      }
    }

    method SendSyn(up: bool, now: nat)
      requires SendSide() && nxt <= 1 && !out.fin && written == []
      modifies this`out, this`nxt, this`sent, this`tm
      ensures SendSide() && old(sent) <= sent && old(nxt) <= nxt <= 1 && out == old(out).(nxt := out.nxt)
    {
      hide SendOk, AllSent, Wrap, Diff, SeqLt;
      SynAt(out, una, nxt, written);
      if SeqLt(out.nxt, out.base) {
        IssIs(out.iss);
        SentOne(out.iss, out.fin, written, sent, Stamp(out.iss, 0, [], false));
        AfterSyn(out, nxt, written);
        var ok := SegXmit(out.iss, true, false, [], up, now, 0);
        if ok {
          out := out.(nxt := out.base);
          nxt := 1;
          TimerStart(now);
        }
      }
    }

    method SendFin(up: bool, now: nat)
      requires SendSide()
      modifies this`out, this`nxt, this`sent, this`tm
      ensures SendSide() && old(sent) <= sent && nxt in {old(nxt), |written| + 2} && old(nxt) <= nxt
              && out == old(out).(nxt := out.nxt, finSent := out.finSent)
    {
      hide SendOk, AllSent, Wrap, Diff;
      Numbers(out, una, nxt, written);
      if out.fin && !out.finSent && out.nxt == Wrap(out.base + out.len) {
        WireIs(out, una, nxt, written);
        SentOne(out.iss, out.fin, written, sent, Stamp(out.nxt, nxt, [], true));
        AfterFin(out, una, nxt, written);
        var ok := SegXmit(out.nxt, false, true, [], up, now, nxt);
        if ok {
          out := out.(nxt := Wrap(out.nxt + 1), finSent := true);
          nxt := nxt + 1;
          TimerStart(now);
        }
      }
    }

    /** tcp_output. */
    method Output(up: bool, now: nat)
      requires SendSide() && StateOk(state, out.fin, una, nxt, |written|, peer.fin)
      modifies this`out, this`nxt, this`sent, this`tm
      ensures SendSide() && StateOk(state, out.fin, una, nxt, |written|, peer.fin) && old(sent) <= sent
              && old(nxt) <= nxt
      ensures out == old(out).(nxt := out.nxt, finSent := out.finSent)
      ensures up && state !in {SynSent, SynRcvd, Free, TimeWait} ==>
              una + Least(sndWnd, cwnd) <= nxt || !Unsent(out, nxt, written)
    {
      hide SendOk, AllSent;
      if state in {SynSent, SynRcvd} {
        SendSyn(up, now);
      } else if state !in {Free, TimeWait} {
        PushData(up, now);
        SendFin(up, now);
      }
    }

    /** tcp_write, which the file layer calls in these two states only. */
    method Write(data: seq<byte>, up: bool, now: nat) returns (n: nat)
      requires Ok() && state in {Established, CloseWait}
      modifies this`out, this`nxt, this`sent, this`tm, this`written
      ensures Ok() && n == Least(|data|, SNDBUF - old(out).len) && written == old(written) + data[..n]
              && old(sent) <= sent
      ensures up && n > 0 ==> una + Least(sndWnd, cwnd) <= nxt || !Unsent(out, nxt, written)
    {
      hide SendOk, AllSent, RecvOk, Idle;
      LenFits(out, una, nxt, written);
      n := Least(|data|, SNDBUF - out.len);
      if n == 0 { return; }
      var buf := Append(out.buf, out.len, data[..n]);
      AfterWrite(out, una, nxt, written, buf, data[..n]);
      SentStill(out.iss, written, data[..n], sent);
      out := out.(buf := buf, len := out.len + n);
      written := written + data[..n];
      Output(up, now);
    }

    /** tcp_close on a connection that is up. */
    method Close(up: bool, now: nat)
      requires Ok() && state != SynSent
      modifies this`out, this`nxt, this`sent, this`tm, this`state
      ensures Ok() && old(sent) <= sent
      ensures state == match old(state) case Established => FinWait1 case CloseWait => LastAck case s => s
    {
      hide SendOk, AllSent, RecvOk;
      if state in {Established, CloseWait} {
        FinQueued(out, una, nxt, written);
        SentFin(out.iss, written, sent);
        out := out.(fin := true);
        state := if state == Established then FinWait1 else LastAck;
        Output(up, now);
      }
    }

    // ---- acknowledgements

    /** Jacobson's estimate, kept between its bounds. */
    method RttUpdate(m: int)
      modifies this`tm
      ensures RTO_MIN <= tm.rto <= RTO_MAX && tm == old(tm).(srtt := tm.srtt, rttvar := tm.rttvar, rto := tm.rto)
    {
      var m1 := if m < 1 then 1 else m;
      if tm.srtt < 0 {
        tm := tm.(srtt := m1, rttvar := m1 / 2);
      } else {
        var err := if m1 - tm.srtt < 0 then tm.srtt - m1 else m1 - tm.srtt;
        tm := tm.(rttvar := (3 * tm.rttvar + err) / 4, srtt := (7 * tm.srtt + m1) / 8);
      }
      var t := tm.srtt + 4 * tm.rttvar;
      tm := tm.(rto := if t < RTO_MIN then RTO_MIN else if t > RTO_MAX then RTO_MAX else t);
    }

    /** Back to the oldest unacknowledged position, to send it all again. */
    method Rewind()
      requires SendSide()
      modifies this`ssthresh, this`out, this`nxt, this`tm
      ensures SendSide() && nxt == una && !out.finSent && 2 * MSS <= ssthresh <= 65535
      ensures out == old(out).(nxt := out.una, finSent := false) && tm == old(tm).(timing := false)
    {
      hide SendOk, AllSent, Wrap;
      Numbers(out, una, nxt, written);
      Near(out, una, nxt, written);
      AfterRewind(out, una, nxt, written);
      ssthresh := Threshold(Wrap(out.nxt - out.una));
      out := out.(nxt := out.una, finSent := false);
      nxt := una;
      tm := tm.(timing := false);
    }

    /** The acknowledged bytes leave the send buffer. */
    method DropAcked(ack: u32, ghost a: nat)
      requires SendSide() && una < a <= nxt && ack == Wrap(out.iss + a)
      requires Diff(ack, out.base) == a - (1 + |written| - out.len)
               && (SeqGt(ack, out.base) <==> a > 1 + |written| - out.len)
      modifies this`out, this`una
      ensures SendSide() && una == a && out.fin == old(out).fin && out.finSent == old(out).finSent
    {
      hide SendOk, AllSent, Wrap, Diff, SeqGt;
      LenFits(out, una, nxt, written);
      var d := 0;
      if SeqGt(ack, out.base) {
        d := Diff(ack, out.base);
        if d > out.len { d := out.len; }
      }
      var buf := Shift(out.buf, d, out.len);
      AfterAck(out, una, nxt, written, a, buf);
      out := out.(una := ack, buf := buf, len := out.len - d, base := Wrap(out.base + d));
      una := a;
    }

    /** ack_input for an acknowledgement of nothing new. */
    method DupAck(ack: u32, up: bool, now: nat)
      requires SendSide() && StateOk(state, out.fin, una, nxt, |written|, peer.fin)
      modifies this`dupacks, this`ssthresh, this`cwnd, this`out, this`nxt, this`sent, this`tm
      ensures SendSide() && StateOk(state, out.fin, una, nxt, |written|, peer.fin) && old(sent) <= sent
              && out.fin == old(out).fin
    {
      hide SendOk, AllSent;
      AckedAll(out, una, nxt, written);
      if ack == out.una && out.una != out.nxt {
        dupacks := dupacks + 1;
        if dupacks == 3 {
          Rewind();
          cwnd := ssthresh;
          Output(up, now);
        }
      }
    }

    /** ack_input for something new: a is the position it acknowledges up to. */
    method NewAck(ack: u32, now: nat, ghost a: nat)
      requires SendSide() && StateOk(state, out.fin, una, nxt, |written|, peer.fin) && una < a <= nxt
               && ack == Wrap(out.iss + a)
      requires Diff(ack, out.base) == a - (1 + |written| - out.len)
               && (SeqGt(ack, out.base) <==> a > 1 + |written| - out.len)
      modifies this`dupacks, this`cwnd, this`out, this`una, this`tm
      ensures SendSide() && StateOk(state, out.fin, una, nxt, |written|, peer.fin) && una == a
              && out.fin == old(out).fin
    {
      hide SendOk, AllSent, Wrap, Diff, SeqGt;
      dupacks := 0;
      if tm.timing && SeqLe(tm.timed, Wrap(ack - 1)) {
        RttUpdate(now - tm.since);
        tm := tm.(timing := false);
      }
      DropAcked(ack, a);
      AckedAll(out, una, nxt, written);
      cwnd := Wider(cwnd, ssthresh);
      tm := tm.(at := if out.una == out.nxt then 0 else now + tm.rto, tries := 0);
    }

    /** ack_input: whatever the peer acknowledges, nothing unsent counts as sent. */
    method AckInput(ack: u32, up: bool, now: nat)
      requires SendSide() && StateOk(state, out.fin, una, nxt, |written|, peer.fin)
      modifies this`dupacks, this`ssthresh, this`cwnd, this`out, this`una, this`nxt, this`sent, this`tm
      ensures SendSide() && StateOk(state, out.fin, una, nxt, |written|, peer.fin) && old(una) <= una <= old(nxt)
              && old(sent) <= sent && out.fin == old(out).fin
    {
      hide SendOk, AllSent, Wrap, Diff;
      AckIs(out, una, nxt, written, ack);
      AckedAll(out, una, nxt, written);
      if SeqGt(ack, out.nxt) { return; }
      if SeqLe(ack, out.una) {
        DupAck(ack, up, now);
      } else {
        NewAck(ack, now, una + Diff(ack, out.una));
      }
    }

    // ---- receiving

    /** rcv_accept with nobody nominated for the interrupt character. */
    method RcvAccept(data: seq<byte>) returns (n: nat)
      requires RecvMid(inn, peer) && !peer.fin && peer.got + |data| <= |peer.str|
               && data == peer.str[peer.got..peer.got + |data|]
      modifies this`inn, this`peer
      ensures n == Room(old(inn).len, |data|) && RecvMid(inn, peer) && peer == old(peer).(got := old(peer).got + n)
              && inn.ooo == old(inn).ooo && inn.irs == old(inn).irs
      ensures Fitting(old(inn)) && inn == Accepted(old(inn), data)
    {
      hide RecvMid, Wrap, Put;
      QueueFits(inn, peer);
      MidFits(inn, peer);
      n := Room(inn.len, |data|);
      var rxq := Append(inn.rxq, inn.len, data[..n]);
      AfterAccept(inn, peer, data, n, rxq);
      inn := inn.(rxq := rxq, len := inn.len + n, nxt := Wrap(inn.nxt + n));
      peer := peer.(got := peer.got + n);
    }

    /** One held segment in the loop of ooo_drain. */
    method DrainOne(i: nat) returns (progress: bool)
      requires RecvMid(inn, peer) && !peer.fin && i < NOOO && |inn.ooo| == NOOO && |peer.offs| == NOOO
      modifies this`inn, this`peer
      ensures RecvMid(inn, peer) && |inn.ooo| == NOOO && peer == old(peer).(got := peer.got)
              && inn.irs == old(inn).irs && old(peer).got <= peer.got
      ensures Fitting(old(inn)) && (inn, progress) == Turn(old(inn), i)
      ensures progress <==> old(inn).ooo[i].used && old(peer).offs[i] <= old(peer).got
      ensures !progress ==> inn == old(inn) && peer == old(peer)
      ensures progress ==> inn.ooo == old(inn).ooo[i := old(inn).ooo[i].(used := false)]
    {
      hide RecvMid, Wrap, Diff, Room, Put;
      var h := inn.ooo[i];
      StepFrees(inn, peer, i);
      HeldPart(inn, peer, i);
      if !h.used || SeqGt(h.at, inn.nxt) { return false; }
      progress := true;
      if SeqLe(Wrap(h.at + |h.data|), inn.nxt) {
        HeldGone(inn, peer, i);
        inn := inn.(ooo := inn.ooo[i := h.(used := false)]);
        return;
      }
      var skip := Diff(inn.nxt, h.at);
      var n := RcvAccept(h.data[skip..]);
      if n == |h.data| - skip {
        HeldGone(inn, peer, i);
        inn := inn.(ooo := inn.ooo[i := h.(used := false)]);
      }
    }

    /** ooo_drain: it ends, with nothing left that could be delivered. */
    method OooDrain()
      requires RecvMid(inn, peer) && !peer.fin
      modifies this`inn, this`peer
      ensures RecvOk(inn, peer) && peer == old(peer).(got := peer.got) && inn.irs == old(inn).irs
              && old(peer).got <= peer.got
      ensures Fitting(old(inn)) && exists k: nat :: inn == Passes(old(inn), k) && !Moves(Passes(old(inn), k))
    {
      hide RecvMid, Turn, Passes;
      OooSize(inn, peer);
      MidFits(inn, peer);
      ghost var k, r := 0, inn;
      NoPass(inn);
      var progress := true;
      while progress
        invariant RecvMid(inn, peer) && |inn.ooo| == NOOO && |peer.offs| == NOOO
        invariant peer == old(peer).(got := peer.got) && inn.irs == old(inn).irs && old(peer).got <= peer.got
        invariant !progress ==> Settled(inn, peer)
        invariant k >= 0 && r == Passes(old(inn), k) && Fitting(r) && if progress then inn == r
                  else inn == Pass(r, 0).0 == r && !Moves(r)
        decreases UsedFrom(inn.ooo, 0), progress
      {
        progress := false;
        ghost var r0, p0 := inn, peer;
        for i := 0 to NOOO
          invariant RecvMid(inn, peer) && |inn.ooo| == NOOO && |peer.offs| == NOOO
          invariant peer == p0.(got := peer.got) && inn.irs == r0.irs && p0.got <= peer.got
          invariant !progress ==>
                    inn == r0 && peer == p0 && forall j :: 0 <= j < i && inn.ooo[j].used ==> peer.got < peer.offs[j]
          invariant UsedFrom(inn.ooo, 0) <= UsedFrom(r0.ooo, 0)
                    && (progress ==> UsedFrom(inn.ooo, 0) < UsedFrom(r0.ooo, 0))
          invariant Fitting(inn) && Pass(r0, 0) == (Pass(inn, i).0, Pass(inn, i).1 || progress)
        {
          ghost var o1 := inn.ooo;
          var moved := DrainOne(i);
          if moved {
            UsedLess(o1, 0, i, o1[i].(used := false));
            progress := true;
          }
        }
        if progress {
          OnePass(old(inn), k);
          k, r := k + 1, inn;
        }
      }
    }

    /** ooo_store, where a slot may or may not get its memory. */
    method OooStore(at: u32, data: seq<byte>, room: bool, ghost off: nat)
      requires RecvOk(inn, peer) && Arrives(inn, peer, at, data, off) && data != [] && peer.got < off
      modifies this`inn, this`peer
      ensures RecvOk(inn, peer) && peer == old(peer).(offs := peer.offs) && Fitting(old(inn))
              && inn == Stored(old(inn), at, data, room)
    {
      hide RecvOk, Arrives;
      OooSize2(inn, peer);
      MidOk(inn, peer);
      MidFits(inn, peer);
      for i := 0 to NOOO
        invariant forall j :: 0 <= j < i ==> !(inn.ooo[j].used && inn.ooo[j].at == at)
      {
        if inn.ooo[i].used && inn.ooo[i].at == at { return; }
      }
      for i := 0 to NOOO
        invariant inn == old(inn) && peer == old(peer) && forall j :: 0 <= j < i ==> inn.ooo[j].used
      {
        if !inn.ooo[i].used {
          if room {
            HeldNew(inn, peer, i, at, data, off);
            inn := inn.(ooo := inn.ooo[i := Held(true, at, if |data| <= OOOSEG then data else data[..OOOSEG])]);
            peer := peer.(offs := peer.offs[i := off]);
          }
          return;
        }
      }
    }

    /** rcv_data: a slice of the peer's stream, in any order, old or new or overlapping. */
    method RcvData(at: u32, data: seq<byte>, room: bool, ghost off: nat)
      requires RecvOk(inn, peer) && Arrives(inn, peer, at, data, off) && data != []
      modifies this`inn, this`peer
      ensures RecvOk(inn, peer) && peer == old(peer).(got := peer.got, offs := peer.offs) && inn.irs == old(inn).irs
              && old(peer).got <= peer.got
      ensures off <= old(peer).got ==> off + |data| <= peer.got
      ensures Took(old(inn), inn, at, data, room)
    {
      hide RecvOk, Wrap, Diff, SeqLe, SeqLt, Moves, Passes, Accepted, Stored;
      MidOk(inn, peer);
      MidFits(inn, peer);
      ArrivesAt(inn, peer, at, data, off);
      if SeqLe(Wrap(at + |data|), inn.nxt) { return; }
      var at1, data1 := at, data;
      ghost var off1 := off;
      if SeqLt(at, inn.nxt) {
        var skip := Diff(inn.nxt, at);
        ArrivesTail(inn, peer, at, data, off, skip);
        data1, at1 := data[skip..], inn.nxt;
        off1 := off + skip;
      }
      if at1 == inn.nxt {
        MidOk(inn, peer);
        WindowFits(inn, peer, at1, data1, off1);
        var n := RcvAccept(data1);
        OooDrain();
      } else {
        OooStore(at1, data1, room, off1);
      }
    }

    /** conn_take: the next bytes of the stream, in order, once each. */
    method Take(want: nat, up: bool, now: nat) returns (data: seq<byte>)
      requires Ok() && state != SynSent
      modifies this`inn, this`peer, this`tm, this`sent
      ensures Ok() && |data| == Least(old(inn).len, want) && old(peer).taken + |data| <= |peer.str|
      ensures data == peer.str[old(peer).taken..old(peer).taken + |data|]
              && peer == old(peer).(taken := old(peer).taken + |data|)
    {
      hide SendOk, AllSent, Wrap;
      var n := Least(inn.len, want);
      if n == 0 { return []; }
      var shut := inn.len == RXQ;
      data := inn.rxq[..n];
      var rxq := Shift(inn.rxq, n, inn.len);
      AfterTake(inn, peer, n, rxq);
      inn := inn.(rxq := rxq, len := inn.len - n);
      peer := peer.(taken := peer.taken + n);
      if shut && state == Established { SendAck(up, now); }
    }

    // ---- a whole segment

    /** The active open: a segment in SYN-SENT. */
    method SynInput(g: Segment, up: bool, now: nat)
      requires Ok() && state == SynSent
      modifies this
      ensures Ok() && written == old(written) && old(sent) <= sent && twAt == old(twAt) && !peer.fin
      ensures peer == old(peer) && state in {SynSent, SynRcvd, Established}
      ensures state != SynSent ==> g.syn && inn.irs == g.at && inn.nxt == Wrap(g.at + 1)
    {
      hide SendOk, AllSent, RecvOk, Wrap, Diff, Idle, SeqLe, SeqGt, StateOk;
      Calling(out.fin, una, nxt, |written|, peer.fin);
      if !g.syn { return; }
      SynRead(g);
      if g.ack {
        if SeqLe(g.ackNo, out.iss) || SeqGt(g.ackNo, out.nxt) { return; }
        SynAcked(g.ackNo, up, now);
      } else {
        state := SynRcvd;
        SynAgain(up, now);
      }
    }

    /** What a SYN says of the peer. */
    method SynRead(g: Segment)
      requires SendSide() && Idle(inn, peer)
      modifies this`inn, this`sndWnd, this`peerMss
      ensures SendSide() && Idle(inn, peer) && RecvOk(inn, peer) && inn.irs == g.at && inn.nxt == Wrap(g.at + 1)
    {
      hide SendOk, AllSent, RecvOk, Wrap, Idle;
      IdleOpens(inn, peer, g.at);
      IdleKeeps(inn, peer, g.at);
      inn := inn.(irs := g.at, nxt := Wrap(g.at + 1));
      sndWnd := g.wnd;
      peerMss := ParseOptions(g.opts, peerMss);
    }

    /** Our SYN is acknowledged: the connection is up. */
    method SynAcked(ack: u32, up: bool, now: nat)
      requires SendSide() && StateOk(state, out.fin, una, nxt, |written|, peer.fin) && state == SynSent
      modifies this`dupacks, this`ssthresh, this`cwnd, this`out, this`una, this`nxt, this`sent, this`tm, this`state
      ensures SendSide() && StateOk(state, out.fin, una, nxt, |written|, peer.fin) && state == Established
              && old(sent) <= sent && out.fin == old(out).fin && old(una) <= una
    {
      hide SendOk, AllSent, Wrap, Diff;
      AckInput(ack, up, now);
      state := Established;
      SendAck(up, now);
    }

    /** Both sides called at once: our SYN goes again, with an acknowledgement. */
    method SynAgain(up: bool, now: nat)
      requires SendSide() && StateOk(state, out.fin, una, nxt, |written|, peer.fin) && state == SynRcvd && una == 0
      modifies this`out, this`nxt, this`sent, this`tm
      ensures SendSide() && StateOk(state, out.fin, una, nxt, |written|, peer.fin) && old(sent) <= sent
              && out.fin == old(out).fin
    {
      hide SendOk, AllSent, Wrap, Diff;
      SynRewind(out, una, nxt, written);
      out := out.(nxt := out.iss);
      nxt := 0;
      Output(up, now);
    }

    method EnterTimeWait(now: nat)
      modifies this`state, this`tm, this`twAt
      ensures state == TimeWait && tm == old(tm).(at := 0) && twAt == now + TIME_WAIT_MS
    {
      state, tm, twAt := TimeWait, tm.(at := 0), now + TIME_WAIT_MS;
    }

    /** The peer's FIN has been reached. */
    method FinInput(up: bool, now: nat, refs: nat)
      requires Ok() && !peer.fin && peer.got == |peer.str| && state in {Established, FinWait1, FinWait2}
      modifies this`inn, this`peer, this`state, this`tm, this`twAt, this`out, this`nxt, this`sent
      ensures Ok() && old(sent) <= sent && peer == old(peer).(fin := true)
      ensures state == match old(state)
                       case Established => (if refs == 0 then LastAck else CloseWait)
                       case FinWait1 => (if old(out).finSent && old(una) == old(nxt) then TimeWait else Closing)
                       case _ => TimeWait
    {
      hide SendOk, AllSent, RecvOk, Wrap;
      AfterPeerFin(inn, peer);
      inn := inn.(nxt := Wrap(inn.nxt + 1));
      peer := peer.(fin := true);
      AllAcked(out, una, nxt, written);
      match state {
        case Established =>
          state := CloseWait;
          SendAck(up, now);
          if refs == 0 { Close(up, now); }
        case FinWait1 =>
          SendAck(up, now);
          if out.finSent && out.una == out.nxt { EnterTimeWait(now); } else { state := Closing; }
        case FinWait2 =>
          SendAck(up, now);
          EnterTimeWait(now);
      }
    }

    /** The acknowledgement in a segment, and the state it moves us to. */
    method AckStep(g: Segment, up: bool, now: nat) returns (done: bool)
      requires Ok() && state !in {SynSent, Free}
      modifies this`dupacks, this`ssthresh, this`cwnd, this`out, this`una, this`nxt, this`sent, this`tm, this`sndWnd,
          this`state, this`twAt
      ensures old(sent) <= sent && old(una) <= una
      ensures state != Free ==> Ok()
      ensures !done ==> state in {Established, FinWait1, FinWait2, Closing, CloseWait, LastAck}
      ensures state == Free ==> done && old(state) == LastAck && una == |written| + 2
    {
      hide SendOk, AllSent, RecvOk, Wrap;
      done := false;
      if g.ack {
        sndWnd := g.wnd;
        AckInput(g.ackNo, up, now);
      }
      AllAcked(out, una, nxt, written);
      match state {
        case SynRcvd =>
          if !g.ack { return true; }
          state := Established;
        case FinWait1 =>
          if out.finSent && out.una == out.nxt { state := FinWait2; }
        case Closing =>
          if out.finSent && out.una == out.nxt { EnterTimeWait(now); return true; }
        case LastAck =>
          if out.finSent && out.una == out.nxt { state := Free; return true; }
        case TimeWait =>
          if g.fin { SendAck(up, now); }
          return true;
        case _ =>
      }
    }

    /** tcp_segment for a connection that is not listening. */
    method Input(g: Segment, up: bool, now: nat, room: bool, refs: nat, ghost off: nat) returns (o: Outcome)
      requires Ok() && state != Free
      requires state != SynSent && (g.data != [] || g.fin) ==>
               Arrives(inn, peer, g.at, g.data, off) && (g.fin ==> off + |g.data| == |peer.str|)
      modifies this
      ensures old(sent) <= sent && written == old(written) && old(una) <= una && peer.str == old(peer).str
              && peer.taken == old(peer).taken && old(peer).got <= peer.got
      ensures o in {Kept, Reset, Closed}
      ensures o == Kept ==> Ok() && state != Free
      ensures o == Closed ==> old(state) == LastAck && una == |written| + 2 && peer.fin
      ensures o == Reset ==> g.rst
    {
      hide SendOk, AllSent, RecvOk, Wrap, Diff, Arrives;
      if g.rst {
        state := Free;
        return Reset;
      }
      if state == SynSent {
        SynInput(g, up, now);
        return Kept;
      }
      var done := AckStep(g, up, now);
      if state == Free { return Closed; }
      if done { return Kept; }
      if g.data != [] || g.fin { DataStep(g, up, now, room, refs, off); }
      o := Kept;
    }

    /** The data in a segment, and its FIN if the stream has got that far. */
    method DataStep(g: Segment, up: bool, now: nat, room: bool, refs: nat, ghost off: nat)
      requires Ok() && state in {Established, FinWait1, FinWait2, Closing, CloseWait, LastAck}
               && (g.data != [] || g.fin)
      requires Arrives(inn, peer, g.at, g.data, off) && (g.fin ==> off + |g.data| == |peer.str|)
      modifies this`inn, this`peer, this`state, this`tm, this`twAt, this`out, this`nxt, this`sent
      ensures Ok() && state !in {Free, SynSent} && old(sent) <= sent && peer.str == old(peer).str
              && peer.taken == old(peer).taken && old(peer).got <= peer.got
    {
      hide SendOk, AllSent, RecvOk, Wrap, Diff, Arrives, Took;
      if g.data != [] {
        var before := inn.nxt;
        RcvData(g.at, g.data, room, off);
        SendAck(up, now);
        if before == inn.nxt && g.at != before { return; }
      }
      if g.fin && Wrap(g.at + |g.data|) == inn.nxt {
        FinWhere(old(inn), old(peer), inn, peer, g.at, g.data, off);
        FinInput(up, now, refs);
      }
    }

    // ---- time

    /** A control segment that could not be addressed is tried again. */
    method Readdress(up: bool, now: nat)
      requires SendSide() && StateOk(state, out.fin, una, nxt, |written|, peer.fin) && tm.pending != Nothing
      modifies this`out, this`nxt, this`sent, this`tm
      ensures SendSide() && StateOk(state, out.fin, una, nxt, |written|, peer.fin) && old(sent) <= sent
              && out.fin == old(out).fin
    {
      hide SendOk, AllSent, StateOk;
      var syn := tm.pending.syn;
      tm := tm.(pending := Nothing, at := 0);
      if syn { Output(up, now); } else { SendAck(up, now); }
      if tm.at == 0 { tm := tm.(at := now + tm.rto); }
    }

    /** A timeout: everything from the oldest unacknowledged position goes again. */
    method Retransmit(up: bool, now: nat)
      requires SendSide() && StateOk(state, out.fin, una, nxt, |written|, peer.fin)
      modifies this`out, this`nxt, this`sent, this`tm, this`ssthresh, this`cwnd
      ensures SendSide() && StateOk(state, out.fin, una, nxt, |written|, peer.fin) && old(sent) <= sent
              && out.fin == old(out).fin
    {
      hide SendOk, AllSent;
      AckedAll(out, una, nxt, written);
      Rewind();
      cwnd := MSS;
      tm := tm.(rto := if 2 * tm.rto > RTO_MAX then RTO_MAX else 2 * tm.rto, at := 0);
      var tries := tm.tries;
      Output(up, now);
      tm := tm.(tries := tries);
      if tm.at == 0 { tm := tm.(at := now + tm.rto); }
    }

    /** net_timeout for one connection. */
    method Timeout(up: bool, now: nat) returns (o: Outcome)
      requires Ok() && state != Free
      modifies this
      ensures old(sent) <= sent && written == old(written) && una == old(una) && peer == old(peer)
      ensures o in {Kept, GaveUp, Closed}
      ensures o == Kept ==> Ok() && state == old(state)
      ensures o == Closed ==> old(state) == TimeWait && una == |written| + 2 && peer.fin
    {
      hide SendOk, AllSent, RecvOk, Idle, Wrap;
      if twAt != 0 && twAt <= now {
        state := Free;
        return Closed;
      }
      if tm.at == 0 || tm.at > now { return Kept; }
      tm := tm.(tries := tm.tries + 1);
      if tm.tries > RTO_TRIES {
        state := Free;
        return GaveUp;
      }
      if tm.pending != Nothing { Readdress(up, now); } else { Retransmit(up, now); }
      o := Kept;
    }
  }
}
