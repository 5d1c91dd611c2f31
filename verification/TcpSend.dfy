/** The send side of a connection in src/net_ip.c: three sequence numbers and a sliding
    buffer over the stream of bytes the program writes. */
module TcpSend {
  import opened Common
  import opened TcpSeq

  const SNDBUF: nat := 2048
  const MSS: nat := 1024

  /** Position 0 is our SYN, positions 1 to |w| the bytes written, |w| + 1 our FIN. */
  datatype Snd = Snd(iss: u32, una: u32, nxt: u32, base: u32, buf: seq<byte>, len: nat, fin: bool, finSent: bool)

  /** How many of n written bytes an acknowledgement up to una has released. */
  function Dropped(una: nat, n: nat): nat {
    if una == 0 then 0 else if una <= n + 1 then una - 1 else n
  }

  /** una and nxt are the positions of snd_una and snd_nxt in the stream w. */
  ghost predicate SendOk(s: Snd, una: nat, nxt: nat, w: seq<byte>) {
    && |s.buf| == SNDBUF && s.len <= SNDBUF && s.len <= |w| && s.buf[..s.len] == w[|w| - s.len..]
    && s.una == Wrap(s.iss + una) && s.nxt == Wrap(s.iss + nxt) && s.base == Wrap(s.iss + (1 + |w| - s.len))
    && una <= nxt <= |w| + 2 && |w| - s.len == Dropped(una, |w|)
    && (nxt == |w| + 2 ==> s.fin) && (s.finSent ==> nxt == |w| + 2)
  }

  /** A segment handed to the card, with what was acknowledged by then, the peer's window
      and our own. */
  datatype Sent = Sent(wire: u32, pos: nat, bytes: seq<byte>, fin: bool, una: nat, wnd: nat, cwnd: nat)

  function Least(a: nat, b: nat): nat { if a < b then a else b }

  /** It carries the bytes the program wrote at that place in the stream, inside both
      windows. */
  ghost predicate SentOk(iss: u32, fin: bool, w: seq<byte>, e: Sent) {
    && e.wire == Wrap(iss + e.pos)
    && (e.bytes != [] ==>
        1 <= e.pos && e.pos - 1 + |e.bytes| <= |w| && e.bytes == w[e.pos - 1..e.pos - 1 + |e.bytes|]
        && e.pos + |e.bytes| <= e.una + Least(e.wnd, e.cwnd))
    && (e.fin ==> fin && e.pos == |w| + 1)
  }

  ghost predicate AllSent(iss: u32, fin: bool, w: seq<byte>, sent: seq<Sent>) {
    forall i :: 0 <= i < |sent| ==> SentOk(iss, fin, w, sent[i])
  }

  // ---- the numbers the code computes

  lemma Near(s: Snd, una: nat, nxt: nat, w: seq<byte>)
    requires SendOk(s, una, nxt, w)
    ensures nxt - una <= SNDBUF + 2 && -1 <= nxt - (1 + |w| - s.len) + (if una == 0 then 0 else 1)
            && nxt - (1 + |w| - s.len) <= SNDBUF + 1
    ensures una == 0 ==> s.len == |w|
    ensures una <= |w| + 2
  {
  }

  lemma Numbers(s: Snd, una: nat, nxt: nat, w: seq<byte>)
    requires SendOk(s, una, nxt, w)
    ensures Diff(s.nxt, s.base) == nxt - (1 + |w| - s.len)
    ensures Wrap(s.nxt - s.una) == nxt - una
    ensures s.una == s.nxt <==> una == nxt
    ensures s.nxt == Wrap(s.base + s.len) <==> nxt == |w| + 1
    ensures SeqLt(s.nxt, s.base) <==> nxt < 1 + |w| - s.len
  {
    hide Diff, Wrap;
    Near(s, una, nxt, w);
    DiffIs(s.iss, nxt, 1 + |w| - s.len);
    FlightIs(s.iss, nxt, una);
    CompareIs(s.iss, una, nxt);
    WrapAdd(s.iss + (1 + |w| - s.len), s.len);
    CompareIs(s.iss, nxt, |w| + 1);
    CompareIs(s.iss, nxt, 1 + |w| - s.len);
    assert s.iss + (1 + |w| - s.len) + s.len == s.iss + (|w| + 1);
  }

  // ---- what each change does

  lemma SliceIs(s: Snd, una: nat, nxt: nat, w: seq<byte>, off: nat, n: nat)
    requires SendOk(s, una, nxt, w) && off == nxt - (1 + |w| - s.len) && off + n <= s.len
    ensures 1 <= nxt && nxt - 1 + n <= |w| && s.buf[off..off + n] == w[nxt - 1..nxt - 1 + n]
  {
    var b := |w| - s.len;
    assert s.buf[off..off + n] == s.buf[..s.len][off..off + n];
    assert w[b..][off..off + n] == w[b + off..b + off + n];
  }

  /** n bytes from nxt on go out. */
  lemma AfterData(s: Snd, una: nat, nxt: nat, w: seq<byte>, n: nat)
    requires SendOk(s, una, nxt, w) && nxt + n <= |w| + 1 && 0 < n && 1 <= nxt
    ensures SendOk(s.(nxt := Wrap(s.nxt + n)), una, nxt + n, w)
  {
    hide Wrap;
    WrapAdd(s.iss + nxt, n);
    assert s.iss + nxt + n == s.iss + (nxt + n);
  }

  lemma AfterSyn(s: Snd, nxt: nat, w: seq<byte>)
    requires SendOk(s, 0, nxt, w) && nxt == 0
    ensures SendOk(s.(nxt := s.base), 0, 1, w)
  {
  }

  lemma AfterFin(s: Snd, una: nat, nxt: nat, w: seq<byte>)
    requires SendOk(s, una, nxt, w) && nxt == |w| + 1 && s.fin
    ensures SendOk(s.(nxt := Wrap(s.nxt + 1), finSent := true), una, nxt + 1, w)
  {
    hide Wrap;
    WrapAdd(s.iss + nxt, 1);
    assert s.iss + nxt + 1 == s.iss + (nxt + 1);
  }

  /** A retransmission starts over at the oldest unacknowledged position. */
  lemma AfterRewind(s: Snd, una: nat, nxt: nat, w: seq<byte>)
    requires SendOk(s, una, nxt, w)
    ensures SendOk(s.(nxt := s.una, finSent := false), una, una, w)
  {
  }

  lemma AfterWrite(s: Snd, una: nat, nxt: nat, w: seq<byte>, buf: seq<byte>, data: seq<byte>)
    requires SendOk(s, una, nxt, w) && !s.fin && s.len + |data| <= SNDBUF && |buf| == SNDBUF
    requires buf[..s.len] == s.buf[..s.len] && buf[s.len..s.len + |data|] == data
    ensures SendOk(s.(buf := buf, len := s.len + |data|), una, nxt, w + data)
  {
    var l := s.len + |data|;
    assert buf[..l] == buf[..s.len] + buf[s.len..l];
    assert (w + data)[|w| - s.len..] == w[|w| - s.len..] + data;
    assert 1 + |w + data| - l == 1 + |w| - s.len;
  }

  lemma SentStill(iss: u32, w: seq<byte>, data: seq<byte>, sent: seq<Sent>)
    requires AllSent(iss, false, w, sent)
    ensures AllSent(iss, false, w + data, sent)
  {
    forall i | 0 <= i < |sent| ensures SentOk(iss, false, w + data, sent[i]) {
      var e := sent[i];
      assert SentOk(iss, false, w, e);
      if e.bytes != [] { assert (w + data)[e.pos - 1..e.pos - 1 + |e.bytes|] == w[e.pos - 1..e.pos - 1 + |e.bytes|]; }
    }
  }

  lemma SentFin(iss: u32, w: seq<byte>, sent: seq<Sent>)
    requires AllSent(iss, false, w, sent)
    ensures AllSent(iss, true, w, sent)
  {
    forall i | 0 <= i < |sent| ensures SentOk(iss, true, w, sent[i]) {
      assert SentOk(iss, false, w, sent[i]);
    }
  }

  lemma SentOne(iss: u32, fin: bool, w: seq<byte>, sent: seq<Sent>, e: Sent)
    requires AllSent(iss, fin, w, sent) && SentOk(iss, fin, w, e)
    ensures AllSent(iss, fin, w, sent + [e])
  {
  }

  // ---- acknowledgements

  /** An acknowledgement that is neither of something unsent nor of nothing new is of a
      position in flight. */
  lemma AckIs(s: Snd, una: nat, nxt: nat, w: seq<byte>, ack: u32)
    requires SendOk(s, una, nxt, w)
    ensures var a := una + Diff(ack, s.una);
            && (!SeqGt(ack, s.nxt) && !SeqLe(ack, s.una) <==> una < a <= nxt)
            && (una < a <= nxt ==>
                ack == Wrap(s.iss + a) && Diff(ack, s.base) == a - (1 + |w| - s.len)
                && (SeqGt(ack, s.base) <==> a > 1 + |w| - s.len))
  {
    hide Wrap;
    Near(s, una, nxt, w);
    var x := Diff(ack, s.una);
    AckAt(s.iss, una, ack);
    FarAck(s.iss, una, nxt, ack);
    if una < una + x <= nxt {
      DiffIs(s.iss, una + x, 1 + |w| - s.len);
    }
  }

  lemma AckAt(iss: u32, una: nat, ack: u32)
    ensures ack == Wrap(iss + (una + Diff(ack, Wrap(iss + una))))
  {
    var b: int := Wrap(iss + una);
    var k := WrapIs(iss + una);
    var d: int := Diff(ack, b);
    var q := (ack - b) / M;
    assert ack - b == q * M + (ack - b) % M;
    if d >= 0 {
      ModIs(iss + (una + d), k - q, ack);
    } else {
      ModIs(iss + (una + d), k - q - 1, ack);
    }
  }

  lemma FarAck(iss: u32, una: nat, nxt: nat, ack: u32)
    requires una <= nxt <= una + SNDBUF + 2
    ensures !SeqGt(ack, Wrap(iss + nxt)) && !SeqLe(ack, Wrap(iss + una)) <==>
            una < una + Diff(ack, Wrap(iss + una)) <= nxt
  {
    hide Wrap, Diff;
    var x := Diff(ack, Wrap(iss + una));
    AckAt(iss, una, ack);
    if x > 0 {
      DiffIs(iss, una + x, nxt);
    }
  }

  /** The bytes an acknowledgement up to a releases. */
  function Release(s: Snd, a: nat, n: nat): nat
    requires s.len <= n
  {
    var b := 1 + n - s.len;
    if a <= b then 0 else if a - b > s.len then s.len else a - b
  }

  lemma AfterAck(s: Snd, una: nat, nxt: nat, w: seq<byte>, a: nat, buf: seq<byte>)
    requires SendOk(s, una, nxt, w) && una < a <= nxt && |buf| == SNDBUF
    requires var d := Release(s, a, |w|); buf[..s.len - d] == s.buf[d..s.len]
    ensures var d := Release(s, a, |w|);
            SendOk(s.(una := Wrap(s.iss + a), buf := buf, len := s.len - d, base := Wrap(s.base + d)), a, nxt, w)
  {
    hide Wrap;
    var d := Release(s, a, |w|);
    WrapAdd(s.iss + (1 + |w| - s.len), d);
    assert s.iss + (1 + |w| - s.len) + d == s.iss + (1 + |w| - (s.len - d));
    assert s.buf[d..s.len] == s.buf[..s.len][d..];
    assert w[|w| - s.len..][d..] == w[|w| - (s.len - d)..];
  }

  // ---- the loops over the buffer

  /** Dropping d bytes off the front of the len in a buffer. */
  method Shift(buf: seq<byte>, d: nat, len: nat) returns (r: seq<byte>)
    requires d <= len <= |buf|
    ensures |r| == |buf| && r[..len - d] == buf[d..len]
  {
    r := buf;
    var i := 0;
    while i + d < len
      invariant i <= len - d && |r| == |buf|
      invariant forall k :: 0 <= k < i ==> r[k] == buf[k + d]
      invariant forall k :: i <= k < |r| ==> r[k] == buf[k]
    {
      var b := r[i + d];
      r := r[i := b];
      i := i + 1;
    }
  }

  /** A buffer with data written at len. */
  function Put(buf: seq<byte>, len: nat, data: seq<byte>): (r: seq<byte>)
    requires len + |data| <= |buf|
    ensures |r| == |buf| && r[..len] == buf[..len] && r[len..len + |data|] == data
  {
    buf[..len] + data + buf[len + |data|..]
  }

  /** umemcpy to the end of what a buffer holds. */
  method Append(buf: seq<byte>, len: nat, data: seq<byte>) returns (r: seq<byte>)
    requires len + |data| <= |buf|
    ensures r == Put(buf, len, data)
  {
    r := buf;
    var i := 0;
    while i < |data|
      invariant i <= |data| && |r| == |buf|
      invariant forall k :: 0 <= k < |r| ==> r[k] == if len <= k < len + i then data[k - len] else buf[k]
    {
      r := r[len + i := data[i]];
      i := i + 1;
    }
  }
}
