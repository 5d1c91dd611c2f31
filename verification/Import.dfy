/** The receiving half of prog/import.c: however a stream of messages is cut into reads, the
    same messages come out. */
module Import {
  import opened Common
  import opened FsProto

  /** What a stream holds: whole messages, and what is left behind them. */
  datatype Stream = Stream(msgs: seq<Msg>, rest: seq<byte>, broken: bool)

  function Split(s: seq<byte>): Stream
    decreases |s|
  {
    match Parse(s)
    case Short => Stream([], s, false)
    case Broken => Stream([], s, true)
    case Whole(n, m) =>
      var t := Split(s[n..]);
      Stream([m] + t.msgs, t.rest, t.broken)
  }

  function Wires(ms: seq<Msg>): seq<byte> {
    if ms == [] then [] else Wire(ms[0]) + Wires(ms[1..])
  }

  /** A verdict is not changed by what arrives later. */
  lemma ParseMore(a: seq<byte>, b: seq<byte>)
    ensures Parse(a).Whole? ==> Parse(a + b) == Parse(a)
    ensures Parse(a).Broken? ==> Parse(a + b).Broken?
  {
    hide Un, Signed;
    if |a| >= 4 {
      var s := a + b;
      assert s[..4] == a[..4];
      if FS_HDR <= Un(a[..4]) <= |a| {
        assert s[28..30] == a[28..30] && s[30..32] == a[30..32];
        if FS_HDR + Un(a[28..30]) + Un(a[30..32]) == Un(a[..4]) { FieldsMore(a, b); }
      }
    }
  }

  lemma FieldsMore(a: seq<byte>, b: seq<byte>)
    requires |a| >= FS_HDR && FS_HDR + Un(a[28..30]) + Un(a[30..32]) <= |a|
    ensures (a + b)[28..30] == a[28..30] && (a + b)[30..32] == a[30..32] && Fields(a + b) == Fields(a)
  {
    hide Un, Signed;
    var s, pl, dl := a + b, Un(a[28..30]), Un(a[30..32]);
    assert s[4..6] == a[4..6] && s[6..7] == a[6..7] && s[7..8] == a[7..8] && s[8..12] == a[8..12]
        && s[12..16] == a[12..16] && s[16..20] == a[16..20] && s[20..28] == a[20..28] && s[28..30] == a[28..30]
        && s[30..32] == a[30..32];
    assert s[FS_HDR..FS_HDR + pl] == a[FS_HDR..FS_HDR + pl]
        && s[FS_HDR + pl..FS_HDR + pl + dl] == a[FS_HDR + pl..FS_HDR + pl + dl];
  }

  /** More bytes go on from where the last ones left off. */
  lemma {:induction false} SplitMore(a: seq<byte>, b: seq<byte>)
    ensures !Split(a).broken ==> var t := Split(Split(a).rest + b);
            Split(a + b) == Stream(Split(a).msgs + t.msgs, t.rest, t.broken)
    ensures Split(a).broken ==> Split(a + b).broken && Split(a + b).msgs == Split(a).msgs
    decreases |a|
  {
    hide Parse;
    ParseMore(a, b);
    match Parse(a)
    case Short =>
      assert [] + Split(a + b).msgs == Split(a + b).msgs;
    case Broken =>
    case Whole(n, m) =>
      UsedLow(a);
      assert (a + b)[n..] == a[n..] + b;
      SplitMore(a[n..], b);
  }

  lemma UsedLow(s: seq<byte>)
    ensures Parse(s).Whole? ==> 0 < Parse(s).used <= |s|
  {
  }

  /** The rest is never as much as a message can be. */
  lemma {:induction false} RestLow(s: seq<byte>)
    ensures !Split(s).broken ==> Parse(Split(s).rest).Short? && |Split(s).rest| < FS_MAXMSG
    decreases |s|
  {
    hide Parse;
    match Parse(s)
    case Short => ShortIsShort(s);
    case Broken =>
    case Whole(n, m) =>
      UsedLow(s);
      RestLow(s[n..]);
  }

  /** Messages sent one after another are the messages received. */
  lemma {:induction false} SplitWires(ms: seq<Msg>)
    requires forall i :: 0 <= i < |ms| ==> InRange(ms[i])
    ensures Split(Wires(ms)) == Stream(ms, [], false)
  {
    hide Wire, InRange;
    if ms != [] {
      var rest := Wires(ms[1..]);
      var w := Wire(ms[0]);
      DecodeEncode(ms[0], rest);
      SplitWires(ms[1..]);
      assert (w + rest)[|w|..] == rest;
      assert [ms[0]] + ms[1..] == ms;
    }
  }

  /** And at any moment, the first of them. */
  lemma SplitPrefix(s: seq<byte>, ms: seq<Msg>)
    requires (forall i :: 0 <= i < |ms| ==> InRange(ms[i])) && s <= Wires(ms)
    ensures !Split(s).broken && Split(s).msgs <= ms
  {
    hide InRange, Split;
    SplitWires(ms);
    var b := Wires(ms)[|s|..];
    assert s + b == Wires(ms);
    SplitMore(s, b);
  }

  function Joined(cs: seq<seq<byte>>): seq<byte> {
    if cs == [] then [] else Joined(cs[..|cs| - 1]) + cs[|cs| - 1]
  }

  lemma JoinedAll(cs: seq<seq<byte>>)
    ensures cs[..|cs|] == cs
  {
  }

  lemma {:induction false} JoinedPrefix(cs: seq<seq<byte>>, i: nat)
    requires i <= |cs|
    ensures Joined(cs[..i]) <= Joined(cs)
    decreases |cs|
  {
    if i < |cs| {
      var n := |cs| - 1;
      JoinedPrefix(cs[..n], i);
      assert cs[..n][..i] == cs[..i];
    } else {
      assert cs[..i] == cs;
    }
  }

  lemma JoinedOne(cs: seq<seq<byte>>, i: nat)
    requires i < |cs|
    ensures Joined(cs[..i + 1]) == Joined(cs[..i]) + cs[i] && Joined(cs[..i + 1]) <= Joined(cs)
  {
    assert cs[..i + 1][..i] == cs[..i];
    JoinedPrefix(cs, i + 1);
  }

  /** r is what is left of s after the messages g grew by. */
  ghost predicate StepsTo(s: seq<byte>, r: seq<byte>, g: seq<Msg>, g': seq<Msg>) {
    var a, b := Split(s), Split(r);
    g + a.msgs == g' + b.msgs && a.rest == b.rest && a.broken == b.broken
  }

  lemma Stepping(s: seq<byte>, r: seq<byte>, g: seq<Msg>, g': seq<Msg>)
    requires StepsTo(s, r, g, g')
    ensures match Parse(r)
            case Short => g' == g + Split(s).msgs && r == Split(s).rest && !Split(s).broken
            case Broken => g' == g + Split(s).msgs && Split(s).broken
            case Whole(n, m) => n <= |r| && StepsTo(s, r[n..], g, g' + [m])
  {
    hide Parse;
    UsedLow(r);
    if Parse(r).Whole? {
      var t := Split(r[Parse(r).used..]).msgs;
      assert g' + ([Parse(r).msg] + t) == g' + [Parse(r).msg] + t;
    }
  }

  class Client {
    const inbuf: array<byte>
    var inlen: nat
    var conn: bool

    /** Everything received, and every message handed on. */
    ghost var stream: seq<byte>
    ghost var got: seq<Msg>

    ghost predicate Sized()
      reads this
    {
      inbuf.Length == 2 * FS_MAXMSG && inlen <= inbuf.Length
    }

    ghost predicate Valid()
      reads this, inbuf
    {
      && Sized() && got == Split(stream).msgs && (conn <==> !Split(stream).broken)
      && (conn ==> inbuf[..inlen] == Split(stream).rest)
    }

    constructor ()
      ensures Valid() && fresh(inbuf) && conn && stream == [] && got == [] && inlen == 0
    {
      inbuf := new byte[2 * FS_MAXMSG];
      inlen, conn, stream, got := 0, true, [], [];
    }

    /** The first used bytes go; the others move to the front. */
    method Shift(used: nat)
      requires Sized() && used <= inlen
      modifies this`inlen, inbuf
      ensures Sized() && inbuf[..inlen] == old(inbuf[used..inlen])
    {
      var i := used;
      while i < inlen
        invariant used <= i <= inlen == old(inlen)
                  && (forall k :: 0 <= k < i - used ==> inbuf[k] == old(inbuf[used + k]))
                  && (forall k :: i <= k < inlen ==> inbuf[k] == old(inbuf[k]))
      {
        inbuf[i - used] := inbuf[i];
        i := i + 1;
      }
      inlen := inlen - used;
    }

    /** drain_in: every whole message is handed on; what cannot be one ends the connection. */
    method Drain()
      requires Sized() && conn
      modifies this`inlen, this`conn, this`got, inbuf
      ensures Sized() && got == old(got) + Split(old(inbuf[..inlen])).msgs
              && (conn <==> !Split(old(inbuf[..inlen])).broken)
      ensures conn ==> inbuf[..inlen] == Split(old(inbuf[..inlen])).rest
    {
      hide Split, Parse;
      ghost var s, g := inbuf[..inlen], got;
      var m := Raw(0, 0, 0, 0, 0, 0, 0, 0, 0, seq(PATH_MAX, _ => 0), seq(DATA_MAX, _ => 0));
      while true
        invariant Sized() && conn && FsProto.Sized(m) && StepsTo(s, inbuf[..inlen], g, got)
        decreases inlen
      {
        var used, m' := Decode(inbuf, inlen, m);
        ghost var r := inbuf[..inlen];
        Stepping(s, r, g, got);
        if used == 0 { return; }
        if used < 0 {
          inlen := 0;
          conn := false;
          return;
        }
        UsedLow(r);
        Shift(used);
        assert inbuf[..inlen] == r[used..];
        got := got + [View(m')];
        m := m';
      }
    }

    /** As much of a read as there is room for. */
    method Append(data: seq<byte>) returns (n: nat)
      requires Sized()
      modifies this`inlen, inbuf
      ensures Sized() && n == (if |data| <= inbuf.Length - old(inlen) then |data| else inbuf.Length - old(inlen))
      ensures inbuf[..inlen] == old(inbuf[..inlen]) + data[..n]
    {
      ghost var r := inbuf[..inlen];
      n := |data|;
      if n > inbuf.Length - inlen { n := inbuf.Length - inlen; }
      var i := 0;
      while i < n
        invariant i <= n && inlen == |r| && inlen + n <= inbuf.Length && inbuf[..inlen + i] == r + data[..i]
      {
        ghost var s := inbuf[..inlen + i];
        inbuf[inlen + i] := data[i];
        assert inbuf[..inlen + i + 1] == s + [data[i]];
        i := i + 1;
      }
      inlen := inlen + n;
    }

    /** One read of at most 512 bytes, appended and drained: nothing is ever cut off. */
    method Receive(data: seq<byte>)
      requires Valid() && conn && 0 < |data| <= DATA_MAX
      modifies this`inlen, this`conn, this`got, this`stream, inbuf
      ensures Valid() && stream == old(stream) + data
    {
      hide Split;
      ghost var s := stream;
      RestLow(s);
      var n := Append(data);
      assert data[..n] == data;
      SplitMore(s, data);
      stream := stream + data;
      Drain();
    }

    /** The receive loop over a whole conversation, cut up in any way. */
    method Session(chunks: seq<seq<byte>>, ghost ms: seq<Msg>)
      requires Valid() && stream == [] && conn
      requires (forall i :: 0 <= i < |chunks| ==> 0 < |chunks[i]| <= DATA_MAX)
               && (forall i :: 0 <= i < |ms| ==> InRange(ms[i])) && Joined(chunks) == Wires(ms)
      modifies this`inlen, this`conn, this`got, this`stream, inbuf
      ensures Valid() && conn && got == ms && inlen == 0
    {
      hide Split, InRange;
      var i := 0;
      JoinedAll(chunks);
      while i < |chunks|
        invariant i <= |chunks| && Valid() && stream == Joined(chunks[..i]) && conn
      {
        JoinedOne(chunks, i);
        Receive(chunks[i]);
        SplitPrefix(stream, ms);
        i := i + 1;
      }
      SplitWires(ms);
    }
  }
}
