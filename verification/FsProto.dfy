/** The wire form of a file request (src/fsproto.h): messages and byte strings, one to one. */
module FsProto {
  import opened Common

  const FS_HDR: nat := 32
  const PATH_MAX: nat := 128
  const DATA_MAX: nat := 512
  const FS_MAXMSG: nat := 672

  /** A message, as its fields mean it. */
  datatype Msg = Msg(tag: int, kind: int, op: int, fd: int, count: int, result: int, ioctl: int, path: seq<byte>,
      data: seq<byte>)

  predicate Int32(v: int) { -0x8000_0000 <= v < 0x8000_0000 }

  /** What the fields of the structure can hold without being cut. */
  ghost predicate InRange(m: Msg) {
    && 0 <= m.tag < 0x1_0000 && 0 <= m.kind < 256 && 0 <= m.op < 256 && Int32(m.fd) && Int32(m.count) && Int32(m.result)
    && 0 <= m.ioctl < 0x1_0000_0000_0000_0000 && |m.path| <= PATH_MAX && |m.data| <= DATA_MAX
  }

  // ---- little-endian numbers

  /** The n low bytes of v. */
  function Le(v: int, n: nat): (s: seq<byte>)
    ensures |s| == n
    decreases n
  {
    if n == 0 then [] else [v % 256] + Le(v / 256, n - 1)
  }

  function Un(s: seq<byte>): nat {
    if s == [] then 0 else s[0] + 256 * Un(s[1..])
  }

  function Pow256(n: nat): nat { if n == 0 then 1 else 256 * Pow256(n - 1) }

  lemma {:induction false} UnLe(v: nat, n: nat)
    requires v < Pow256(n)
    ensures Un(Le(v, n)) == v
    decreases n
  {
    if n > 0 {
      var s := Le(v, n);
      assert s[1..] == Le(v / 256, n - 1);
      UnLe(v / 256, n - 1);
    }
  }

  lemma {:induction false} LeUn(s: seq<byte>)
    ensures Le(Un(s), |s|) == s && Un(s) < Pow256(|s|)
  {
    if s != [] {
      LeUn(s[1..]);
      assert Un(s) % 256 == s[0] && Un(s) / 256 == Un(s[1..]);
      assert s == [s[0]] + s[1..];
    }
  }

  lemma Powers()
    ensures Pow256(2) == 0x1_0000 && Pow256(4) == 0x1_0000_0000 && Pow256(8) == 0x1_0000_0000_0000_0000
  {
    assert Pow256(1) == 256 * Pow256(0);
    assert Pow256(3) == 256 * Pow256(2);
    assert Pow256(5) == 256 * Pow256(4);
    assert Pow256(7) == 256 * Pow256(6);
  }

  /** Two's complement, and back. */
  function Unsigned(v: int): (r: nat)
    ensures r < 0x1_0000_0000
  {
    v % 0x1_0000_0000
  }

  function Signed(v: nat): int { if v < 0x8000_0000 then v else v - 0x1_0000_0000 }

  // ---- the two directions

  function Length(m: Msg): nat { FS_HDR + |m.path| + |m.data| }

  /** The header, field by field. */
  function Header(m: Msg): (s: seq<byte>)
    ensures |s| == FS_HDR
  {
    Le(Length(m), 4) + Le(m.tag, 2) + Le(m.kind, 1) + Le(m.op, 1) + Le(Unsigned(m.fd), 4) + Le(Unsigned(m.count), 4)
        + Le(Unsigned(m.result), 4) + Le(m.ioctl, 8) + Le(|m.path|, 2) + Le(|m.data|, 2)
  }

  function Wire(m: Msg): (s: seq<byte>)
    ensures |s| == Length(m)
  {
    Header(m) + m.path + m.data
  }

  /** Not yet a whole message, never one, or one that took used bytes. */
  datatype Parsed = Short | Broken | Whole(used: nat, msg: Msg)

  function Fields(s: seq<byte>): Msg
    requires |s| >= FS_HDR && FS_HDR + Un(s[28..30]) + Un(s[30..32]) <= |s|
  {
    var pl, dl := Un(s[28..30]), Un(s[30..32]);
    Msg(Un(s[4..6]), Un(s[6..7]), Un(s[7..8]), Signed(Un(s[8..12])), Signed(Un(s[12..16])), Signed(Un(s[16..20])),
        Un(s[20..28]), s[FS_HDR..FS_HDR + pl], s[FS_HDR + pl..FS_HDR + pl + dl])
  }

  function Parse(s: seq<byte>): Parsed {
    if |s| < 4 then Short else
    var len := Un(s[..4]);
    if len < FS_HDR || len > FS_MAXMSG then Broken
    else if |s| < len then Short
    else if Un(s[28..30]) > PATH_MAX || Un(s[30..32]) > DATA_MAX
        || FS_HDR + Un(s[28..30]) + Un(s[30..32]) != len then Broken
    else Whole(len, Fields(s))
  }

  /** A piece of a concatenation. */
  lemma Piece(a: seq<byte>, b: seq<byte>, c: seq<byte>)
    ensures (a + b + c)[|a|..|a| + |b|] == b
  {
  }

  lemma HeaderFields(m: Msg)
    ensures var h := Header(m);
            && h[..4] == Le(Length(m), 4) && h[4..6] == Le(m.tag, 2) && h[6..7] == Le(m.kind, 1)
            && h[7..8] == Le(m.op, 1)
            && h[8..12] == Le(Unsigned(m.fd), 4) && h[12..16] == Le(Unsigned(m.count), 4)
            && h[16..20] == Le(Unsigned(m.result), 4)
            && h[20..28] == Le(m.ioctl, 8) && h[28..30] == Le(|m.path|, 2) && h[30..32] == Le(|m.data|, 2)
  {
    hide Le, Unsigned;
  }

  lemma HeaderNumbers(m: Msg)
    requires InRange(m)
    ensures var h := Header(m);
            && Un(h[..4]) == Length(m) && Un(h[4..6]) == m.tag && Un(h[6..7]) == m.kind && Un(h[7..8]) == m.op
            && Signed(Un(h[8..12])) == m.fd && Signed(Un(h[12..16])) == m.count && Signed(Un(h[16..20])) == m.result
            && Un(h[20..28]) == m.ioctl && Un(h[28..30]) == |m.path| && Un(h[30..32]) == |m.data|
  {
    hide Le, Un, Header, Pow256;
    HeaderFields(m);
    Powers();
    OnePower();
    UnLe(Length(m), 4);
    UnLe(m.tag, 2);
    UnLe(m.kind, 1);
    UnLe(m.op, 1);
    UnLe(Unsigned(m.fd), 4);
    UnLe(Unsigned(m.count), 4);
    UnLe(Unsigned(m.result), 4);
    UnLe(m.ioctl, 8);
    UnLe(|m.path|, 2);
    UnLe(|m.data|, 2);
  }

  lemma OnePower()
    ensures Pow256(1) == 256
  {
    assert Pow256(0) == 1;
  }

  lemma InHeader(m: Msg, rest: seq<byte>, i: nat, j: nat)
    requires i <= j <= FS_HDR
    ensures |Wire(m) + rest| >= FS_HDR && (Wire(m) + rest)[i..j] == Header(m)[i..j]
  {
    hide Header;
    var s, h := Wire(m) + rest, Header(m);
    forall k | i <= k < j ensures s[k] == h[k] { }
  }

  /** What was encoded decodes to itself, whatever follows it. */
  lemma DecodeEncode(m: Msg, rest: seq<byte>)
    requires InRange(m)
    ensures Parse(Wire(m) + rest) == Whole(|Wire(m)|, m)
  {
    hide Header, Un, Signed, Fields, Wire;
    HeaderNumbers(m);
    InHeader(m, rest, 0, 4);
    InHeader(m, rest, 28, 30);
    InHeader(m, rest, 30, 32);
    var s := Wire(m) + rest;
    assert s[..4] == s[0..4] && Header(m)[..4] == Header(m)[0..4];
    FieldsBack(m, rest);
  }

  lemma FieldsBack(m: Msg, rest: seq<byte>)
    requires InRange(m)
    ensures var s := Wire(m) + rest; |s| >= FS_HDR && FS_HDR + Un(s[28..30]) + Un(s[30..32]) <= |s| && Fields(s) == m
  {
    hide Header, Un, Signed;
    HeaderNumbers(m);
    InHeader(m, rest, 4, 6);
    InHeader(m, rest, 6, 7);
    InHeader(m, rest, 7, 8);
    InHeader(m, rest, 8, 12);
    InHeader(m, rest, 12, 16);
    InHeader(m, rest, 16, 20);
    InHeader(m, rest, 20, 28);
    InHeader(m, rest, 28, 30);
    InHeader(m, rest, 30, 32);
    BodyBack(m, rest);
  }

  lemma BodyBack(m: Msg, rest: seq<byte>)
    ensures var s, p, d := Wire(m) + rest, |m.path|, |m.data|;
            s[FS_HDR..FS_HDR + p] == m.path && s[FS_HDR + p..FS_HDR + p + d] == m.data
  {
    hide Header;
    var h := Header(m);
    Piece(h, m.path, m.data + rest);
    Piece(h + m.path, m.data, rest);
    assert h + m.path + (m.data + rest) == Wire(m) + rest;
    assert h + m.path + m.data + rest == Wire(m) + rest;
  }

  /** Nothing short of the whole message is taken for one, or for none. */
  lemma PrefixShort(m: Msg, n: nat)
    requires InRange(m) && n < |Wire(m)|
    ensures Parse(Wire(m)[..n]) == Short
  {
    hide Header, Un, Fields;
    HeaderNumbers(m);
    InHeader(m, [], 0, 4);
    assert Wire(m) + [] == Wire(m);
    if n >= 4 { assert Wire(m)[..n][..4] == Wire(m)[0..4] == Header(m)[..4]; }
  }

  /** What decodes is what was encoded: the bytes taken are the message's own. */
  lemma EncodeDecode(s: seq<byte>)
    requires Parse(s).Whole?
    ensures InRange(Parse(s).msg) && Parse(s).used <= |s| && Wire(Parse(s).msg) == s[..Parse(s).used]
  {
    hide Le, Un, Header, Signed, Unsigned;
    var m, n := Parse(s).msg, Parse(s).used;
    Ranges(s);
    HeaderBack(s);
    var pl := |m.path|;
    assert s[..n] == s[..FS_HDR] + s[FS_HDR..FS_HDR + pl] + s[FS_HDR + pl..n];
  }

  lemma UnLow(s: seq<byte>)
    ensures |s| == 1 ==> Un(s) < 256
    ensures |s| == 2 ==> Un(s) < 0x1_0000
    ensures |s| == 4 ==> Un(s) < 0x1_0000_0000
    ensures |s| == 8 ==> Un(s) < 0x1_0000_0000_0000_0000
  {
    hide Un, Le, Pow256;
    LeUn(s);
    Powers();
    OnePower();
  }

  lemma Ranges(s: seq<byte>)
    requires Parse(s).Whole?
    ensures InRange(Parse(s).msg)
  {
    hide Un;
    UnLow(s[4..6]);
    UnLow(s[6..7]);
    UnLow(s[7..8]);
    UnLow(s[8..12]);
    UnLow(s[12..16]);
    UnLow(s[16..20]);
    UnLow(s[20..28]);
  }

  lemma SignedBack(v: nat)
    requires v < 0x1_0000_0000
    ensures Unsigned(Signed(v)) == v
  {
  }

  lemma HeaderBack(s: seq<byte>)
    requires Parse(s).Whole?
    ensures Header(Parse(s).msg) == s[..FS_HDR]
  {
    hide Le, Un, Signed, Unsigned, Pow256;
    UnLow(s[8..12]);
    UnLow(s[12..16]);
    UnLow(s[16..20]);
    SignedBack(Un(s[8..12]));
    SignedBack(Un(s[12..16]));
    SignedBack(Un(s[16..20]));
    LeUn(s[..4]);
    LeUn(s[4..6]);
    LeUn(s[6..7]);
    LeUn(s[7..8]);
    LeUn(s[8..12]);
    LeUn(s[12..16]);
    LeUn(s[16..20]);
    LeUn(s[20..28]);
    LeUn(s[28..30]);
    LeUn(s[30..32]);
    Pieces(s);
  }

  lemma Pieces(s: seq<byte>)
    requires |s| >= FS_HDR
    ensures s[..FS_HDR] == s[..4] + s[4..6] + s[6..7] + s[7..8] + s[8..12] + s[12..16] + s[16..20] + s[20..28]
                           + s[28..30] + s[30..32]
  {
    assert s[..FS_HDR] == s[..30] + s[30..32];
    assert s[..30] == s[..28] + s[28..30];
    assert s[..28] == s[..20] + s[20..28];
    assert s[..20] == s[..16] + s[16..20];
    assert s[..16] == s[..12] + s[12..16];
    assert s[..12] == s[..8] + s[8..12];
    assert s[..8] == s[..7] + s[7..8];
    assert s[..7] == s[..6] + s[6..7];
    assert s[..6] == s[..4] + s[4..6];
  }

  /** A message is at most FS_MAXMSG long, so a buffer that long decides. */
  lemma ShortIsShort(s: seq<byte>)
    requires Parse(s).Short?
    ensures |s| < FS_MAXMSG
  {
  }

  // ---- the code

  /** struct fs_msg: two lengths beside two buffers of fixed size. */
  datatype Raw = Raw(tag: int, kind: int, op: int, fd: int, count: int, result: int, ioctl: nat, pathlen: int,
      datalen: int, path: seq<byte>, data: seq<byte>)

  ghost predicate Sized(m: Raw) { |m.path| == PATH_MAX && |m.data| == DATA_MAX && m.ioctl < 0x1_0000_0000_0000_0000 }

  function Clamp(n: int, max: nat): (r: nat)
    ensures r <= max
  {
    if n < 0 then 0 else if n > max then max else n
  }

  /** What a structure says; a length out of bounds counts as the nearest that is not. */
  function View(m: Raw): (v: Msg)
    requires |m.path| == PATH_MAX && |m.data| == DATA_MAX
    ensures |v.path| <= PATH_MAX && |v.data| <= DATA_MAX
  {
    Msg(m.tag, m.kind, m.op, m.fd, m.count, m.result, m.ioctl, m.path[..Clamp(m.pathlen, PATH_MAX)],
        m.data[..Clamp(m.datalen, DATA_MAX)])
  }

  /** fs_put16, fs_put32 and the single bytes. */
  method PutLe(out: array<byte>, at: nat, v: int, n: nat)
    requires at + n <= out.Length
    modifies out
    ensures out[..at + n] == old(out[..at]) + Le(v, n) && forall j :: at + n <= j < out.Length ==> out[j] == old(out[j])
  {
    var i, w := 0, v;
    assert out[..at] == old(out[..at]) + Le(v, 0);
    while i < n
      invariant i <= n && out[..at + i] + Le(w, n - i) == old(out[..at]) + Le(v, n)
                && forall j :: at + n <= j < out.Length ==> out[j] == old(out[j])
    {
      ghost var s := out[..at + i];
      out[at + i] := w % 256;
      assert out[..at + i + 1] == s + [w % 256];
      LeStep(s, w, n - i);
      w := w / 256;
      i := i + 1;
    }
  }

  lemma LeStep(s: seq<byte>, w: int, k: nat)
    requires k > 0
    ensures s + [w % 256] + Le(w / 256, k - 1) == s + Le(w, k)
  {
  }

  method PutBytes(out: array<byte>, at: nat, src: seq<byte>, n: nat)
    requires at + n <= out.Length && n <= |src|
    modifies out
    ensures out[..at + n] == old(out[..at]) + src[..n] && forall j :: at + n <= j < out.Length ==> out[j] == old(out[j])
  {
    var i := 0;
    while i < n
      invariant i <= n && out[..at + i] == old(out[..at]) + src[..i]
                && forall j :: at + n <= j < out.Length ==> out[j] == old(out[j])
    {
      ghost var s := out[..at + i];
      out[at + i] := src[i];
      assert out[..at + i + 1] == s + [src[i]];
      i := i + 1;
    }
  }

  /** The fields before the ioctl number. */
  method PutFirst(m: Raw, out: array<byte>, len: nat)
    requires out.Length >= FS_HDR
    modifies out
    ensures out[..20] == Le(len, 4) + Le(m.tag, 2) + Le(m.kind, 1) + Le(m.op, 1) + Le(Unsigned(m.fd), 4)
            + Le(Unsigned(m.count), 4) + Le(Unsigned(m.result), 4)
    ensures forall j :: 20 <= j < out.Length ==> out[j] == old(out[j])
  {
    hide Le, Unsigned;
    PutLe(out, 0, len, 4);
    PutLe(out, 4, m.tag, 2);
    PutLe(out, 6, m.kind, 1);
    PutLe(out, 7, m.op, 1);
    PutLe(out, 8, Unsigned(m.fd), 4);
    PutLe(out, 12, Unsigned(m.count), 4);
    PutLe(out, 16, Unsigned(m.result), 4);
  }

  method PutHeader(m: Raw, out: array<byte>, pl: nat, dl: nat)
    requires Sized(m) && out.Length >= FS_HDR && pl == Clamp(m.pathlen, PATH_MAX) && dl == Clamp(m.datalen, DATA_MAX)
    modifies out
    ensures out[..FS_HDR] == Header(View(m)) && forall j :: FS_HDR <= j < out.Length ==> out[j] == old(out[j])
  {
    hide Le, Unsigned, Clamp;
    PutFirst(m, out, FS_HDR + pl + dl);
    LeHalves(m.ioctl);
    PutLe(out, 20, m.ioctl % 0x1_0000_0000, 4);
    PutLe(out, 24, m.ioctl / 0x1_0000_0000, 4);
    PutLe(out, 28, pl, 2);
    PutLe(out, 30, dl, 2);
  }

  lemma LeHalves(v: nat)
    requires v < 0x1_0000_0000_0000_0000
    ensures Le(v % 0x1_0000_0000, 4) + Le(v / 0x1_0000_0000, 4) == Le(v, 8)
  {
    hide Le, Un, Pow256;
    var a, b := Le(v % 0x1_0000_0000, 4), Le(v / 0x1_0000_0000, 4);
    Powers();
    UnLe(v % 0x1_0000_0000, 4);
    UnLe(v / 0x1_0000_0000, 4);
    UnCat(a, b);
    LeUn(a + b);
  }

  /** fs_encode: the message's own bytes, or -1 if they would not fit. */
  method Encode(m: Raw, out: array<byte>, cap: nat) returns (r: int)
    requires Sized(m) && cap <= out.Length
    modifies out
    ensures r == if Length(View(m)) > cap then -1 else Length(View(m))
    ensures r == -1 ==> out[..] == old(out[..])
    ensures r != -1 ==> out[..r] == Wire(View(m)) && out[r..] == old(out[r..])
  {
    hide Header, Le;
    var pl, dl := Clamp(m.pathlen, PATH_MAX), Clamp(m.datalen, DATA_MAX);
    var len := FS_HDR + pl + dl;
    if len > cap { return -1; }
    PutHeader(m, out, pl, dl);
    PutBytes(out, FS_HDR, m.path, pl);
    PutBytes(out, FS_HDR + pl, m.data, dl);
    r := len;
  }

  // ---- and back

  function Get16(s: seq<byte>, at: nat): (v: nat)
    requires at + 2 <= |s|
    ensures v == Un(s[at..at + 2])
  {
    assert s[at..at + 2] == [s[at], s[at + 1]];
    var a: int, b: int := s[at], s[at + 1];
    UnTwo(a, b);
    a + b * 0x100
  }

  function Get32(s: seq<byte>, at: nat): (v: nat)
    requires at + 4 <= |s|
    ensures v == Un(s[at..at + 4])
  {
    UnFour(s[at], s[at + 1], s[at + 2], s[at + 3]);
    assert s[at..at + 4] == [s[at], s[at + 1], s[at + 2], s[at + 3]];
    var a: int, b: int, c: int, d: int := s[at], s[at + 1], s[at + 2], s[at + 3];
    a + b * 0x100 + c * 0x1_0000 + d * 0x100_0000
  }

  lemma UnTwo(a: byte, b: byte)
    ensures Un([a, b]) == a as int + b as int * 0x100
  {
    assert [a, b][1..] == [b] && [b][1..] == [];
    assert Un([b]) == b;
  }

  lemma UnFour(a: byte, b: byte, c: byte, d: byte)
    ensures Un([a, b, c, d]) == a as int + b as int * 0x100 + c as int * 0x1_0000 + d as int * 0x100_0000
  {
    assert [a, b, c, d][1..] == [b, c, d] && [b, c, d][1..] == [c, d];
    UnTwo(c, d);
    assert Un([b, c, d]) == b as int + 256 * Un([c, d]);
  }

  lemma {:induction false} UnCat(a: seq<byte>, b: seq<byte>)
    ensures Un(a + b) == Un(a) + Pow256(|a|) * Un(b)
  {
    if a == [] {
      assert a + b == b;
    } else {
      assert (a + b)[1..] == a[1..] + b && (a + b)[0] == a[0];
      UnCat(a[1..], b);
      Scale(Un(a[1..]), Pow256(|a| - 1), Un(b));
    }
  }

  lemma Scale(x: nat, p: nat, u: nat)
    ensures 256 * (x + p * u) == 256 * x + (256 * p) * u
  {
  }

  lemma UnHalves(s: seq<byte>)
    requires |s| == 8
    ensures Un(s) == Un(s[..4]) + 0x1_0000_0000 * Un(s[4..])
  {
    hide Un;
    assert s == s[..4] + s[4..];
    UnCat(s[..4], s[4..]);
    Powers();
  }

  lemma UnOne(s: seq<byte>)
    requires |s| == 1
    ensures Un(s) == s[0]
  {
    assert s[1..] == [];
  }

  method Load(inp: seq<byte>, at: nat, n: nat, buf: seq<byte>) returns (r: seq<byte>)
    requires at + n <= |inp| && n <= |buf|
    ensures |r| == |buf| && r[..n] == inp[at..at + n]
  {
    r := buf;
    var i := 0;
    while i < n
      invariant i <= n && |r| == |buf| && r[..i] == inp[at..at + i]
    {
      ghost var s := r[..i];
      r := r[i := inp[at + i]];
      assert r[..i + 1] == s + [inp[at + i]];
      i := i + 1;
    }
  }

  /** fs_decode of the first have bytes of a buffer; 0 if they are not yet a message, -1 if
      they cannot be one. */
  method Decode(buf: array<byte>, have: nat, m: Raw) returns (used: int, m': Raw)
    requires Sized(m) && have <= buf.Length
    ensures match Parse(buf[..have])
            case Short => used == 0
            case Broken => used == -1
            case Whole(n, v) => used == n && n > 0 && Sized(m') && View(m') == v
  {
    hide Un, Signed;
    m' := m;
    var s := buf[..have];
    if have < 4 { return 0, m; }
    var len := Get32(s, 0);
    assert s[..4] == s[0..4];
    if len < FS_HDR || len > FS_MAXMSG { return -1, m; }
    if have < len { return 0, m; }
    UnHalves(s[20..28]);
    assert s[20..28][..4] == s[20..24] && s[20..28][4..] == s[24..28];
    UnOne(s[6..7]);
    UnOne(s[7..8]);
    var pl, dl := Get16(s, 28), Get16(s, 30);
    if pl > PATH_MAX || dl > DATA_MAX || FS_HDR + pl + dl != len { return -1, m; }
    var path := Load(s, FS_HDR, pl, m.path);
    var data := Load(s, FS_HDR + pl, dl, m.data);
    UnLow(s[20..28]);
    m' := Raw(Get16(s, 4), s[6], s[7], Signed(Get32(s, 8)), Signed(Get32(s, 12)), Signed(Get32(s, 16)),
        Get32(s, 20) + Get32(s, 24) * 0x1_0000_0000, pl, dl, path, data);
    used := len;
  }
}
