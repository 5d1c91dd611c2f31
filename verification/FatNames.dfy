/** Directory entries and their names in src/fat16.c: 8.3 names, VFAT long names in
    the entries before them, and the scan that reads a directory back. */
module FatNames {
  import opened Common
  import opened Utf

  type Slot = s: seq<byte> | |s| == 32 witness seq(32, i => 0)

  const NAME_MAX: nat := 96
  const LFN_MAXUNITS: nat := 128
  const LFN_CHARS: nat := 13
  const SPACE: byte := 0x20
  const DOT: byte := 0x2E

  function Rd16(s: seq<byte>, i: nat): (r: nat)
    requires i + 2 <= |s|
    ensures r < 0x10000
  {
    var lo: int, hi: int := s[i], s[i + 1];
    lo + 0x100 * hi
  }

  function Rd32(s: seq<byte>, i: nat): (r: nat)
    requires i + 4 <= |s|
    ensures r < 0x1_0000_0000
  {
    Rd16(s, i) + 0x10000 * Rd16(s, i + 2)
  }

  function Le16(v: nat): (r: seq<byte>)
    requires v < 0x10000
    ensures |r| == 2 && Rd16(r, 0) == v
  {
    [v % 0x100, v / 0x100]
  }

  function Le32(v: nat): (r: seq<byte>)
    requires v < 0x1_0000_0000
    ensures |r| == 4 && Rd32(r, 0) == v
  {
    var l, h := Le16(v % 0x10000), Le16(v / 0x10000);
    assert Rd16(l + h, 0) == Rd16(l, 0) && Rd16(l + h, 2) == Rd16(h, 0);
    l + h
  }

  // ---- the fields of an entry

  function First(e: Slot): nat { Rd16(e, 26) }
  function Size(e: Slot): nat { Rd32(e, 28) }
  predicate IsDir(e: Slot) { e[11] / 0x10 % 2 == 1 }
  predicate IsLabel(e: Slot) { e[11] / 0x08 % 2 == 1 }
  predicate IsLong(e: Slot) { e[11] == 0x0F }
  predicate Free(e: Slot) { e[0] == 0x00 || e[0] == 0xE5 }

  /** A short entry: what a scan reports. */
  predicate Short(e: Slot) { !Free(e) && !IsLong(e) && !IsLabel(e) }

  // ---- 8.3 names

  function Up(c: byte): byte {
    if 0x61 <= c <= 0x7A then c - 32 else c
  }

  function Upper(s: seq<byte>): (r: seq<byte>)
    ensures |r| == |s|
  {
    seq(|s|, i requires 0 <= i < |s| => Up(s[i]))
  }

  function CStr(s: seq<byte>): seq<byte> {
    if s == [] || s[0] == 0 then [] else [s[0]] + CStr(s[1..])
  }

  /** The bytes before the first space. */
  function Word(s: seq<byte>): seq<byte> {
    if s == [] || s[0] == SPACE then [] else [s[0]] + Word(s[1..])
  }

  predicate HasExt(e: Slot) {
    e[8] != SPACE || e[9] != SPACE || e[10] != SPACE
  }

  /** fmt_name, cut where a C string ends. */
  function FmtName(e: Slot): seq<byte> {
    CStr(Word(e[..8]) + if HasExt(e) then [DOT] + Word(e[8..11]) else [])
  }

  function Base(name: seq<byte>): (r: seq<byte>)
    ensures |r| <= |name|
  {
    if name == [] || name[0] == DOT then [] else [name[0]] + Base(name[1..])
  }

  function Pad(s: seq<byte>, n: nat): (r: seq<byte>)
    ensures |r| == n
  {
    if n <= |s| then s[..n] else s + seq(n - |s|, i => SPACE)
  }

  /** What follows the first dot, if there is one. */
  function Ext(name: seq<byte>): seq<byte> {
    if |Base(name)| < |name| then name[|Base(name)| + 1..] else []
  }

  /** to_83. */
  function To83(name: seq<byte>): (r: seq<byte>)
    ensures |r| == 11
  {
    Pad(Upper(Base(name)), 8) + Pad(Upper(Ext(name)), 3)
  }

  predicate Plain(c: byte) {
    c < 0x80 && c != SPACE && c != DOT && !(0x61 <= c <= 0x7A)
  }

  /** fits_83: the old alphabet holds the name exactly. */
  predicate Fits83(name: seq<byte>) {
    var b, x := Base(name), Ext(name);
    && 1 <= |b| <= 8 && (forall i :: 0 <= i < |b| ==> Plain(b[i]))
    && (|b| < |name| ==> 1 <= |x| <= 3 && forall i :: 0 <= i < |x| ==> Plain(x[i]))
  }

  predicate NoZero(s: seq<byte>) {
    forall i :: 0 <= i < |s| ==> s[i] != 0
  }

  lemma {:induction false} CStrWhole(s: seq<byte>)
    requires NoZero(s)
    ensures CStr(s) == s
  {
    if s != [] { CStrWhole(s[1..]); }
  }

  lemma {:induction false} WordPad(s: seq<byte>, pad: seq<byte>)
    requires SPACE !in s && (pad == [] || pad[0] == SPACE)
    ensures Word(s + pad) == s
  {
    if s == [] {
      assert s + pad == pad;
    } else {
      assert (s + pad)[1..] == s[1..] + pad;
      WordPad(s[1..], pad);
    }
  }

  lemma {:induction false} BaseSplit(name: seq<byte>)
    ensures Base(name) <= name && (|Base(name)| < |name| ==> name[|Base(name)|] == DOT)
  {
    if name != [] && name[0] != DOT { BaseSplit(name[1..]); }
  }

  lemma UpperPlain(s: seq<byte>)
    requires forall i :: 0 <= i < |s| ==> Plain(s[i])
    ensures Upper(s) == s && SPACE !in s
  {
  }

  /** A name that fits comes back from its entry unchanged. */
  lemma FmtTo83(name: seq<byte>, e: Slot)
    requires Fits83(name) && NoZero(name) && e[..11] == To83(name)
    ensures FmtName(e) == name
  {
    var b, x := Base(name), Ext(name);
    BaseSplit(name);
    UpperPlain(b);
    assert e[..8] == To83(name)[..8] == Pad(b, 8);
    assert e[8..11] == e[..11][8..11] == Pad(Upper(x), 3);
    WordPad(b, Pad(b, 8)[|b|..]);
    assert b + Pad(b, 8)[|b|..] == Pad(b, 8);
    if |b| < |name| {
      UpperPlain(x);
      WordPad(x, Pad(x, 3)[|x|..]);
      assert x + Pad(x, 3)[|x|..] == Pad(x, 3);
      assert e[8] == e[8..11][0] == x[0];
      assert name == b + ([DOT] + x);
    } else {
      assert x == [] && e[8] == e[8..11][0] && e[9] == e[8..11][1] && e[10] == e[8..11][2];
      assert name == b + [];
    }
    CStrWhole(name);
  }

  // ---- long names

  /** sfn_sum: rotate right, add, in eight bits. */
  function SfnSum(n: seq<byte>): byte {
    if n == [] then 0 else
    var s: int := SfnSum(n[..|n| - 1]);
    (s % 2 * 0x80 + s / 2 + n[|n| - 1]) % 0x100
  }

  const LFN_OFF: seq<nat> := [1, 3, 5, 7, 9, 14, 16, 18, 20, 22, 24, 28, 30]

  /** lfn_get. */
  function LfnGet(d: Slot): (r: seq<nat>)
    ensures |r| == LFN_CHARS && Is16(r)
  {
    seq(LFN_CHARS, k requires 0 <= k < LFN_CHARS => Rd16(d, LFN_OFF[k]))
  }

  /** The long entry dir_create writes: its sequence byte, the checksum, and the
      thirteen units laid out by lfn_put. */
  function LfnSlot(seqByte: byte, sum: byte, u: seq<nat>): Slot
    requires |u| == LFN_CHARS && forall k :: 0 <= k < |u| ==> u[k] < 0x10000
  {
    [seqByte] + Le16(u[0]) + Le16(u[1]) + Le16(u[2]) + Le16(u[3]) + Le16(u[4]) + [0x0F, 0, sum]
    + Le16(u[5]) + Le16(u[6]) + Le16(u[7]) + Le16(u[8]) + Le16(u[9]) + Le16(u[10]) + [0, 0]
    + Le16(u[11]) + Le16(u[12])
  }

  lemma LfnPutGet(seqByte: byte, sum: byte, u: seq<nat>)
    requires |u| == LFN_CHARS && Is16(u)
    ensures var d := LfnSlot(seqByte, sum, u);
            d[0] == seqByte && d[11] == 0x0F && d[13] == sum && LfnGet(d) == u
  {
    hide Le16;
    var d := LfnSlot(seqByte, sum, u);
    forall k | 0 <= k < LFN_CHARS ensures LfnGet(d)[k] == u[k] {
      LfnUnit(seqByte, sum, u, k);
    }
  }

  lemma LfnUnit(seqByte: byte, sum: byte, u: seq<nat>, k: nat)
    requires |u| == LFN_CHARS && Is16(u) && k < LFN_CHARS
    ensures Rd16(LfnSlot(seqByte, sum, u), LFN_OFF[k]) == u[k]
  {
    hide Le16;
    var d := LfnSlot(seqByte, sum, u);
    assert d[LFN_OFF[k]] == Le16(u[k])[0] && d[LFN_OFF[k] + 1] == Le16(u[k])[1];
    assert Rd16(Le16(u[k]), 0) == u[k];
  }
}
