/** The two conversions of src/fat16.c between the UTF-8 of the system and the
    UTF-16 of the disk, against the encodings of section 3 of RFC 3629 and
    section 2 of RFC 2781. */
module Utf {
  import opened Common

  // ---- the standards, one code point at a time

  predicate Scalar(c: nat) {
    c < 0xD800 || 0xE000 <= c < 0x110000
  }

  function Enc8One(c: nat): (r: seq<byte>)
    requires c < 0x110000
    ensures 1 <= |r| <= 4
  {
    if c < 0x80 then [c]
    else if c < 0x800 then [0xC0 + c / 0x40, 0x80 + c % 0x40]
    else if c < 0x10000 then [0xE0 + c / 0x1000, 0x80 + c / 0x40 % 0x40, 0x80 + c % 0x40]
    else [0xF0 + c / 0x40000, 0x80 + c / 0x1000 % 0x40, 0x80 + c / 0x40 % 0x40, 0x80 + c % 0x40]
  }

  function Enc16One(c: nat): (r: seq<nat>)
    requires c < 0x110000
    ensures 1 <= |r| <= 2
  {
    if c < 0x10000 then [c]
    else [0xD800 + (c - 0x10000) / 0x400, 0xDC00 + (c - 0x10000) % 0x400]
  }

  ghost predicate Scalars(cs: seq<nat>) {
    forall i :: 0 <= i < |cs| ==> Scalar(cs[i])
  }

  function Enc8(cs: seq<nat>): seq<byte>
    requires forall i :: 0 <= i < |cs| ==> cs[i] < 0x110000
  {
    if cs == [] then [] else Enc8One(cs[0]) + Enc8(cs[1..])
  }

  function Enc16(cs: seq<nat>): seq<nat>
    requires forall i :: 0 <= i < |cs| ==> cs[i] < 0x110000
  {
    if cs == [] then [] else Enc16One(cs[0]) + Enc16(cs[1..])
  }

  // ---- to_utf16, as the source computes it

  predicate Trail(b: byte) {
    0x80 <= b < 0xC0
  }

  /** How many bytes follow a lead byte, or None for a byte that cannot lead. */
  function Extra(b: byte): Option<nat> {
    if b < 0x80 then Some(0)
    else if 0xC0 <= b < 0xE0 then Some(1)
    else if 0xE0 <= b < 0xF0 then Some(2)
    else if 0xF0 <= b < 0xF8 then Some(3)
    else None
  }

  function LeadBits(b: byte): nat {
    if b < 0x80 then b else if b < 0xE0 then b % 0x20 else if b < 0xF0 then b % 0x10 else b % 0x08
  }

  /** c shifted left six bits for each of the n trail bytes at the front of s. */
  function Gather(c: nat, s: seq<byte>, n: nat): Option<nat>
    decreases n
  {
    if n == 0 then Some(c)
    else if s == [] || !Trail(s[0]) then None
    else Gather(c * 0x40 + s[0] % 0x40, s[1..], n - 1)
  }

  function Emit16(c: nat): seq<nat> {
    if c >= 0x10000 then [0xD800 + (c - 0x10000) / 0x400, 0xDC00 + (c - 0x10000) % 0x400] else [c]
  }

  lemma {:induction false} GatherEnough(c: nat, s: seq<byte>, n: nat)
    ensures Gather(c, s, n).Some? ==> n <= |s|
    decreases n
  {
    if n > 0 && s != [] {
      GatherEnough(c * 0x40 + s[0] % 0x40, s[1..], n - 1);
    }
  }

  /** One character off the front: its code point and how many bytes it took. */
  function Next8(s: seq<byte>): (r: Option<(nat, nat)>)
    requires s != []
    ensures r.Some? ==> 1 <= r.value.1 <= |s|
  {
    var x := Extra(s[0]);
    if x.None? then None else
    var c := Gather(LeadBits(s[0]), s[1..], x.value);
    GatherEnough(LeadBits(s[0]), s[1..], x.value);
    if c.None? then None else Some((c.value, 1 + x.value))
  }

  function Units(s: seq<byte>): Option<seq<nat>> {
    if s == [] then Some([]) else
    var n := Next8(s);
    if n.None? then None else
    var rest := Units(s[n.value.1..]);
    if rest.None? then None else Some(Emit16(n.value.0) + rest.value)
  }

  lemma {:induction false} GatherLow(c: nat, s: seq<byte>, n: nat, bound: nat)
    requires c < bound
    ensures Gather(c, s, n).Some? && n == 0 ==> Gather(c, s, n).value < bound
    ensures Gather(c, s, n).Some? && n == 1 ==> Gather(c, s, n).value < bound * 0x40
    ensures Gather(c, s, n).Some? && n == 2 ==> Gather(c, s, n).value < bound * 0x1000
    ensures Gather(c, s, n).Some? && n == 3 ==> Gather(c, s, n).value < bound * 0x40000
    decreases n
  {
    if n > 0 && s != [] { GatherLow(c * 0x40 + s[0] % 0x40, s[1..], n - 1, bound * 0x40); }
  }

  /** No character becomes more units than it had bytes. */
  lemma {:induction false} UnitsFew(s: seq<byte>)
    ensures Units(s).Some? ==>
            |Units(s).value| <= |s| && forall i :: 0 <= i < |Units(s).value| ==> Units(s).value[i] < 0x10000
    decreases |s|
  {
    if s != [] && Next8(s).Some? {
      var n := Next8(s).value;
      UnitsFew(s[n.1..]);
      GatherLow(LeadBits(s[0]), s[1..], Extra(s[0]).value, if s[0] < 0x80 then 0x80 else if s[0] < 0xE0 then 0x20
          else if s[0] < 0xF0 then 0x10 else 0x08);
    }
  }

  /** The inner loop of to_utf16: the character at s[i..]. */
  method NextChar(s: seq<byte>, i: nat) returns (r: Option<(nat, nat)>)
    requires i < |s|
    ensures r == Next8(s[i..])
  {
    var x := Extra(s[i]);
    if x.None? { return None; }
    var c: nat, k, j := LeadBits(s[i]), x.value, i + 1;
    assert s[i..][1..] == s[j..];
    while k > 0
      invariant i < j <= |s| && 0 <= k <= x.value && j - i == 1 + x.value - k
      invariant Gather(LeadBits(s[i]), s[i + 1..], x.value) == Gather(c, s[j..], k)
    {
      if j == |s| || !Trail(s[j]) { return None; }
      assert s[j..][1..] == s[j + 1..];
      c := c * 0x40 + s[j] % 0x40;
      j, k := j + 1, k - 1;
    }
    return Some((c, j - i));
  }

  /** to_utf16: None stands for -1. */
  method ToUtf16(s: seq<byte>, max: nat) returns (r: Option<seq<nat>>)
    ensures r == if Units(s).Some? && |Units(s).value| <= max then Units(s) else None
  {
    hide Next8;
    var i := 0;
    var out: seq<nat> := [];
    assert s[0..] == s;
    while i < |s|
      invariant 0 <= i <= |s| && |out| <= max
      invariant Units(s).Some? <==> Units(s[i..]).Some?
      invariant Units(s).Some? ==> Units(s).value == out + Units(s[i..]).value
    {
      var n := NextChar(s, i);
      if n.None? { return None; }
      assert s[i..][n.value.1..] == s[i + n.value.1..];
      var u := Emit16(n.value.0);
      if |out| + |u| > max { return None; }
      out := out + u;
      i := i + n.value.1;
    }
    assert out + [] == out;
    return Some(out);
  }

  // ---- to_utf8, as the source computes it

  predicate High(u: nat) {
    0xD800 <= u < 0xDC00
  }

  predicate Low(u: nat) {
    0xDC00 <= u < 0xE000
  }

  predicate PairAt(u: seq<nat>, i: nat) {
    i + 1 < |u| && High(u[i]) && Low(u[i + 1])
  }

  /** The code point at u[i] and how many units it took. */
  function Next16(u: seq<nat>, i: nat): (r: (nat, nat))
    requires i < |u| && forall k :: 0 <= k < |u| ==> u[k] < 0x10000
    ensures 1 <= r.1 && i + r.1 <= |u| && r.0 < 0x110000
  {
    if PairAt(u, i) then (0x10000 + (u[i] - 0xD800) * 0x400 + (u[i + 1] - 0xDC00), 2) else (u[i], 1)
  }

  ghost predicate Is16(u: seq<nat>) {
    forall i :: 0 <= i < |u| ==> u[i] < 0x10000
  }

  function Bytes(u: seq<nat>, i: nat): seq<byte>
    requires i <= |u| && forall k :: 0 <= k < |u| ==> u[k] < 0x10000
    decreases |u| - i
  {
    if i == |u| then [] else Enc8One(Next16(u, i).0) + Bytes(u, i + Next16(u, i).1)
  }

  /** to_utf8 into a buffer of cap bytes, the terminator included. */
  method ToUtf8(u: seq<nat>, cap: nat) returns (r: Option<seq<byte>>)
    requires Is16(u) && 0 < cap
    ensures r == if |Bytes(u, 0)| < cap then Some(Bytes(u, 0)) else None
  {
    hide Enc8One, Next16;
    var i := 0;
    var out: seq<byte> := [];
    while i < |u|
      invariant 0 <= i <= |u| && |out| < cap
      invariant Bytes(u, 0) == out + Bytes(u, i)
    {
      var n := Next16(u, i);
      var b := Enc8One(n.0);
      if |out| + |b| >= cap { return None; }
      out := out + b;
      i := i + n.1;
    }
    assert out + [] == out;
    return Some(out);
  }

  // ---- the conversions undo each other on every well-formed name

  lemma Gather1(c: nat, x: byte, r: seq<byte>)
    requires Trail(x)
    ensures Gather(c, [x] + r, 1) == Some(c * 0x40 + x % 0x40)
  {
  }

  lemma Gather2(c: nat, x: byte, y: byte, r: seq<byte>)
    requires Trail(x) && Trail(y)
    ensures Gather(c, [x, y] + r, 2) == Some((c * 0x40 + x % 0x40) * 0x40 + y % 0x40)
  {
    assert ([x, y] + r)[1..] == [y] + r;
    Gather1(c * 0x40 + x % 0x40, y, r);
  }

  lemma Gather3(c: nat, x: byte, y: byte, z: byte, r: seq<byte>)
    requires Trail(x) && Trail(y) && Trail(z)
    ensures Gather(c, [x, y, z] + r, 3) == Some(((c * 0x40 + x % 0x40) * 0x40 + y % 0x40) * 0x40 + z % 0x40)
  {
    assert ([x, y, z] + r)[1..] == [y, z] + r;
    Gather2(c * 0x40 + x % 0x40, y, z, r);
  }

  lemma Enc2(c: nat)
    requires 0x80 <= c < 0x800
    ensures var e := Enc8One(c);
            Extra(e[0]) == Some(1) && Trail(e[1]) && LeadBits(e[0]) * 0x40 + e[1] % 0x40 == c
  {
    var h, l := c / 0x40, c % 0x40;
    assert (0xC0 + h) % 0x20 == h && (0x80 + l) % 0x40 == l;
  }

  lemma Enc3(c: nat)
    requires 0x800 <= c < 0x10000
    ensures var e := Enc8One(c);
            Extra(e[0]) == Some(2) && Trail(e[1]) && Trail(e[2])
            && (LeadBits(e[0]) * 0x40 + e[1] % 0x40) * 0x40 + e[2] % 0x40 == c
  {
    var h, m, l := c / 0x1000, c / 0x40 % 0x40, c % 0x40;
    assert (0xE0 + h) % 0x10 == h && (0x80 + m) % 0x40 == m && (0x80 + l) % 0x40 == l;
    assert (h * 0x40 + m) * 0x40 + l == c;
  }

  lemma Enc4(c: nat)
    requires 0x10000 <= c < 0x110000
    ensures var e := Enc8One(c);
            Extra(e[0]) == Some(3) && Trail(e[1]) && Trail(e[2]) && Trail(e[3])
            && ((LeadBits(e[0]) * 0x40 + e[1] % 0x40) * 0x40 + e[2] % 0x40) * 0x40 + e[3] % 0x40 == c
  {
    var h, m, n, l := c / 0x40000, c / 0x1000 % 0x40, c / 0x40 % 0x40, c % 0x40;
    LowBits(h, m, n, l);
    Divide(c);
    assert h * 0x40 + m == c / 0x1000;
    assert (c / 0x1000) * 0x40 + n == c / 0x40;
  }

  lemma LowBits(h: nat, m: nat, n: nat, l: nat)
    requires h < 8 && m < 0x40 && n < 0x40 && l < 0x40
    ensures (0xF0 + h) % 0x08 == h && (0x80 + m) % 0x40 == m && (0x80 + n) % 0x40 == n && (0x80 + l) % 0x40 == l
  {
  }

  lemma Divide(c: nat)
    ensures c / 0x1000 == c / 0x40 / 0x40 && c / 0x40000 == c / 0x1000 / 0x40
  {
  }

  lemma Next8Enc(c: nat, rest: seq<byte>)
    requires Scalar(c)
    ensures Next8(Enc8One(c) + rest) == Some((c, |Enc8One(c)|))
  {
    hide Gather, LeadBits, Extra;
    var e := Enc8One(c);
    var s := e + rest;
    if c < 0x80 {
      Gather0(LeadBits(s[0]), s[1..]);
      Ascii(s[0]);
    } else if c < 0x800 {
      Enc2(c);
      assert s[1..] == [e[1]] + rest;
      Gather1(LeadBits(e[0]), e[1], rest);
    } else if c < 0x10000 {
      Enc3(c);
      assert s[1..] == [e[1], e[2]] + rest;
      Gather2(LeadBits(e[0]), e[1], e[2], rest);
    } else {
      Enc4(c);
      assert s[1..] == [e[1], e[2], e[3]] + rest;
      Gather3(LeadBits(e[0]), e[1], e[2], e[3], rest);
    }
  }

  lemma Ascii(b: byte)
    requires b < 0x80
    ensures Extra(b) == Some(0) && LeadBits(b) == b
  {
  }

  lemma Gather0(c: nat, s: seq<byte>)
    ensures Gather(c, s, 0) == Some(c)
  {
  }

  lemma {:induction false} UnitsEnc(cs: seq<nat>)
    requires Scalars(cs)
    ensures Units(Enc8(cs)) == Some(Enc16(cs))
  {
    if cs != [] {
      Next8Enc(cs[0], Enc8(cs[1..]));
      UnitsEnc(cs[1..]);
      assert Enc8(cs)[|Enc8One(cs[0])|..] == Enc8(cs[1..]);
    }
  }

  /** Where one code point ends the next begins: no surrogate pair straddles two. */
  lemma Next16Enc(c: nat, before: seq<nat>, rest: seq<nat>)
    requires Scalar(c) && Is16(before) && Is16(rest)
    ensures Is16(before + Enc16One(c) + rest)
    ensures Next16(before + Enc16One(c) + rest, |before|) == (c, |Enc16One(c)|)
  {
    var u := before + Enc16One(c) + rest;
    assert u[|before|] == Enc16One(c)[0];
    if c >= 0x10000 {
      assert u[|before| + 1] == Enc16One(c)[1];
    }
  }

  lemma {:induction false} Enc16Is16(cs: seq<nat>)
    requires Scalars(cs)
    ensures Is16(Enc16(cs))
  {
    if cs != [] {
      Enc16Is16(cs[1..]);
    }
  }

  lemma {:induction false} BytesEnc(before: seq<nat>, cs: seq<nat>)
    requires Scalars(cs) && Is16(before)
    ensures Is16(before + Enc16(cs)) && Bytes(before + Enc16(cs), |before|) == Enc8(cs)
    decreases cs
  {
    Enc16Is16(cs);
    var u := before + Enc16(cs);
    if cs != [] {
      var e := Enc16One(cs[0]);
      assert u == before + e + Enc16(cs[1..]);
      Enc16Is16(cs[1..]);
      Next16Enc(cs[0], before, Enc16(cs[1..]));
      assert Is16(before + e);
      BytesEnc(before + e, cs[1..]);
    }
  }

  /** Every well-formed UTF-8 name survives the trip to the disk and back. */
  lemma RoundTrip(cs: seq<nat>)
    requires Scalars(cs)
    ensures Units(Enc8(cs)) == Some(Enc16(cs)) && Is16(Enc16(cs)) && Bytes(Enc16(cs), 0) == Enc8(cs)
  {
    UnitsEnc(cs);
    BytesEnc([], cs);
    assert [] + Enc16(cs) == Enc16(cs);
  }

  /** An overlong spelling does not: C0 AE goes to the disk as a full stop. */
  lemma OverlongDot()
    ensures Units([0xC0, 0xAE]) == Some([0x2E]) && Bytes([0x2E], 0) == [0x2E]
  {
    var s: seq<byte> := [0xC0, 0xAE];
    Gather1(0, 0xAE, []);
    assert s[1..] == [0xAE] + [];
    assert Next8(s) == Some((0x2E, 2));
    assert s[2..] == [];
    assert Emit16(0x2E) + [] == [0x2E];
    assert Units(s) == Some([0x2E]);
    var u: seq<nat> := [0x2E];
    assert Next16(u, 0) == (0x2E, 1) && Bytes(u, 1) == [];
  }
}
