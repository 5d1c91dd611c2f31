/** Reading a directory back: the scan of src/fat16.c over a directory's slots, and
    what creating, erasing and rewriting entries does to what it reports. */
module FatScan {
  import opened Common
  import opened Utf
  import opened FatNames

  type Buf = s: seq<nat> | |s| == LFN_MAXUNITS && forall i :: 0 <= i < |s| ==> s[i] < 0x10000
    witness seq(LFN_MAXUNITS, i => 0)

  /** struct dscan: a chain of long entries being collected, or none. */
  datatype Chain = NoChain | Chain(sum: byte, units: Buf, nunits: nat, first: nat)

  datatype Item = Item(idx: nat, chain: nat, name: seq<byte>, ent: Slot)

  function SeqNo(d: Slot): nat { d[0] % 0x40 }
  predicate IsLast(d: Slot) { d[0] / 0x40 % 2 == 1 }

  function ZeroBuf(): Buf { seq(LFN_MAXUNITS, i => 0) }

  function PutUnits(b: Buf, at: nat, u: seq<nat>): (r: Buf)
    requires |u| == LFN_CHARS && at + LFN_CHARS <= LFN_MAXUNITS && forall k :: 0 <= k < |u| ==> u[k] < 0x10000
    ensures forall i :: 0 <= i < |r| ==> r[i] == if at <= i < at + LFN_CHARS then u[i - at] else b[i]
  {
    b[..at] + u + b[at + LFN_CHARS..]
  }

  /** A long entry at slot i. */
  function StepLong(st: Chain, i: nat, d: Slot): Chain {
    var st1 := if IsLast(d) then Chain(d[13], ZeroBuf(), 0, i) else st;
    var n := SeqNo(d);
    if st1.Chain? && 1 <= n && n * LFN_CHARS <= LFN_MAXUNITS then
      Chain(st1.sum, PutUnits(st1.units, (n - 1) * LFN_CHARS, LfnGet(d)),
            if n * LFN_CHARS > st1.nunits then n * LFN_CHARS else st1.nunits, st1.first)
    else NoChain
  }

  function After(st: Chain, i: nat, d: Slot): Chain {
    if !Free(d) && IsLong(d) then StepLong(st, i, d) else NoChain
  }

  /** The scan's state on reaching slot k. */
  function StTo(slots: seq<Slot>, k: nat): Chain
    requires k <= |slots|
  {
    if k == 0 then NoChain else After(StTo(slots, k - 1), k - 1, slots[k - 1])
  }

  /** How many units come before the terminator. */
  function Cut(b: Buf, u: nat, n: nat): (r: nat)
    requires u <= n <= LFN_MAXUNITS
    ensures u <= r <= n
    decreases n - u
  {
    if u == n || b[u] == 0 || b[u] == 0xFFFF then u else Cut(b, u + 1, n)
  }

  function LongName(st: Chain): seq<byte>
    requires st.Chain?
  {
    var n := if st.nunits <= LFN_MAXUNITS then st.nunits else LFN_MAXUNITS;
    Bytes(st.units[..Cut(st.units, 0, n)], 0)
  }

  /** The long name if one is attached, its checksum holds and it fits; else 8.3. */
  function NameOf(st: Chain, e: Slot): seq<byte> {
    if st.Chain? && st.sum == SfnSum(e[..11]) && |LongName(st)| < NAME_MAX then LongName(st) else FmtName(e)
  }

  function ItemAt(slots: seq<Slot>, i: nat): Item
    requires i < |slots|
  {
    var st := StTo(slots, i);
    Item(i, if st.Chain? then st.first else i, NameOf(st, slots[i]), slots[i])
  }

  function ItemsFrom(slots: seq<Slot>, a: nat, b: nat): seq<Item>
    requires b <= |slots|
    decreases b
  {
    if b <= a then [] else ItemsFrom(slots, a, b - 1) + (if Short(slots[b - 1]) then [ItemAt(slots, b - 1)] else [])
  }

  /** The first slot nothing was ever put in; nothing beyond it is looked at. */
  function EndFrom(slots: seq<Slot>, i: nat): (r: nat)
    requires i <= |slots|
    ensures i <= r <= |slots| && (forall j :: i <= j < r ==> slots[j][0] != 0) && (r < |slots| ==> slots[r][0] == 0)
    decreases |slots| - i
  {
    if i == |slots| || slots[i][0] == 0 then i else EndFrom(slots, i + 1)
  }

  function EndOf(slots: seq<Slot>): nat { EndFrom(slots, 0) }

  /** Everything dscan_next reports, in order. */
  function Listing(slots: seq<Slot>): seq<Item> {
    ItemsFrom(slots, 0, EndOf(slots))
  }

  predicate Live(slots: seq<Slot>, i: nat) {
    i < EndOf(slots) && Short(slots[i])
  }

  // ---- lookup

  function NameEq(a: seq<byte>, b: seq<byte>): bool {
    Upper(a) == Upper(b)
  }

  function Find(items: seq<Item>, name: seq<byte>): (r: Option<Item>)
    ensures r.Some? ==> r.value in items && NameEq(r.value.name, name)
    ensures r.None? ==> forall x :: x in items ==> !NameEq(x.name, name)
  {
    if items == [] then None
    else if NameEq(items[0].name, name) then Some(items[0])
    else Find(items[1..], name)
  }

  function Lookup(slots: seq<Slot>, name: seq<byte>): Option<Item> {
    Find(Listing(slots), name)
  }

  lemma {:induction false} FindConcat(a: seq<Item>, b: seq<Item>, name: seq<byte>)
    ensures Find(a + b, name) == if Find(a, name).Some? then Find(a, name) else Find(b, name)
    decreases a
  {
    if a == [] {
      assert a + b == b;
    } else {
      assert (a + b)[1..] == a[1..] + b;
      FindConcat(a[1..], b, name);
    }
  }

  // ---- the listing is made of pieces

  lemma {:induction false} ItemsSplit(slots: seq<Slot>, a: nat, b: nat, c: nat)
    requires a <= b <= c <= |slots|
    ensures ItemsFrom(slots, a, c) == ItemsFrom(slots, a, b) + ItemsFrom(slots, b, c)
    decreases c
  {
    if b < c { ItemsSplit(slots, a, b, c - 1); }
  }

  lemma {:induction false} SamePrefix(slots: seq<Slot>, slots': seq<Slot>, k: nat)
    requires k <= |slots| && k <= |slots'| && slots[..k] == slots'[..k]
    ensures StTo(slots, k) == StTo(slots', k) && ItemsFrom(slots, 0, k) == ItemsFrom(slots', 0, k)
  {
    if k > 0 {
      assert slots[..k - 1] == slots[..k][..k - 1] && slots'[..k - 1] == slots'[..k][..k - 1];
      assert slots[k - 1] == slots[..k][k - 1] && slots'[k - 1] == slots'[..k][k - 1];
      SamePrefix(slots, slots', k - 1);
    }
  }

  lemma {:induction false} SameMiddle(slots: seq<Slot>, slots': seq<Slot>, a: nat, b: nat)
    requires a <= b <= |slots| && b <= |slots'| && StTo(slots, a) == StTo(slots', a)
    requires forall i :: a <= i < b ==> slots[i] == slots'[i]
    ensures StTo(slots, b) == StTo(slots', b) && ItemsFrom(slots, a, b) == ItemsFrom(slots', a, b)
    decreases b
  {
    hide After, NameOf, Short;
    if a < b { SameMiddle(slots, slots', a, b - 1); }
  }

  lemma {:induction false} FreeMiddle(slots: seq<Slot>, a: nat, b: nat)
    requires a <= b <= |slots| && StTo(slots, a).NoChain? && forall i :: a <= i < b ==> Free(slots[i])
    ensures StTo(slots, b).NoChain? && ItemsFrom(slots, a, b) == []
    decreases b
  {
    if a < b { FreeMiddle(slots, a, b - 1); }
  }

  lemma {:induction false} EndIs(slots: seq<Slot>, i: nat, e: nat)
    requires i <= e <= |slots| && (forall j :: i <= j < e ==> slots[j][0] != 0) && (e < |slots| ==> slots[e][0] == 0)
    ensures EndFrom(slots, i) == e
    decreases e - i
  {
    if i < e { EndIs(slots, i + 1, e); }
  }

  lemma {:induction false} ItemsIn(slots: seq<Slot>, a: nat, b: nat, x: Item)
    requires b <= |slots|
    ensures x in ItemsFrom(slots, a, b) <==> a <= x.idx < b && Short(slots[x.idx]) && x == ItemAt(slots, x.idx)
    decreases b
  {
    hide Short, NameOf, StTo;
    if a < b { ItemsIn(slots, a, b - 1, x); }
  }

  // ---- tidy directories

  ghost predicate ZeroTail(slots: seq<Slot>) {
    forall k :: EndOf(slots) <= k < |slots| ==> slots[k][0] == 0
  }

  predicate Opens(d: Slot) {
    Free(d) || (IsLong(d) && IsLast(d))
  }

  /** No long entries are left dangling before a free slot or another long name. */
  ghost predicate Clean(slots: seq<Slot>) {
    forall k {:trigger StTo(slots, k)} ::
        0 <= k < |slots| && k <= EndOf(slots) && Opens(slots[k]) ==> StTo(slots, k).NoChain?
  }

  ghost predicate Tidy(slots: seq<Slot>) {
    ZeroTail(slots) && Clean(slots)
  }

  /** A chain being collected is an unbroken run of long entries. */
  lemma {:induction false} ChainSpan(slots: seq<Slot>, k: nat)
    requires k <= |slots|
    ensures var st := StTo(slots, k);
            st.Chain? ==>
                st.first < k && IsLast(slots[st.first])
                && forall j :: st.first <= j < k ==> !Free(slots[j]) && IsLong(slots[j])
  {
    if k > 0 { ChainSpan(slots, k - 1); }
  }

  /** Only the slots in [a, b) differ, and the scan passes through both versions of
      them without an open chain at either end. */
  ghost predicate Patch(slots: seq<Slot>, slots': seq<Slot>, a: nat, b: nat) {
    && |slots'| == |slots| && a <= b <= |slots| && a <= EndOf(slots)
    && (forall i :: 0 <= i < |slots| && !(a <= i < b) ==> slots'[i] == slots[i])
    && StTo(slots, a).NoChain? && (b <= EndOf(slots) ==> StTo(slots, b).NoChain?) && StTo(slots', b).NoChain?
    && (forall i :: a <= i < b ==> slots'[i][0] != 0)
  }

  lemma PatchEnd(slots: seq<Slot>, slots': seq<Slot>, a: nat, b: nat)
    requires Patch(slots, slots', a, b) && ZeroTail(slots)
    ensures EndOf(slots') == if EndOf(slots) < b then b else EndOf(slots)
  {
    EndIs(slots', 0, if EndOf(slots) < b then b else EndOf(slots));
  }

  lemma PatchList(slots: seq<Slot>, slots': seq<Slot>, a: nat, b: nat)
    requires Patch(slots, slots', a, b) && Tidy(slots)
    requires EndOf(slots) < b ==> forall i :: a <= i < EndOf(slots) ==> Free(slots[i])
    ensures var tail := if EndOf(slots) < b then [] else ItemsFrom(slots, b, EndOf(slots));
            var mid := if EndOf(slots) < b then [] else ItemsFrom(slots, a, b);
            && Listing(slots) == ItemsFrom(slots, 0, a) + mid + tail
            && Listing(slots') == ItemsFrom(slots, 0, a) + ItemsFrom(slots', a, b) + tail
  {
    PatchEnd(slots, slots', a, b);
    assert slots[..a] == slots'[..a];
    SamePrefix(slots, slots', a);
    var e, e' := EndOf(slots), EndOf(slots');
    ItemsSplit(slots', 0, a, e');
    ItemsSplit(slots', a, b, e');
    ItemsSplit(slots, 0, a, e);
    if e < b {
      FreeMiddle(slots, a, e);
    } else {
      ItemsSplit(slots, a, b, e);
      SameMiddle(slots, slots', b, e);
    }
  }

  lemma PatchTidy(slots: seq<Slot>, slots': seq<Slot>, a: nat, b: nat)
    requires Patch(slots, slots', a, b) && Tidy(slots)
    requires forall k {:trigger StTo(slots', k)} :: a <= k < b && Opens(slots'[k]) ==> StTo(slots', k).NoChain?
    ensures Tidy(slots')
  {
    PatchEnd(slots, slots', a, b);
    forall k | 0 <= k < |slots'| && k <= EndOf(slots') && Opens(slots'[k]) ensures StTo(slots', k).NoChain? {
      if k < a {
        assert slots[..k] == slots'[..k];
        SamePrefix(slots, slots', k);
      } else if b < k {
        SameMiddle(slots, slots', b, k);
        assert StTo(slots, k).NoChain?;
      }
    }
  }

  // ---- rewriting an entry in place

  /** fat16_write on an existing name: only the cluster and the size change. */
  lemma UpdateList(slots: seq<Slot>, x: Item, e: Slot) returns (pre: seq<Item>, post: seq<Item>)
    requires Tidy(slots) && x in Listing(slots) && e[..26] == x.ent[..26]
    ensures x.idx < |slots| && Live(slots, x.idx) && slots[x.idx] == x.ent
    ensures Listing(slots) == pre + [x] + post
    ensures Listing(slots[x.idx := e]) == pre + [x.(ent := e)] + post
    ensures Tidy(slots[x.idx := e])
  {
    hide ItemsFrom, NameOf, StTo, Tidy;
    var end, i := EndOf(slots), x.idx;
    ItemsIn(slots, 0, end, x);
    var slots' := slots[i := e];
    UpdateItem(slots, i, e);
    EndIs(slots', 0, end);
    ItemsSplit(slots, 0, i, end);
    ItemsSplit(slots, i, i + 1, end);
    ItemsSplit(slots', 0, i, end);
    ItemsSplit(slots', i, i + 1, end);
    SameMiddle(slots, slots', i + 1, end);
    pre, post := ItemsFrom(slots, 0, i), ItemsFrom(slots, i + 1, end);
    UpdateTidy(slots, i, e);
  }

  lemma UpdateItem(slots: seq<Slot>, i: nat, e: Slot)
    requires i < |slots| && Short(slots[i]) && e[..26] == slots[i][..26]
    ensures var slots' := slots[i := e];
            && Short(e)
            && ItemsFrom(slots, 0, i) == ItemsFrom(slots', 0, i) && StTo(slots, i + 1) == StTo(slots', i + 1)
            && ItemsFrom(slots, i, i + 1) == [ItemAt(slots, i)]
            && ItemsFrom(slots', i, i + 1) == [ItemAt(slots, i).(ent := e)]
  {
    var slots', d := slots[i := e], slots[i];
    assert slots[..i] == slots'[..i];
    SamePrefix(slots, slots', i);
    assert e[..11] == e[..26][..11] && d[..11] == d[..26][..11];
    assert e[0] == e[..26][0] && e[11] == e[..26][11] && d[0] == d[..26][0] && d[11] == d[..26][11];
    FmtSame(d, e);
  }

  lemma FmtSame(e: Slot, e': Slot)
    requires e[..11] == e'[..11]
    ensures FmtName(e) == FmtName(e')
  {
    assert e[..8] == e[..11][..8] && e'[..8] == e'[..11][..8];
    assert e[8..11] == e[..11][8..11] && e'[8..11] == e'[..11][8..11];
    assert forall k :: 0 <= k < 11 ==> e[k] == e[..11][k] && e'[k] == e'[..11][k];
  }

  lemma UpdateTidy(slots: seq<Slot>, i: nat, e: Slot)
    requires Tidy(slots) && Live(slots, i) && Short(e)
    ensures Tidy(slots[i := e])
  {
    var slots', end := slots[i := e], EndOf(slots);
    EndIs(slots', 0, end);
    forall k | 0 <= k < |slots'| && k <= end && Opens(slots'[k]) ensures StTo(slots', k).NoChain? {
      if k <= i {
        assert slots[..k] == slots'[..k];
        SamePrefix(slots, slots', k);
      } else {
        SameMiddle(slots, slots', i + 1, k);
        assert StTo(slots, k).NoChain?;
      }
    }
  }

  // ---- erasing an entry

  function Erased(slots: seq<Slot>, a: nat, b: nat): (r: seq<Slot>)
    ensures |r| == |slots|
  {
    seq(|slots|, i requires 0 <= i < |slots| => if a <= i <= b then slots[i][0 := 0xE5] else slots[i])
  }

  /** dir_erase: the entry and the long entries before it disappear, and no other. */
  lemma EraseList(slots: seq<Slot>, x: Item) returns (pre: seq<Item>, post: seq<Item>)
    requires Tidy(slots) && x in Listing(slots)
    ensures x.chain <= x.idx < |slots| && Live(slots, x.idx) && slots[x.idx] == x.ent
    ensures forall j :: x.chain <= j < x.idx ==> IsLong(slots[j])
    ensures Listing(slots) == pre + [x] + post
    ensures Listing(Erased(slots, x.chain, x.idx)) == pre + post
    ensures Tidy(Erased(slots, x.chain, x.idx))
  {
    hide ItemsFrom, NameOf, StTo, Tidy;
    var end, a, b := EndOf(slots), x.chain, x.idx + 1;
    ItemsIn(slots, 0, end, x);
    var slots' := Erased(slots, x.chain, x.idx);
    ErasePatch(slots, x);
    PatchList(slots, slots', a, b);
    pre, post := ItemsFrom(slots, 0, a), ItemsFrom(slots, b, end);
    assert pre + [] + post == pre + post;
    PatchTidy(slots, slots', a, b);
  }

  lemma ErasePatch(slots: seq<Slot>, x: Item)
    requires Tidy(slots) && x.idx < EndOf(slots) && Short(slots[x.idx]) && x == ItemAt(slots, x.idx)
    ensures var slots', a, b := Erased(slots, x.chain, x.idx), x.chain, x.idx + 1;
            && a < b && (forall j :: a <= j < x.idx ==> IsLong(slots[j]))
            && Patch(slots, slots', a, b)
            && ItemsFrom(slots, a, b) == [x] && ItemsFrom(slots', a, b) == []
            && (forall k {:trigger StTo(slots', k)} :: a <= k < b ==> StTo(slots', k).NoChain?)
  {
    var slots', a, b := Erased(slots, x.chain, x.idx), x.chain, x.idx + 1;
    ChainSpan(slots, x.idx);
    assert StTo(slots, a).NoChain?;
    assert slots[..a] == slots'[..a];
    SamePrefix(slots, slots', a);
    forall k | a <= k <= b ensures StTo(slots', k).NoChain? && ItemsFrom(slots', a, k) == [] {
      FreeMiddle(slots', a, k);
    }
    LongMiddle(slots, a, x.idx);
  }

  lemma {:induction false} LongMiddle(slots: seq<Slot>, a: nat, b: nat)
    requires b <= |slots| && forall j :: a <= j < b ==> IsLong(slots[j])
    ensures ItemsFrom(slots, a, b) == []
    decreases b
  {
    if a < b { LongMiddle(slots, a, b - 1); }
  }

  // ---- creating an entry

  /** What the long entries hold at position u: the unit, the terminator, then FFFF. */
  function PadUnit(units: seq<nat>, u: nat): nat {
    if u < |units| then units[u] else if u == |units| then 0 else 0xFFFF
  }

  function LongCount(units: seq<nat>): nat {
    (|units| + LFN_CHARS - 1) / LFN_CHARS
  }

  function ChunkOf(units: seq<nat>, no: nat): (r: seq<nat>)
    requires 0 < no && forall i :: 0 <= i < |units| ==> units[i] < 0x10000
    ensures |r| == LFN_CHARS
            && forall i :: 0 <= i < |r| ==> r[i] == PadUnit(units, (no - 1) * LFN_CHARS + i) && r[i] < 0x10000
  {
    seq<nat>(LFN_CHARS, i requires 0 <= i < LFN_CHARS => PadUnit(units, (no - 1) * LFN_CHARS + i))
  }

  function LongSlot(units: seq<nat>, sum: byte, n: nat, k: nat): Slot
    requires k < n < 0x40 && forall i :: 0 <= i < |units| ==> units[i] < 0x10000
  {
    var no := n - k;
    LfnSlot(if k == 0 then no + 0x40 else no, sum, ChunkOf(units, no))
  }

  /** The slots dir_create writes: the long entries backwards, then the short one. */
  function EntrySlots(units: seq<nat>, sh: Slot): (r: seq<Slot>)
    requires |units| <= 9 * LFN_CHARS && forall i :: 0 <= i < |units| ==> units[i] < 0x10000
    ensures |r| == LongCount(units) + 1 && r[|r| - 1] == sh
  {
    var n, sum := LongCount(units), SfnSum(sh[..11]);
    seq(n, k requires 0 <= k < n => LongSlot(units, sum, n, k)) + [sh]
  }

  /** Units that long entries can hold. */
  ghost predicate Text(units: seq<nat>) {
    |units| <= 9 * LFN_CHARS && forall i :: 0 <= i < |units| ==> units[i] < 0x10000
  }

  /** Where a scan stops reading a long name, at i or beyond. */
  function Stop(units: seq<nat>, i: nat): (r: nat)
    requires i <= |units|
    ensures i <= r <= |units|
    decreases |units| - i
  {
    if i == |units| || units[i] == 0 || units[i] == 0xFFFF then i else Stop(units, i + 1)
  }

  /** The part of a long name a scan gives back: up to a zero or U+FFFF. */
  function Shown(units: seq<nat>): seq<nat> { units[..Stop(units, 0)] }

  lemma {:induction false} StopAll(units: seq<nat>, i: nat)
    requires i <= |units| && forall j :: i <= j < |units| ==> 0 < units[j] < 0xFFFF
    ensures Stop(units, i) == |units|
    decreases |units| - i
  {
    if i < |units| { StopAll(units, i + 1); }
  }

  lemma LongSlotFacts(units: seq<nat>, sum: byte, n: nat, k: nat)
    requires k < n <= 9 && Text(units)
    ensures var d := LongSlot(units, sum, n, k);
            && !Free(d) && IsLong(d) && SeqNo(d) == n - k && (IsLast(d) <==> k == 0) && d[13] == sum
            && forall i :: 0 <= i < LFN_CHARS ==> LfnGet(d)[i] == PadUnit(units, (n - k - 1) * LFN_CHARS + i)
  {
    hide LfnSlot, LfnGet;
    var no := n - k;
    LfnPutGet(if k == 0 then no + 0x40 else no, sum, ChunkOf(units, no));
  }

  /** Chunks n - k + 1 to n have been read. */
  ghost predicate Filled(st: Chain, units: seq<nat>, sum: byte, n: nat, k: nat, start: nat) {
    && st.Chain? && st.sum == sum && st.first == start && st.nunits == n * LFN_CHARS && k <= n
    && forall i :: 0 <= i < LFN_MAXUNITS ==>
         st.units[i] == if (n - k) * LFN_CHARS <= i < n * LFN_CHARS then PadUnit(units, i) else 0
  }

  lemma PutFilled(b: Buf, at: nat, u: seq<nat>, units: seq<nat>, end: nat)
    requires |u| == LFN_CHARS && Is16(u) && at + LFN_CHARS <= end <= LFN_MAXUNITS
    requires forall i :: 0 <= i < LFN_MAXUNITS ==> b[i] == if at + LFN_CHARS <= i < end then PadUnit(units, i) else 0
    requires forall j :: 0 <= j < LFN_CHARS ==> u[j] == PadUnit(units, at + j)
    ensures forall i :: 0 <= i < LFN_MAXUNITS ==> PutUnits(b, at, u)[i] == if at <= i < end then PadUnit(units, i)
            else 0
  {
    forall i | 0 <= i < LFN_MAXUNITS ensures PutUnits(b, at, u)[i] == if at <= i < end then PadUnit(units, i) else 0 {
      if at <= i < at + LFN_CHARS {
        assert u[i - at] == PadUnit(units, at + (i - at));
      }
    }
  }

  lemma FilledStep(st: Chain, units: seq<nat>, sum: byte, n: nat, k: nat, start: nat)
    requires k < n <= 9 && Text(units) && (k > 0 ==> Filled(st, units, sum, n, k, start))
    ensures Filled(StepLong(st, start + k, LongSlot(units, sum, n, k)), units, sum, n, k + 1, start)
  {
    hide LongSlot, LfnGet, PutUnits, PadUnit, IsLast, SeqNo, IsLong, Free;
    LongSlotFacts(units, sum, n, k);
    var d := LongSlot(units, sum, n, k);
    var b := if k == 0 then ZeroBuf() else st.units;
    PutFilled(b, (n - k - 1) * LFN_CHARS, LfnGet(d), units, n * LFN_CHARS);
  }

  lemma {:induction false} CutIs(b: Buf, units: seq<nat>, u: nat, n: nat)
    requires u <= |units| <= n <= LFN_MAXUNITS && forall i :: 0 <= i < n ==> b[i] == PadUnit(units, i)
    ensures Cut(b, u, n) == Stop(units, u)
    decreases |units| - u
  {
    if u < |units| { CutIs(b, units, u + 1, n); }
  }

  lemma FilledName(st: Chain, units: seq<nat>, sum: byte, start: nat)
    requires Text(units) && units != [] && Filled(st, units, sum, LongCount(units), LongCount(units), start)
    ensures LongName(st) == Bytes(Shown(units), 0)
  {
    var n := LongCount(units) * LFN_CHARS;
    assert |units| <= n;
    CutIs(st.units, units, 0, n);
    assert st.units[..Stop(units, 0)] == Shown(units);
  }

  ghost predicate Holds(slots: seq<Slot>, start: nat, es: seq<Slot>) {
    start + |es| <= |slots| && forall i :: 0 <= i < |es| ==> slots[start + i] == es[i]
  }

  lemma EntryAt(units: seq<nat>, sh: Slot, k: nat)
    requires Text(units) && k < LongCount(units)
    ensures EntrySlots(units, sh)[k] == LongSlot(units, SfnSum(sh[..11]), LongCount(units), k)
  {
  }

  lemma {:induction false} LongRun(slots: seq<Slot>, start: nat, units: seq<nat>, sh: Slot, k: nat)
    requires Text(units) && Holds(slots, start, EntrySlots(units, sh)) && k <= LongCount(units)
    requires StTo(slots, start).NoChain?
    ensures k == 0 ==> StTo(slots, start + k).NoChain?
    ensures k > 0 ==> Filled(StTo(slots, start + k), units, SfnSum(sh[..11]), LongCount(units), k, start)
    ensures forall j :: start <= j < start + k ==>
            IsLong(slots[j]) && !Free(slots[j]) && (IsLast(slots[j]) <==> j == start)
  {
    hide LongSlot, StepLong, Filled;
    if k > 0 {
      var n, sum := LongCount(units), SfnSum(sh[..11]);
      LongRun(slots, start, units, sh, k - 1);
      EntryAt(units, sh, k - 1);
      assert slots[start + (k - 1)] == EntrySlots(units, sh)[k - 1];
      LongSlotFacts(units, sum, n, k - 1);
      FilledStep(StTo(slots, start + k - 1), units, sum, n, k - 1, start);
    }
  }

  /** The name a scan gives to a freshly written entry. */
  function NewName(units: seq<nat>, sh: Slot): seq<byte>
    requires forall i :: 0 <= i < |units| ==> units[i] < 0x10000
  {
    if units == [] || |Bytes(Shown(units), 0)| >= NAME_MAX then FmtName(sh) else Bytes(Shown(units), 0)
  }

  ghost predicate FreeRun(slots: seq<Slot>, start: nat, n: nat) {
    && start + n <= |slots| && 0 < n && (start > 0 ==> !Free(slots[start - 1]))
    && forall i :: start <= i < start + n ==> Free(slots[i])
  }

  function Placed(slots: seq<Slot>, start: nat, es: seq<Slot>): (r: seq<Slot>)
    requires start + |es| <= |slots|
    ensures |r| == |slots|
  {
    slots[..start] + es + slots[start + |es|..]
  }

  lemma CreateStart(slots: seq<Slot>, start: nat, units: seq<nat>, sh: Slot)
    requires Tidy(slots) && Text(units) && FreeRun(slots, start, LongCount(units) + 1)
    ensures var slots' := Placed(slots, start, EntrySlots(units, sh));
            && start <= EndOf(slots) && StTo(slots, start).NoChain? && StTo(slots', start).NoChain?
            && Holds(slots', start, EntrySlots(units, sh))
            && (var b := start + LongCount(units) + 1;
                b <= EndOf(slots) ==> StTo(slots, b).NoChain? && ItemsFrom(slots, start, b) == [])
  {
    hide EntrySlots;
    var slots' := Placed(slots, start, EntrySlots(units, sh));
    assert StTo(slots, start).NoChain?;
    assert slots[..start] == slots'[..start];
    SamePrefix(slots, slots', start);
    var b := start + LongCount(units) + 1;
    if b <= EndOf(slots) { FreeMiddle(slots, start, b); }
  }

  /** Scanning over the new slots: nothing but the new item, and no chain left open. */
  lemma NewItems(slots: seq<Slot>, start: nat, units: seq<nat>, sh: Slot)
    requires Text(units) && Short(sh) && Holds(slots, start, EntrySlots(units, sh)) && StTo(slots, start).NoChain?
    ensures var b := start + LongCount(units) + 1;
            && b <= |slots| && slots[b - 1] == sh && StTo(slots, b).NoChain?
            && ItemsFrom(slots, start, b) == [Item(b - 1, start, NewName(units, sh), sh)]
            && (forall k {:trigger slots[k]} :: start <= k < b ==> slots[k][0] != 0 && (Opens(slots[k]) ==> k == start))
  {
    hide StepLong, Bytes, EntrySlots, Filled;
    var n := LongCount(units);
    LongRun(slots, start, units, sh, n);
    LongMiddle(slots, start, start + n);
    assert slots[start + n] == EntrySlots(units, sh)[n];
    NewNameAt(slots, start, units, sh);
  }

  lemma NewNameAt(slots: seq<Slot>, start: nat, units: seq<nat>, sh: Slot)
    requires Text(units) && start + LongCount(units) < |slots| && slots[start + LongCount(units)] == sh
    requires units == [] ==> StTo(slots, start).NoChain?
    requires units != [] ==>
             Filled(StTo(slots, start + LongCount(units)), units, SfnSum(sh[..11]), LongCount(units),
             LongCount(units), start)
    ensures ItemAt(slots, start + LongCount(units)) == Item(start + LongCount(units), start, NewName(units, sh), sh)
  {
    hide StTo, Bytes, LongName;
    if units != [] {
      FilledName(StTo(slots, start + LongCount(units)), units, SfnSum(sh[..11]), start);
    }
  }

  lemma CreatePatch(slots: seq<Slot>, start: nat, units: seq<nat>, sh: Slot)
    requires Tidy(slots) && Text(units) && Short(sh) && FreeRun(slots, start, LongCount(units) + 1)
    ensures var b := start + LongCount(units) + 1;
            var slots' := Placed(slots, start, EntrySlots(units, sh));
            && start <= EndOf(slots) && Patch(slots, slots', start, b)
            && ItemsFrom(slots', start, b) == [Item(b - 1, start, NewName(units, sh), sh)]
            && (b <= EndOf(slots) ==> ItemsFrom(slots, start, b) == [])
            && (forall k {:trigger StTo(slots', k)} :: start <= k < b && Opens(slots'[k]) ==> StTo(slots', k).NoChain?)
  {
    hide StTo, Bytes, EntrySlots, Tidy, EndOf, ItemsFrom, NewName, Opens;
    CreateStart(slots, start, units, sh);
    NewItems(Placed(slots, start, EntrySlots(units, sh)), start, units, sh);
  }

  /** dir_create: the new name appears, where it was put, and every other name stays. */
  lemma CreateList(slots: seq<Slot>, start: nat, units: seq<nat>, sh: Slot) returns (pre: seq<Item>, post: seq<Item>)
    requires Tidy(slots) && Text(units) && Short(sh) && FreeRun(slots, start, LongCount(units) + 1)
    ensures var slots' := Placed(slots, start, EntrySlots(units, sh));
            && Listing(slots) == pre + post
            && Listing(slots') == pre + [Item(start + LongCount(units), start, NewName(units, sh), sh)] + post
            && Tidy(slots')
  {
    hide ItemsFrom, StTo, Tidy, EntrySlots, Bytes;
    var b, end := start + LongCount(units) + 1, EndOf(slots);
    var slots' := Placed(slots, start, EntrySlots(units, sh));
    CreatePatch(slots, start, units, sh);
    PatchList(slots, slots', start, b);
    pre := ItemsFrom(slots, 0, start);
    post := if end < b then [] else ItemsFrom(slots, b, end);
    assert pre + [] + post == pre + post;
    PatchTidy(slots, slots', start, b);
  }

  // ---- names that come back as they were given

  predicate CodePoints(cs: seq<nat>) {
    forall i :: 0 <= i < |cs| ==> Scalar(cs[i]) && cs[i] != 0 && cs[i] != 0xFFFF && cs[i] != 0x2F
  }

  /** Well-formed UTF-8 of 1 to 95 bytes, without a slash, a NUL or U+FFFF. */
  ghost predicate WellNamed(name: seq<byte>) {
    1 <= |name| < NAME_MAX && exists cs :: CodePoints(cs) && Enc8(cs) == name
  }

  /** The units of the long entries, none when the 8.3 form is exact. None is -1. */
  function EntryUnits(name: seq<byte>): (r: Option<seq<nat>>) {
    if Fits83(name) then Some([]) else
    var u := Units(name);
    if u.Some? && 0 < |u.value| <= LFN_MAXUNITS then u else None
  }

  lemma {:induction false} EncFacts(cs: seq<nat>)
    requires CodePoints(cs)
    ensures |Enc16(cs)| <= |Enc8(cs)| && NoZero(Enc8(cs))
    ensures forall i :: 0 <= i < |Enc16(cs)| ==> 0 < Enc16(cs)[i] < 0xFFFF
    ensures cs != [] ==> Enc16(cs) != []
  {
    if cs != [] {
      EncFacts(cs[1..]);
      assert NoZero(Enc8One(cs[0]));
    }
  }

  /** Through the 8.3 form or through long entries, a well-formed name is listed
      exactly as it was given. */
  lemma NameReturns(name: seq<byte>, sh: Slot)
    requires WellNamed(name) && (Fits83(name) ==> sh[..11] == To83(name))
    ensures var u := EntryUnits(name);
            u.Some? && Text(u.value) && NewName(u.value, sh) == name && NoZero(name)
  {
    var cs :| CodePoints(cs) && Enc8(cs) == name;
    EncFacts(cs);
    if Fits83(name) {
      FmtTo83(name, sh);
    } else {
      RoundTrip(cs);
      StopAll(Enc16(cs), 0);
      assert Shown(Enc16(cs)) == Enc16(cs);
    }
  }

  /** A name that fits the component buffer gives units that long entries can hold. */
  lemma EntryText(name: seq<byte>)
    requires |name| < NAME_MAX
    ensures EntryUnits(name).Some? ==> Text(EntryUnits(name).value)
  {
    UnitsFew(name);
  }

  // ---- derived short names

  function LastDot(name: seq<byte>): (r: nat)
    ensures r <= |name| && (r < |name| ==> name[r] == DOT)
  {
    if name == [] then 0 else
    var r := LastDot(name[1..]);
    if r < |name| - 1 then r + 1 else if name[0] == DOT then 0 else |name|
  }

  function Ascii(c: byte): byte {
    if c < 0x80 then Up(c) else 0x5F
  }

  function Letters(s: seq<byte>, n: nat): (r: seq<byte>)
    ensures |r| <= n && forall i :: 0 <= i < |r| ==> r[i] < 0x80 && (r[i] != 0 || !NoZero(s))
  {
    if s == [] || n == 0 then []
    else if s[0] == SPACE || s[0] == DOT then
      assert NoZero(s) ==> NoZero(s[1..]);
      Letters(s[1..], n)
    else
      assert NoZero(s) ==> NoZero(s[1..]);
      [Ascii(s[0])] + Letters(s[1..], n - 1)
  }

  /** The stem: up to six letters of the part before the last dot, or an underscore. */
  function Stem(name: seq<byte>): (r: seq<byte>)
    ensures 1 <= |r| <= 6 && r[0] < 0x80 && (NoZero(name) ==> r[0] != 0)
  {
    var b := Letters(name[..LastDot(name)], 6);
    if b == [] then [0x5F] else b
  }

  function Suffix(name: seq<byte>): (r: seq<byte>)
    ensures |r| <= 3
  {
    var d := LastDot(name);
    if d == |name| then [] else
    var x := name[d + 1..];
    var y := if |x| <= 3 then x else x[..3];
    seq(|y|, i requires 0 <= i < |y| => Ascii(y[i]))
  }

  /** The n-th candidate: the stem, a tilde, the number, and the suffix. */
  function Candidate(name: seq<byte>, n: nat): (r: seq<byte>)
    requires 1 <= n <= 99
    ensures |r| == 11 && r[0] == Stem(name)[0]
  {
    var b := Stem(name);
    var keep := if n < 10 then 6 else 5;
    var head := if |b| <= keep then b else b[..keep];
    var num: seq<byte> := if n < 10 then [0x30 + n] else [0x30 + n / 10, 0x30 + n % 10];
    Pad(head + [0x7E] + num, 8) + Pad(Suffix(name), 3)
  }

  predicate Clashes(items: seq<Item>, n11: seq<byte>) {
    exists i :: 0 <= i < |items| && items[i].ent[..11] == n11
  }

  function ShortFrom(items: seq<Item>, name: seq<byte>, n: nat): (r: seq<byte>)
    requires 1 <= n <= 99
    ensures |r| == 11 && r[0] == Stem(name)[0]
    decreases 99 - n
  {
    if n == 99 || !Clashes(items, Candidate(name, n)) then Candidate(name, n) else ShortFrom(items, name, n + 1)
  }

  /** short_name_for finds a name nobody has whenever one of its candidates is free. */
  lemma {:induction false} ShortFresh(items: seq<Item>, name: seq<byte>, n: nat, m: nat)
    requires 1 <= n <= m <= 99 && !Clashes(items, Candidate(name, m))
    ensures !Clashes(items, ShortFrom(items, name, n))
    decreases 99 - n
  {
    hide Clashes, Candidate;
    if Clashes(items, Candidate(name, n)) { ShortFresh(items, name, n + 1, m); }
  }
}
