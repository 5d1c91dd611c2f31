/** src/fat16.c as it runs: one mounted volume, its one-sector directory cache, and a
    record of every image the disk has held since it was mounted. */
module FatVolume {
  import opened Common
  import opened Utf
  import opened FatNames
  import opened FatScan
  import opened FatDisk
  import opened FatTree
  import opened FatSteps
  import opened FatCommit
  import opened FatFull
  import opened FatPrune
  import opened FatCreate
  import opened FatBuild
  import opened FatResult

  /** What a crash right after a write would leave, and the tree it describes. */
  datatype Image = Image(disk: Disk, tree: Tree)

  ghost predicate LogOk(g: Geo, log: seq<Image>) {
    forall i :: 0 <= i < |log| ==> SafeWith(g, log[i].disk, log[i].tree)
  }

  /** Every image added since l0 describes one of the trees ts. */
  ghost predicate Grew(l0: seq<Image>, l1: seq<Image>, ts: set<Tree>) {
    |l0| <= |l1| && l1[..|l0|] == l0 && forall i :: |l0| <= i < |l1| ==> l1[i].tree in ts
  }

  lemma GrewThrough(l0: seq<Image>, l1: seq<Image>, l2: seq<Image>, ts: set<Tree>, ts': set<Tree>)
    requires Grew(l0, l1, ts) && Grew(l1, l2, ts')
    ensures Grew(l0, l2, ts + ts')
  {
    assert l2[..|l0|] == l2[..|l1|][..|l0|];
    forall i | |l0| <= i < |l2| ensures l2[i].tree in ts + ts' {
      if i < |l1| { assert l2[i] == l2[..|l1|][i]; }
    }
  }

  /** The cached sector is current, or it is not part of the chain ch. */
  ghost predicate CacheFor(g: Geo, d: Disk, ok: bool, lba: nat, sec: Sector, ch: seq<nat>)
    requires g.Ok() && ChainIn(g, ch)
  {
    ok ==> g.RootStart() <= lba < |d| && (sec == d[lba] || Misses(g, ch, lba))
  }

  /** The cached sector is current, or no directory has it. */
  ghost predicate Coherent(g: Geo, d: Disk, ok: bool, lba: nat, sec: Sector, t: Tree)
    requires g.Ok() && ChainsIn(g, t)
  {
    ok ==>
        g.RootStart() <= lba < |d|
        && (sec == d[lba] || forall x {:trigger t.dirs[x]} :: x in t.dirs ==> Misses(g, t.dirs[x], lba))
  }

  /** What fat16_init reads from the boot sector; None is -1. */
  function BootGeo(s: Sector): Option<Geo> {
    if s[510] != 0x55 || s[511] != 0xAA then None
    else if Rd16(s, 11) != SECSZ || s[13] == 0 then None
    else Some(Geo(s[13], Rd16(s, 14), s[16], Rd16(s, 17), Rd16(s, 22)))
  }

  predicate InChain(c: nat) { 2 <= c < FAT_END }

  lemma ChainStart(tab: seq<nat>, ch: seq<nat>)
    requires IsChain(tab, ch) && ch != [] && |tab| <= FAT_END
    ensures 2 <= ch[0] < |tab|
  {
    assert LinkOk(tab, ch, 0);
  }

  /** Following the table from one cluster of a chain leads to the next, or out. */
  lemma ChainNext(tab: seq<nat>, ch: seq<nat>, j: nat)
    requires IsChain(tab, ch) && j < |ch| && |tab| <= FAT_END
    ensures 2 <= ch[j] < |tab|
    ensures if j + 1 < |ch| then tab[ch[j]] == ch[j + 1] && InChain(ch[j + 1]) else !InChain(tab[ch[j]])
  {
    assert LinkOk(tab, ch, j);
    if j + 1 < |ch| { assert LinkOk(tab, ch, j + 1); }
  }

  /** A run of cache updates: nothing happened, or the cached sector is current. */
  ghost predicate KeptCache(g: Geo, d: Disk, ok: bool, lba: nat, sec: Sector, ok': bool, lba': nat, sec': Sector) {
    (ok', lba', sec') == (ok, lba, sec) || (ok' && g.RootStart() <= lba' < |d| && sec' == d[lba'])
  }

  lemma KeptNone(g: Geo, d: Disk, ok: bool, lba: nat, sec: Sector)
    ensures KeptCache(g, d, ok, lba, sec, ok, lba, sec)
  {
  }

  lemma KeptTwice(g: Geo, d: Disk, ok: bool, lba: nat, sec: Sector, ok1: bool, lba1: nat, sec1: Sector, ok2: bool,
      lba2: nat, sec2: Sector)
    requires KeptCache(g, d, ok, lba, sec, ok1, lba1, sec1) && KeptCache(g, d, ok1, lba1, sec1, ok2, lba2, sec2)
    ensures KeptCache(g, d, ok, lba, sec, ok2, lba2, sec2)
  {
  }

  lemma CacheStill(g: Geo, d: Disk, t: Tree, ok: bool, lba: nat, sec: Sector, ok': bool, lba': nat, sec': Sector)
    requires g.Ok() && ChainsIn(g, t) && Coherent(g, d, ok, lba, sec, t)
             && KeptCache(g, d, ok, lba, sec, ok', lba', sec')
    ensures Coherent(g, d, ok', lba', sec', t)
  {
  }

  lemma CacheReady(g: Geo, d: Disk, t: Tree, x: nat, ok: bool, lba: nat, sec: Sector)
    requires SafeWith(g, d, t) && x in t.dirs && Coherent(g, d, ok, lba, sec, t)
    ensures g.Fits(d) && ChainsIn(g, t) && ChainIn(g, t.dirs[x]) && CacheFor(g, d, ok, lba, sec, t.dirs[x])
    ensures IsChain(Table(g, d, 0), t.dirs[x]) && x == Head(t.dirs[x])
  {
    DirFacts(g, d, t, x);
  }

  lemma RootChain(g: Geo, ch: seq<nat>)
    requires ChainIn(g, ch) && Head(ch) == 0
    ensures ch == []
  {
    assert ch != [] ==> Clus(g, ch[0]);
  }

  lemma RootSecs(g: Geo)
    ensures Secs(g, []) == g.RootSectors()
  {
  }

  lemma SecsPast(g: Geo, ch: seq<nat>, n: nat)
    requires g.Ok() && ch != [] && |ch| <= n / g.spc
    ensures Secs(g, ch) <= n
  {
    MulLe(|ch|, n / g.spc, g.spc);
    assert n == g.spc * (n / g.spc) + n % g.spc;
  }

  lemma SecsWithin(g: Geo, ch: seq<nat>, n: nat)
    requires g.Ok() && ChainIn(g, ch) && ch != [] && n / g.spc < |ch|
    ensures n < Secs(g, ch) && SecLba(g, ch, n) == DataLba(g, ch[n / g.spc], n % g.spc)
  {
    MulStep(n / g.spc, |ch|, g.spc);
    assert n == g.spc * (n / g.spc) + n % g.spc;
  }

  lemma SlotIdx(g: Geo, d: Disk, ch: seq<nat>, i: nat)
    requires g.Fits(d) && ChainIn(g, ch)
    ensures i < |Slots(g, d, ch)| <==> i / SLOTS_PER_SEC < Secs(g, ch)
    ensures i < |Slots(g, d, ch)| ==> i < Secs(g, ch) * SLOTS_PER_SEC
  {
  }

  /** The name dscan_next gives a short entry. */
  method NameFor(st: Chain, e: Slot) returns (name: seq<byte>)
    ensures name == NameOf(st, e)
  {
    hide Bytes, FmtName, SfnSum;
    if st.Chain? && st.sum == SfnSum(e[..11]) {
      var n := if st.nunits <= LFN_MAXUNITS then st.nunits else LFN_MAXUNITS;
      var u := 0;
      while u < n && st.units[u] != 0 && st.units[u] != 0xFFFF
        invariant u <= n && Cut(st.units, u, n) == Cut(st.units, 0, n)
      {
        u := u + 1;
      }
      var long := ToUtf8(st.units[..u], NAME_MAX);
      if long.Some? { return long.value; }
    }
    name := FmtName(e);
  }

  lemma ItemIs(s: seq<Slot>, k: nat)
    requires k < |s| && Short(s[k])
    ensures ItemsFrom(s, k, k + 1) == [ItemAt(s, k)] && StTo(s, k + 1).NoChain?
    ensures ItemAt(s, k) == (var st := StTo(s, k); Item(k, if st.Chain? then st.first else k, NameOf(st, s[k]), s[k]))
    ensures forall i :: 0 <= i <= k ==> ItemsFrom(s, i, k + 1) == ItemsFrom(s, i, k) + [ItemAt(s, k)]
  {
    hide NameOf, StTo;
    After1(s, k);
  }

  lemma After1(s: seq<Slot>, k: nat)
    requires k < |s| && Short(s[k])
    ensures StTo(s, k + 1).NoChain?
  {
  }

  lemma NoItems(s: seq<Slot>)
    ensures ItemsFrom(s, 0, 0) == [] && StTo(s, 0).NoChain?
  {
  }

  lemma FindSplit(s: seq<Slot>, i: nat, k: nat, name: seq<byte>)
    requires i <= k <= |s|
    ensures Find(ItemsFrom(s, 0, k), name) == if Find(ItemsFrom(s, 0, i), name).Some?
            then Find(ItemsFrom(s, 0, i), name) else Find(ItemsFrom(s, i, k), name)
  {
    ItemsSplit(s, 0, i, k);
    FindConcat(ItemsFrom(s, 0, i), ItemsFrom(s, i, k), name);
  }

  lemma ClashSplit(s: seq<Slot>, i: nat, k: nat, n11: seq<byte>)
    requires i <= k <= |s|
    ensures Clashes(ItemsFrom(s, 0, k), n11) <==> Clashes(ItemsFrom(s, 0, i), n11) || Clashes(ItemsFrom(s, i, k), n11)
  {
    hide ItemsFrom, Clashes;
    ItemsSplit(s, 0, i, k);
    ClashConcat(ItemsFrom(s, 0, i), ItemsFrom(s, i, k), n11);
  }

  lemma ClashConcat(a: seq<Item>, b: seq<Item>, n11: seq<byte>)
    ensures Clashes(a + b, n11) <==> Clashes(a, n11) || Clashes(b, n11)
  {
    var c := a + b;
    assert forall j :: 0 <= j < |a| ==> c[j] == a[j];
    assert forall j :: |a| <= j < |c| ==> c[j] == b[j - |a|];
    if Clashes(b, n11) {
      var j :| 0 <= j < |b| && b[j].ent[..11] == n11;
      assert c[|a| + j] == b[j];
    }
  }

  lemma ClashOne(x: Item, n11: seq<byte>)
    ensures Clashes([x], n11) <==> x.ent[..11] == n11
    ensures !Clashes([], n11)
  {
    if x.ent[..11] == n11 { assert [x][0].ent[..11] == n11; }
  }

  ghost predicate AllFree(s: seq<Slot>, b: nat, count: nat)
    requires b + count <= |s|
  {
    forall j :: b <= j < b + count ==> Free(s[j])
  }

  lemma RunShort(s: seq<Slot>, i: nat, run: nat, count: nat)
    requires i < |s| && run <= i + 1 && run < count && (i + 1 - run > 0 ==> !Free(s[i - run]))
    ensures forall b {:trigger AllFree(s, b, count)} :: 0 <= b && b + count == i + 1 ==> !AllFree(s, b, count)
  {
    forall b | 0 <= b && b + count == i + 1 ensures !AllFree(s, b, count) {
      assert b <= i - run < b + count;
    }
  }

  lemma NotAllFree(s: seq<Slot>, i: nat, count: nat)
    requires i < |s| && !Free(s[i]) && count > 0
    ensures forall b {:trigger AllFree(s, b, count)} :: 0 <= b && b + count == i + 1 ==> !AllFree(s, b, count)
  {
    forall b | 0 <= b && b + count == i + 1 ensures !AllFree(s, b, count) {
      assert b <= i < b + count;
    }
  }

  /** The cache unchanged or current is coherent still. */
  lemma CacheMoved(g: Geo, d: Disk, t: Tree, ok: bool, lba: nat, sec: Sector, ok': bool, lba': nat, sec': Sector)
    requires g.Ok() && ChainsIn(g, t) && Coherent(g, d, ok, lba, sec, t)
    requires (ok', lba', sec') == (ok, lba, sec) || (ok' && g.RootStart() <= lba' < |d| && sec' == d[lba'])
    ensures Coherent(g, d, ok', lba', sec', t)
  {
  }

  lemma CacheCurrent(g: Geo, d: Disk, t: Tree, ok: bool, lba: nat, sec: Sector)
    requires SafeWith(g, d, t) && g.RootStart() <= lba < |d| && sec == d[lba]
    ensures g.Ok() && ChainsIn(g, t) && Coherent(g, d, ok, lba, sec, t)
  {
  }

  lemma ElsewhereNone(g: Geo, d: Disk, t: Tree, x: nat, ch: seq<nat>)
    requires g.Fits(d) && ChainsIn(g, t) && ChainIn(g, ch)
    ensures Elsewhere(g, d, d, t, x, ch)
  {
  }

  lemma TextLong(units: seq<nat>)
    requires Text(units)
    ensures |units| <= 9 * LFN_CHARS && LongCount(units) <= 9 && forall i :: 0 <= i < |units| ==> units[i] < 0x10000
  {
  }

  lemma LongSlotDead(units: seq<nat>, sum: byte, n: nat, k: nat)
    requires k < n <= 9 && Text(units)
    ensures var e := LongSlot(units, sum, n, k); e[0] != 0 && !Short(e)
  {
    hide LongSlot;
    LongSlotFacts(units, sum, n, k);
  }

  /** A directory's contents before anything is put in it. */
  ghost predicate BareDir(s: seq<Slot>, self: nat, parent: nat) {
    && (forall j: nat {:trigger Live(s, j)} :: Live(s, j) ==> j < 2)
    && Live(s, 0) && Live(s, 1) && DotEntry(s[0], DOT1, self) && DotEntry(s[1], DOT2, parent)
    && (forall j :: 2 <= j < |s| ==> s[j][0] == 0)
  }

  const EPOCH: seq<byte> := [0x21, 0x00]

  /** set_entry over 32 zero bytes. */
  function NewEntry(n11: seq<byte>, attr: byte, first: nat, size: nat): Slot
    requires |n11| == 11 && first < 0x10000 && size < 0x1_0000_0000
  {
    n11 + [attr] + [0, 0, 0, 0] + EPOCH + EPOCH + [0, 0, 0, 0] + EPOCH + Le16(first) + Le32(size)
  }

  /** The eleven bytes dir_create picks. */
  function ShortName(items: seq<Item>, name: seq<byte>): (r: seq<byte>)
    ensures |r| == 11
  {
    if Fits83(name) then To83(name) else ShortFrom(items, name, 1)
  }

  /** The name a new entry made for leaf is listed under. */
  ghost function ListedAs(s: seq<Slot>, leaf: seq<byte>): seq<byte>
    requires |leaf| < NAME_MAX
  {
    EntryText(leaf);
    var u := EntryUnits(leaf);
    if u.None? then leaf else NewName(u.value, NewEntry(ShortName(Listing(s), leaf), 0x20, 0, 0))
  }

  /** A well-formed name is listed as it was given. */
  lemma ListedWell(s: seq<Slot>, leaf: seq<byte>)
    requires WellNamed(leaf)
    ensures EntryUnits(leaf).Some? && ListedAs(s, leaf) == leaf
  {
    hide WellNamed, ShortName, NewEntry, Listing, Bytes, Fits83, To83, NewName, Text;
    ShortFits(Listing(s), leaf);
    EntryFields(ShortName(Listing(s), leaf), 0x20, 0, 0);
    NameReturns(leaf, NewEntry(ShortName(Listing(s), leaf), 0x20, 0, 0));
  }

  /** Only the eleven bytes of the short name matter to it. */
  lemma ListedIsNew(s: seq<Slot>, leaf: seq<byte>, sh: Slot)
    requires |leaf| < NAME_MAX && EntryUnits(leaf).Some? && Text(EntryUnits(leaf).value)
             && sh[..11] == ShortName(Listing(s), leaf)
    ensures ListedAs(s, leaf) == NewName(EntryUnits(leaf).value, sh)
  {
    hide ShortName, NewEntry, Listing, Bytes, EntryUnits, FmtName;
    EntryFields(ShortName(Listing(s), leaf), 0x20, 0, 0);
    FmtSame(sh, NewEntry(ShortName(Listing(s), leaf), 0x20, 0, 0));
  }

  /** A new name that a scan would take for one of a directory's own two. */
  ghost predicate Dotted(s: seq<Slot>, x: nat, leaf: seq<byte>)
    requires |leaf| < NAME_MAX
  {
    x != 0 && Lookup(s, leaf).None? && IsDots(ListedAs(s, leaf))
  }

  /** What a write or a new directory does to the names of directory x: the name n now
      leads to slot i, unless it led somewhere before, and no other one moves. */
  ghost predicate NameEntered(s: seq<Slot>, s': seq<Slot>, x: nat, leaf: seq<byte>, i: nat)
    requires |leaf| < NAME_MAX
  {
    var n := if Lookup(s, leaf).Some? then leaf else ListedAs(s, leaf);
    && NamesKept(s, s', n) && (Lookup(s, n).None? || Lookup(s, leaf).Some? ==>
        Lookup(s', n).Some? && Lookup(s', n).value.idx == i)
    && (x != 0 ==> (Undotted(Listing(s')) <==> Undotted(Listing(s)) && !Dotted(s, x, leaf)))
  }

  /** The tree once the entry sh stands at key k. */
  function NextTree(t: Tree, k: Key, sh: Slot, isDir: bool, ch: seq<nat>, body: seq<Sector>): Tree
    requires k.0 in t.depth && (isDir ==> ch != [])
  {
    if isDir then AddDir(t, k, Entry(sh, ch, [])) else SetEnt(t, k, Entry(sh, ch, body))
  }

  /** What dir_create has done when it succeeds. */
  ghost predicate Created(g: Geo, d: Disk, t: Tree, d': Disk, t': Tree, x: nat, name: seq<byte>, isDir: bool,
      first: nat, size: nat,
                          ch: seq<nat>, slot: int, start: nat)
    requires g.Fits(d) && ChainsIn(g, t) && ChainIn(g, ch) && first < 0x10000 && size < 0x1_0000_0000 && x in t.dirs
  {
    var s, u := Slots(g, d, t.dirs[x]), EntryUnits(name);
    var sh := NewEntry(ShortName(Listing(s), name), if isDir then 0x10 else 0x20, first, size);
    && u.Some? && Text(u.value) && slot == start + LongCount(u.value) && FreeRun(s, start, LongCount(u.value) + 1)
    && x in t.depth && (isDir ==> ch != []) && t' == NextTree(t, (x, slot), sh, isDir, ch, Body(g, d, ch))
    && Elsewhere(g, d, d', t, x, ch)
    && Slots(g, d', t.dirs[x]) == Placed(s, start, EntrySlots(u.value, sh))
  }

  /** No count free slots in a row. */
  ghost predicate NoRun(s: seq<Slot>, count: nat) {
    forall b {:trigger AllFree(s, b, count)} :: 0 <= b && b + count <= |s| ==> !AllFree(s, b, count)
  }

  lemma EntryFields(n11: seq<byte>, attr: byte, first: nat, size: nat)
    requires |n11| == 11 && first < 0x10000 && size < 0x1_0000_0000
    ensures var e := NewEntry(n11, attr, first, size);
            e[..11] == n11 && e[0] == n11[0] && e[11] == attr && First(e) == first && Size(e) == size
  {
    hide Le16, Le32;
    var e := NewEntry(n11, attr, first, size);
    assert e[26..28] == Le16(first) && e[28..32] == Le32(size);
    assert e[26] == e[26..28][0] && e[27] == e[26..28][1];
    assert e[28] == e[28..32][0] && e[29] == e[28..32][1] && e[30] == e[28..32][2] && e[31] == e[28..32][3];
    assert Rd16(e, 26) == Rd16(Le16(first), 0);
    assert Rd32(e, 28) == Rd32(Le32(size), 0);
  }

  lemma ShortLetter(items: seq<Item>, name: seq<byte>)
    requires NoZero(name) && name != []
    ensures 0 != ShortName(items, name)[0] < 0x80
  {
    if Fits83(name) {
      BaseSplit(name);
      var b := Base(name);
      assert To83(name)[0] == Upper(b)[0] && name[0] == b[0];
    }
  }

  lemma EntryShort(items: seq<Item>, name: seq<byte>, isDir: bool, first: nat, size: nat)
    requires NoZero(name) && name != [] && first < 0x10000 && size < 0x1_0000_0000
    ensures var e := NewEntry(ShortName(items, name), if isDir then 0x10 else 0x20, first, size);
            Short(e) && First(e) == first && Size(e) == size && (IsDir(e) <==> isDir)
                && e[..11] == ShortName(items, name)
  {
    hide ShortName, NewEntry, First, Size;
    ShortLetter(items, name);
    EntryFields(ShortName(items, name), if isDir then 0x10 else 0x20, first, size);
  }

  /** The short entry goes in: the next tree. */
  lemma CreateLast(g: Geo, d0: Disk, d: Disk, t: Tree, x: nat, s0: seq<Slot>, start: nat, es: seq<Slot>, sh: Slot,
      isDir: bool, ch: seq<nat>)
    requires g.Fits(d0) && SafeWith(g, d, t) && x in t.dirs && ChainsIn(g, t) && ChainIn(g, ch) && Fresh(t, ch)
             && es != []
    requires Elsewhere(g, d0, d, t, x, ch) && Filling(s0, Slots(g, d, t.dirs[x]), start, es, |es| - 1)
             && es[|es| - 1] == sh && Short(sh)
    requires (IsDir(sh) <==> isDir) && First(sh) == Head(ch) && IsChain(Table(g, d0, 0), ch)
             && (isDir ==> ch != [] && BareDir(Slots(g, d0, ch), ch[0], x))
    ensures var i := start + |es| - 1;
            i < |Slots(g, d, t.dirs[x])| && i / SLOTS_PER_SEC < Secs(g, t.dirs[x])
            && SecLba(g, t.dirs[x], i / SLOTS_PER_SEC) < |d|
    ensures x in t.depth
    ensures var i := start + |es| - 1;
            var d' := PutSlot(g, d, t.dirs[x], i, sh);
            && SafeWith(g, d', NextTree(t, (x, i), sh, isDir, ch, Body(g, d0, ch)))
            && Elsewhere(g, d0, d', t, x, ch) && Slots(g, d', t.dirs[x]) == Placed(s0, start, es)
  {
    hide SafeWith, Slots, SlotsBut, PutSlot, SecLba, Secs, Short, Fresh, Shape, Table, IsChain, Body, First, IsDir,
        Live, DotEntry, Filling, Elsewhere;
    TreeFits(g, d, t);
    var i, s := start + |es| - 1, Slots(g, d, t.dirs[x]);
    ShortUsed(sh);
    FillNext(s0, s, start, es, |es| - 1, x);
    SlotsLen(g, d, t.dirs[x], i);
    FreeNobody(g, d, t, x, i);
    DirFacts(g, d, t, x);
    ElsewhereChain(g, d0, d, t, x, ch);
    if isDir { SafeAdd(g, d, t, x, i, sh, ch); } else { SafeSet(g, d, t, x, i, sh, ch); }
    PutElsewhere(g, d, t, x, i, sh, ch);
    ElsewhereTwice(g, d0, d, PutSlot(g, d, t.dirs[x], i, sh), t, x, ch);
    FillEnd(s0, s[i := sh], start, es);
  }

  lemma ShortUsed(e: Slot)
    requires Short(e)
    ensures e[0] != 0
  {
  }

  lemma ElsewhereChain(g: Geo, d: Disk, d': Disk, t: Tree, x: nat, ch: seq<nat>)
    requires g.Fits(d) && ChainsIn(g, t) && ChainIn(g, ch) && Elsewhere(g, d, d', t, x, ch)
    ensures g.Fits(d') && Table(g, d', 0) == Table(g, d, 0) && Body(g, d', ch) == Body(g, d, ch)
            && (ch != [] ==> Slots(g, d', ch) == Slots(g, d, ch))
  {
  }

  lemma FillEnd(s0: seq<Slot>, s: seq<Slot>, start: nat, es: seq<Slot>)
    requires Filling(s0, s, start, es, |es|)
    ensures s == Placed(s0, start, es)
  {
    assert es[..|es|] == es;
  }

  lemma GrewAgain(l0: seq<Image>, l1: seq<Image>, l2: seq<Image>, t: Tree)
    requires Grew(l0, l1, {t}) && Grew(l1, l2, {t})
    ensures Grew(l0, l2, {t})
  {
    GrewThrough(l0, l1, l2, {t}, {t});
    assert {t} + {t} == {t};
  }

  lemma GrewNone(l: seq<Image>, ts: set<Tree>)
    ensures Grew(l, l, ts)
  {
  }

  /** The loop body that fills a 512-byte sector. */
  method FillSector(data: seq<byte>, n: nat) returns (sector: Sector)
    ensures sector == Chunk(data, n)
  {
    var from := n * SECSZ;
    var chunk := if from >= |data| then 0 else if |data| - from > SECSZ then SECSZ else |data| - from;
    sector := seq(SECSZ, _ => 0);
    var k := 0;
    while k < chunk
      invariant k <= chunk && forall i :: 0 <= i < SECSZ ==> sector[i] == if i < k then data[from + i] else 0
    {
      sector := sector[k := data[from + k]];
      k := k + 1;
    }
  }

  lemma DataInner(g: Geo, c: nat, k: nat, k': nat)
    requires 2 <= c && k < k'
    ensures DataLba(g, c, k) != DataLba(g, c, k')
  {
  }

  /** File data may go stale under the cache; directories may not. */
  lemma CoherentFree(g: Geo, d: Disk, t: Tree, c: nat, k: nat, s: Sector, ok: bool, lba: nat, sec: Sector)
    requires SafeWith(g, d, t) && Clus(g, c) && k < g.spc && !Owned(t, c) && Coherent(g, d, ok, lba, sec, t)
    ensures DataLba(g, c, k) < |d| && Coherent(g, d[DataLba(g, c, k) := s], ok, lba, sec, t)
  {
    hide SafeWith, Misses, Owned, DataLba;
    TreeFits(g, d, t);
    TreeMissesFree(g, d, t, c, k);
  }

  lemma CoherentKept(g: Geo, d: Disk, d': Disk, t: Tree, ok: bool, lba: nat, sec: Sector)
    requires g.Ok() && ChainsIn(g, t) && Coherent(g, d, ok, lba, sec, t) && DataKept(g, d, d')
    ensures Coherent(g, d', ok, lba, sec, t)
  {
  }

  lemma FreshNone(t: Tree)
    ensures Fresh(t, [])
  {
  }

  lemma FreshMore(t: Tree, nc: seq<nat>, c: nat)
    requires Fresh(t, nc) && !Owned(t, c) && c !in nc
    ensures Fresh(t, nc + [c])
  {
  }

  lemma LastNone(g: Geo, nc: seq<nat>)
    requires ChainIn(g, nc)
    ensures Last(nc) == 0 <==> nc == []
  {
    assert nc != [] ==> Clus(g, nc[|nc| - 1]);
  }

  lemma LastIn(g: Geo, t: Tree, nc: seq<nat>)
    requires ChainIn(g, nc) && Fresh(t, nc) && Last(nc) != 0
    ensures nc != [] && Clus(g, Last(nc)) && !Owned(t, Last(nc)) && Last(nc) == nc[|nc| - 1]
  {
    assert Last(nc) in nc;
  }

  /** A cluster free in the first copy is free in all, and nobody's. */
  lemma BuiltFree(g: Geo, d0: Disk, d: Disk, t: Tree, nc: seq<nat>, data: seq<byte>, c: nat)
    requires Full(g, d0, t) && ChainsIn(g, t) && Building(g, d0, d, t, nc, data) && Clus(g, c)
             && Table(g, d, 0)[c] == FAT_FREE
    ensures ChainIn(g, nc) && c !in nc && !Owned(t, c)
    ensures forall f {:trigger Table(g, d, f)} :: 0 <= f < g.nfats ==> Table(g, d, f)[c] == FAT_FREE
  {
    hide SafeWith, Slots, Body, SlotsKept, Table, Linked, Owned;
    TreeFits(g, d0, t);
    assert Linked(Table(g, d0, 0), Table(g, d, 0), nc);
    LinkStep(Table(g, d0, 0), Table(g, d, 0), nc, c);
    forall f | 0 <= f < g.nfats ensures Table(g, d, f)[c] == FAT_FREE {
      assert Table(g, d0, f) == Table(g, d0, 0) && Linked(Table(g, d0, f), Table(g, d, f), nc);
      LinkedElse(Table(g, d0, f), Table(g, d, f), nc, c);
    }
  }

  lemma FullSafe(g: Geo, d: Disk, t: Tree)
    requires Full(g, d, t)
    ensures SafeWith(g, d, t)
  {
  }

  lemma LinkedElse(tab0: seq<nat>, tab: seq<nat>, nc: seq<nat>, c: nat)
    requires Linked(tab0, tab, nc) && c < |tab| && c !in nc
    ensures |tab0| == |tab| && tab[c] == tab0[c]
  {
  }

  lemma TableOne(g: Geo, d: Disk, d': Disk, nc: seq<nat>, c: nat)
    requires g.Fits(d) && g.Fits(d') && Clus(g, c) && ChainIn(g, nc) && DataKept(g, d, d')
    requires forall f {:trigger Table(g, d', f)} :: 0 <= f < g.nfats ==> Table(g, d', f) == Table(g, d, f)[c := FAT_EOC]
    ensures nc == [] ==> TableStep(g, d, d', nc, c)
  {
  }

  lemma TableTwo(g: Geo, d: Disk, d1: Disk, d2: Disk, nc: seq<nat>, c: nat)
    requires g.Fits(d) && g.Fits(d1) && g.Fits(d2) && Clus(g, c) && ChainIn(g, nc) && nc != [] && DataKept(g, d, d1)
             && DataKept(g, d1, d2)
    requires forall f {:trigger Table(g, d1, f)} :: 0 <= f < g.nfats ==> Table(g, d1, f) == Table(g, d, f)[c := FAT_EOC]
    requires forall f {:trigger Table(g, d2, f)} ::
             0 <= f < g.nfats ==> Table(g, d2, f) == Table(g, d1, f)[nc[|nc| - 1] := c]
    ensures TableStep(g, d, d2, nc, c)
  {
    hide Table;
    forall f | 0 <= f < g.nfats ensures Table(g, d2, f) == Table(g, d, f)[c := FAT_EOC][nc[|nc| - 1] := c] {
      assert Table(g, d1, f) == Table(g, d, f)[c := FAT_EOC];
    }
  }

  lemma BuiltChain(g: Geo, d0: Disk, d: Disk, t: Tree, nc: seq<nat>, data: seq<byte>)
    requires g.Fits(d0) && ChainsIn(g, t) && Building(g, d0, d, t, nc, data) && Fresh(t, nc)
    ensures g.Fits(d) && ChainIn(g, nc) && IsChain(Table(g, d, 0), nc) && Distinct(nc)
            && forall c :: c in nc ==> !Owned(t, c)
  {
    assert Linked(Table(g, d0, 0), Table(g, d, 0), nc);
  }

  ghost predicate SameTables(g: Geo, d: Disk, d': Disk)
    requires g.Fits(d) && g.Fits(d')
  {
    forall f {:trigger Table(g, d', f)} :: 0 <= f < g.nfats ==> Table(g, d', f) == Table(g, d, f)
  }

  /** fat_free_chain on a chain that was just built. */
  lemma GiveUp(g: Geo, d0: Disk, d1: Disk, d2: Disk, t: Tree, nc: seq<nat>, data: seq<byte>)
    requires g.Fits(d0) && g.Fits(d1) && g.Fits(d2) && ChainsIn(g, t) && Building(g, d0, d1, t, nc, data)
             && DataKept(g, d1, d2)
    requires forall f {:trigger Table(g, d2, f)} ::
             0 <= f < g.nfats ==> Table(g, d2, f) == FreedTab(Table(g, d1, f), nc)
    ensures SlotsKept(g, d0, d2, t) && SameTables(g, d0, d2)
  {
    hide Slots, Table, FreedTab, DataKept, Body, Linked;
    forall f | 0 <= f < g.nfats ensures Table(g, d2, f) == Table(g, d0, f) {
      BuildUndo(g, d0, d1, t, nc, data, f);
    }
    forall y | y in t.dirs ensures Slots(g, d2, t.dirs[y]) == Slots(g, d0, t.dirs[y]) {
      KeptChain(g, d1, d2, t.dirs[y]);
    }
  }

  // ---- how many clusters are free

  function FreeCount(tab: seq<nat>, a: nat): nat
    decreases |tab| - a
  {
    if a >= |tab| then 0 else (if tab[a] == FAT_FREE then 1 else 0) + FreeCount(tab, a + 1)
  }

  lemma {:induction false} CountSkip(tab: seq<nat>, a: nat, b: nat)
    requires a <= b <= |tab| && forall c :: a <= c < b ==> tab[c] != FAT_FREE
    ensures FreeCount(tab, a) == FreeCount(tab, b)
    decreases b - a
  {
    if a < b { CountSkip(tab, a + 1, b); }
  }

  ghost predicate Below(nc: seq<nat>, n: nat) {
    forall c :: c in nc ==> c < n
  }

  lemma CountNext(g: Geo, d0: Disk, d: Disk, t: Tree, nc: seq<nat>, data: seq<byte>, search: nat, c: nat)
    requires g.Fits(d0) && ChainsIn(g, t) && Building(g, d0, d, t, nc, data) && Below(nc, search) && 2 <= search
    requires c != 0 ==> Clus(g, c) && search <= c && Table(g, d, 0)[c] == FAT_FREE
    requires forall b :: search <= b && 2 <= b < (if c == 0 then g.Count() else c) ==> Table(g, d, 0)[b] != FAT_FREE
    ensures FreeCount(Table(g, d0, 0), search) == if c == 0 then 0 else 1 + FreeCount(Table(g, d0, 0), c + 1)
    ensures c != 0 ==> Below(nc + [c], c + 1)
    ensures ChainIn(g, nc)
  {
    hide Slots, Body, Table, SlotsKept, Linked;
    var tab0, tab := Table(g, d0, 0), Table(g, d, 0);
    assert Linked(tab0, tab, nc);
    forall b | search <= b < g.Count() ensures tab[b] == tab0[b] {
      LinkedElse(tab0, tab, nc, b);
    }
    var stop := if c == 0 then g.Count() else c;
    if search <= stop { CountSkip(tab0, search, stop); }
  }

  // ---- pointing an entry at another chain

  /** The entry with a new first cluster and a new size. */
  function Repointed(e: Slot, first: nat, size: nat): Slot
    requires first < 0x10000 && size < 0x1_0000_0000
  {
    e[..26] + Le16(first) + Le32(size)
  }

  lemma RepointedFields(e: Slot, first: nat, size: nat)
    requires first < 0x10000 && size < 0x1_0000_0000
    ensures var r := Repointed(e, first, size);
            r[..26] == e[..26] && First(r) == first && Size(r) == size && r[0] == e[0] && r[11] == e[11]
  {
    hide Le16, Le32;
    var r := Repointed(e, first, size);
    assert r[26..28] == Le16(first) && r[28..32] == Le32(size);
    assert r[26] == r[26..28][0] && r[27] == r[26..28][1];
    assert r[28] == r[28..32][0] && r[29] == r[28..32][1] && r[30] == r[28..32][2] && r[31] == r[28..32][3];
    assert Rd16(r, 26) == Rd16(Le16(first), 0);
    assert Rd32(r, 28) == Rd32(Le32(size), 0);
  }

  lemma HeadLow(g: Geo, ch: seq<nat>)
    requires g.Ok() && ChainIn(g, ch)
    ensures Head(ch) < 0x10000
  {
    assert ch != [] ==> Clus(g, ch[0]);
  }

  lemma BuiltSlots(g: Geo, d0: Disk, d: Disk, t: Tree, nc: seq<nat>, data: seq<byte>, x: nat)
    requires g.Fits(d0) && ChainsIn(g, t) && Building(g, d0, d, t, nc, data) && x in t.dirs
    ensures g.Fits(d) && Slots(g, d, t.dirs[x]) == Slots(g, d0, t.dirs[x])
            && Body(g, d, nc) == Chunks(data, |nc| * g.spc)
  {
    assert t.dirs[x] == t.dirs[x];
  }

  /** A listed entry of a file is an entry of the tree. */
  lemma ListedFile(g: Geo, d: Disk, t: Tree, x: nat, y: Item)
    requires SafeWith(g, d, t) && x in t.dirs && ChainIn(g, t.dirs[x]) && y in Listing(Slots(g, d, t.dirs[x]))
    ensures Live(Slots(g, d, t.dirs[x]), y.idx) && Slots(g, d, t.dirs[x])[y.idx] == y.ent
    ensures !Self((x, y.idx)) ==> (x, y.idx) in t.ents && t.ents[(x, y.idx)].slot == y.ent
    ensures !IsDir(y.ent) ==> !Self((x, y.idx))
  {
    hide Slots, Shape, IsDir, First, IsChain, Table, Body;
    var s := Slots(g, d, t.dirs[x]);
    ItemsIn(s, 0, EndOf(s), y);
    DirFacts(g, d, t, x);
    assert Live(s, y.idx);
    if !Self((x, y.idx)) { KeyFacts(g, d, t, (x, y.idx)); }
  }

  lemma RepointSafe(g: Geo, d: Disk, t: Tree, x: nat, y: Item, first: nat, size: nat, nc: seq<nat>)
    requires SafeWith(g, d, t) && x in t.dirs && ChainIn(g, t.dirs[x]) && y in Listing(Slots(g, d, t.dirs[x]))
             && !IsDir(y.ent)
    requires first < 0x10000 && size < 0x1_0000_0000 && ChainIn(g, nc) && Fresh(t, nc) && first == Head(nc)
             && IsChain(Table(g, d, 0), nc)
    ensures var e, i := Repointed(y.ent, first, size), y.idx;
            && i < |Slots(g, d, t.dirs[x])| && i / SLOTS_PER_SEC < Secs(g, t.dirs[x])
            && SecLba(g, t.dirs[x], i / SLOTS_PER_SEC) < |d|
            && SafeWith(g, PutSlot(g, d, t.dirs[x], i, e), SetEnt(t, (x, i), Entry(e, nc, Body(g, d, nc))))
            && !IsDir(e) && (x, i) in t.ents && t.ents[(x, i)].slot == y.ent && e[..26] == y.ent[..26]
  {
    hide SafeWith, Slots, SlotsBut, PutSlot, SecLba, Secs, Fresh, Table, IsChain, Body, First, Listing, Repointed;
    TreeFits(g, d, t);
    var e, i, s := Repointed(y.ent, first, size), y.idx, Slots(g, d, t.dirs[x]);
    ListedFile(g, d, t, x, y);
    RepointedFields(y.ent, first, size);
    SlotsLen(g, d, t.dirs[x], i);
    LiveRewrite(s, x, i, e);
    SafeSet(g, d, t, x, i, e, nc);
  }

  /** The old chain is still whole, and nobody's, once the entry points elsewhere. */
  lemma OldChain(g: Geo, d1: Disk, d2: Disk, t: Tree, x: nat, k: Key, en: Entry)
    requires SafeWith(g, d1, t) && g.Fits(d1) && g.Fits(d2) && ChainsIn(g, t) && k in t.ents && x in t.dirs
             && Fresh(t, en.chain) && ChainIn(g, en.chain)
    requires Elsewhere(g, d1, d2, t, x, en.chain)
    ensures IsChain(Table(g, d2, 0), t.ents[k].chain) && Distinct(t.ents[k].chain)
            && Head(t.ents[k].chain) == First(t.ents[k].slot)
    ensures forall c :: c in t.ents[k].chain ==> !Owned(SetEnt(t, k, en), c)
    ensures Head(t.ents[k].chain) < 2 ==> t.ents[k].chain == []
  {
    hide Slots, Table, IsChain, Body, Owned, Fresh, EntOn, Distinct, Shape, First;
    KeyFacts(g, d1, t, k);
    assert Table(g, d2, 0) == Table(g, d1, 0);
    FreshDisjoint(t, en.chain, k);
    forall c | c in t.ents[k].chain ensures !Owned(SetEnt(t, k, en), c) {
      OwnedSet(t, k, en, c);
    }
    assert t.ents[k].chain != [] ==> Clus(g, t.ents[k].chain[0]);
  }

  lemma FreedNone(g: Geo, d: Disk, ch: seq<nat>)
    requires g.Fits(d)
    ensures ch == [] ==>
            forall f {:trigger Table(g, d, f)} :: 0 <= f < g.nfats ==> Table(g, d, f) == FreedTab(Table(g, d, f), ch)
    ensures DataKept(g, d, d)
  {
    if ch == [] {
      forall f | 0 <= f < g.nfats ensures Table(g, d, f) == FreedTab(Table(g, d, f), ch) {
        FreedAll(Table(g, d, f), ch);
      }
    }
  }

  lemma CacheCurrent2(g: Geo, d: Disk, d': Disk, t: Tree, ok: bool, lba: nat, sec: Sector)
    requires g.Ok() && ChainsIn(g, t) && g.RootStart() <= lba < |d| && sec == d[lba] && DataKept(g, d, d')
    ensures Coherent(g, d', ok, lba, sec, t)
  {
  }

  lemma GrewTwo(l0: seq<Image>, l1: seq<Image>, l2: seq<Image>, t: Tree, t': Tree)
    requires Grew(l0, l1, {t'}) || Grew(l0, l1, {t, t'})
    requires Grew(l1, l2, {t'})
    ensures Grew(l0, l2, {t, t'})
  {
    if Grew(l0, l1, {t'}) { GrewThrough(l0, l1, l2, {t'}, {t'}); } else { GrewThrough(l0, l1, l2, {t, t'}, {t'}); }
    assert {t'} + {t'} <= {t, t'} && {t, t'} + {t'} == {t, t'};
  }

  lemma UpdateSlots(g: Geo, d1: Disk, d2: Disk, d3: Disk, t: Tree, x: nat, i: nat, e: Slot, nc: seq<nat>)
    requires g.Fits(d1) && g.Fits(d2) && ChainsIn(g, t) && x in t.dirs && ChainIn(g, nc)
             && Elsewhere(g, d1, d2, t, x, nc) && DataKept(g, d2, d3)
    requires i < |Slots(g, d1, t.dirs[x])| && Slots(g, d2, t.dirs[x]) == Slots(g, d1, t.dirs[x])[i := e]
    ensures g.Fits(d3) && Slots(g, d3, t.dirs[x]) == Slots(g, d1, t.dirs[x])[i := e]
    ensures forall z {:trigger t.dirs[z]} ::
            z in t.dirs && z != x ==> Slots(g, d3, t.dirs[z]) == Slots(g, d1, t.dirs[z])
  {
    hide Slots, Table, Body, DataKept;
    KeptChain(g, d2, d3, t.dirs[x]);
    forall z | z in t.dirs && z != x ensures Slots(g, d3, t.dirs[z]) == Slots(g, d1, t.dirs[z]) {
      KeptChain(g, d2, d3, t.dirs[z]);
    }
  }

  lemma DirsThrough(g: Geo, d0: Disk, d1: Disk, d2: Disk, t: Tree, x: nat, nc: seq<nat>, data: seq<byte>)
    requires g.Fits(d0) && g.Fits(d1) && g.Fits(d2) && ChainsIn(g, t) && Building(g, d0, d1, t, nc, data)
    requires forall z {:trigger t.dirs[z]} ::
             z in t.dirs && z != x ==> Slots(g, d2, t.dirs[z]) == Slots(g, d1, t.dirs[z])
    ensures DirsKept(g, d0, d2, t, x)
  {
    hide Slots, Table, Body, Linked;
  }

  lemma UpdateTables(g: Geo, d1: Disk, d2: Disk, d3: Disk, t: Tree, x: nat, och: seq<nat>, nc: seq<nat>)
    requires g.Fits(d1) && g.Fits(d2) && g.Fits(d3) && ChainsIn(g, t) && x in t.dirs && ChainIn(g, nc)
             && Elsewhere(g, d1, d2, t, x, nc)
    requires forall f {:trigger Table(g, d3, f)} ::
             0 <= f < g.nfats ==> Table(g, d3, f) == FreedTab(Table(g, d2, f), och)
    ensures forall f {:trigger Table(g, d3, f)} ::
            0 <= f < g.nfats ==> Table(g, d3, f) == FreedTab(Table(g, d1, f), och)
  {
    hide Table, FreedTab, Slots, Body;
    forall f | 0 <= f < g.nfats ensures Table(g, d3, f) == FreedTab(Table(g, d1, f), och) {
      assert Table(g, d2, f) == Table(g, d1, f);
    }
  }

  lemma SizedIs(g: Geo, en: Entry, size: nat, was: Slot, first: nat)
    requires g.Ok() && first < 0x10000 && size < 0x1_0000_0000 && en.slot == Repointed(was, first, size)
             && |en.chain| == Need(g, size)
    ensures Sized(g, en)
  {
    hide Repointed, Size, First;
    RepointedFields(was, first, size);
  }

  // ---- fat16_write as a whole

  /** No slot of any directory but x changed. */
  ghost predicate DirsKept(g: Geo, d: Disk, d': Disk, t: Tree, x: nat)
    requires g.Fits(d) && g.Fits(d') && ChainsIn(g, t)
  {
    forall z {:trigger t.dirs[z]} :: z in t.dirs && z != x ==> Slots(g, d', t.dirs[z]) == Slots(g, d, t.dirs[z])
  }

  /** When fat16_write says -1: the name is a directory, or there is not room for the
      data, or for a new name. */
  ghost predicate Refused(g: Geo, d: Disk, t: Tree, x: nat, leaf: seq<byte>, len: nat)
    requires g.Fits(d) && ChainsIn(g, t) && x in t.dirs
  {
    var s := Slots(g, d, t.dirs[x]);
    || (Lookup(s, leaf).Some? && IsDir(Lookup(s, leaf).value.ent))
    || FreeCount(Table(g, d, 0), 2) < Need(g, len)
    || (Lookup(s, leaf).None? && (EntryUnits(leaf).None? || NoRun(s, LongCount(EntryUnits(leaf).value) + 1)))
  }

  /** When it succeeds: entry k of directory x, which leaf now leads to, holds data;
      every other entry, and every other name, is what it was. */
  ghost predicate Written(g: Geo, d: Disk, t: Tree, d': Disk, t': Tree, x: nat, leaf: seq<byte>, data: seq<byte>,
      k: Key)
    requires g.Fits(d) && ChainsIn(g, t) && x in t.dirs && |leaf| < NAME_MAX
  {
    && k.0 == x && k in t'.ents && t' == SetEnt(t, k, t'.ents[k]) && (k in t.ents ==> !IsDir(t.ents[k].slot))
    && HasData(t'.ents[k], data) && g.Fits(d') && DirsKept(g, d, d', t, x)
    && var s, s' := Slots(g, d, t.dirs[x]), Slots(g, d', t.dirs[x]);
       && (Lookup(s, leaf).Some? ==> Lookup(s, leaf).value.idx == k.1)
       && (Lookup(s, leaf).None? ==> k !in t.ents)
       && NameEntered(s, s', x, leaf, k.1)
  }

  /** The entry is a file's, and the file's bytes are data. */
  ghost predicate HasData(en: Entry, data: seq<byte>) {
    !IsDir(en.slot) && Size(en.slot) == |data| && |data| <= |en.body| * SECSZ && FileBytes(en.body, |data|) == data
  }

  lemma KeptSelf(g: Geo, d: Disk, t: Tree)
    requires g.Fits(d) && ChainsIn(g, t)
    ensures SlotsKept(g, d, d, t) && SameTables(g, d, d)
  {
  }

  lemma SameTablesAt(g: Geo, d: Disk, d': Disk)
    requires g.Fits(d) && g.Fits(d') && SameTables(g, d, d')
    ensures forall f {:trigger Table(g, d', f)} :: 0 <= f < g.nfats ==> Table(g, d', f) == Table(g, d, f)
  {
  }

  lemma FullTidy(g: Geo, d: Disk, t: Tree, x: nat)
    requires Full(g, d, t) && g.Fits(d) && ChainsIn(g, t) && x in t.dirs
    ensures Tidy(Slots(g, d, t.dirs[x]))
  {
    assert TidyAt(g, d, t, x);
  }

  lemma GrewMore(l0: seq<Image>, l1: seq<Image>, t: Tree)
    requires Grew(l0, l1, {t})
    ensures Grew(l0, l1, {t, t})
  {
    assert {t, t} == {t};
  }

  lemma GrewJoin(l0: seq<Image>, l1: seq<Image>, l2: seq<Image>, t: Tree, t': Tree)
    requires Grew(l0, l1, {t}) && Grew(l1, l2, {t, t'})
    ensures Grew(l0, l2, {t, t'})
  {
    GrewThrough(l0, l1, l2, {t}, {t, t'});
    assert {t} + {t, t'} == {t, t'};
  }

  lemma HasDataIs(g: Geo, e: Slot, nc: seq<nat>, data: seq<byte>)
    requires g.Ok() && !IsDir(e) && Size(e) == |data| && |nc| == Need(g, |data|)
    ensures HasData(Entry(e, nc, Chunks(data, |nc| * g.spc)), data)
  {
    NeedEnough(g, |data|);
    ChunksBytes(data, |nc| * g.spc);
  }

  lemma RepointWritten(g: Geo, d0: Disk, t: Tree, d: Disk, x: nat, leaf: seq<byte>, y: Item, en: Entry, data: seq<byte>)
    requires g.Fits(d0) && g.Fits(d) && ChainsIn(g, t) && x in t.dirs && Tidy(Slots(g, d0, t.dirs[x]))
    requires Lookup(Slots(g, d0, t.dirs[x]), leaf) == Some(y) && (x, y.idx) in t.ents && !IsDir(t.ents[(x, y.idx)].slot)
    requires en.slot[..26] == y.ent[..26] && HasData(en, data) && DirsKept(g, d0, d, t, x) && |leaf| < NAME_MAX
    requires y.idx < |Slots(g, d0, t.dirs[x])| && Slots(g, d, t.dirs[x]) == Slots(g, d0, t.dirs[x])[y.idx := en.slot]
    ensures Written(g, d0, t, d, SetEnt(t, (x, y.idx), en), x, leaf, data, (x, y.idx))
  {
    hide Slots, Lookup, NamesKept, HasData, Tidy, WellNamed;
    LookupUpdate(Slots(g, d0, t.dirs[x]), y, en.slot, leaf);
  }

  lemma RepointedFile(e: Slot, first: nat, size: nat)
    requires first < 0x10000 && size < 0x1_0000_0000
    ensures IsDir(Repointed(e, first, size)) == IsDir(e)
  {
    hide Repointed;
    RepointedFields(e, first, size);
  }

  lemma CreatedTidy(g: Geo, d: Disk, t: Tree, d': Disk, t': Tree, x: nat, name: seq<byte>, isDir: bool, first: nat,
      size: nat, ch: seq<nat>, slot: nat, start: nat)
    requires g.Fits(d) && ChainsIn(g, t) && ChainIn(g, ch) && first < 0x10000 && size < 0x1_0000_0000 && x in t.dirs
    requires Created(g, d, t, d', t', x, name, isDir, first, size, ch, slot, start) && Tidy(Slots(g, d, t.dirs[x]))
    requires |name| < NAME_MAX && NoZero(name) && name != []
    ensures g.Fits(d') && Tidy(Slots(g, d', t.dirs[x]))
    ensures var sh := NewEntry(ShortName(Listing(Slots(g, d, t.dirs[x])), name), if isDir then 0x10
            else 0x20, first, size);
            && Size(sh) == size && First(sh) == first && (IsDir(sh) <==> isDir)
            && x in t.depth && (isDir ==> ch != []) && t' == NextTree(t, (x, slot), sh, isDir, ch, Body(g, d, ch))
    ensures slot < |Slots(g, d, t.dirs[x])| && Free(Slots(g, d, t.dirs[x])[slot])
    ensures Lookup(Slots(g, d, t.dirs[x]), name).None? && !Self((x, slot)) ==>
            NameEntered(Slots(g, d, t.dirs[x]), Slots(g, d', t.dirs[x]), x, name, slot)
  {
    hide Slots, Listing, NewEntry, ShortName, EntryUnits, Text, Placed, EntrySlots, Body, Bytes, NewName, First, Size,
        IsDir, Short, Lookup, NamesKept, WellNamed, Table, Free, Fits83, To83, NextTree, Undotted, Tidy;
    var s, u := Slots(g, d, t.dirs[x]), EntryUnits(name).value;
    var sh := NewEntry(ShortName(Listing(s), name), if isDir then 0x10 else 0x20, first, size);
    EntryShort(Listing(s), name, isDir, first, size);
    ListedIsNew(s, name, sh);
    var pre, post := CreateList(s, start, u, sh);
    LookupCreate(s, start, u, sh);
  }

  lemma ShortFits(items: seq<Item>, name: seq<byte>)
    ensures Fits83(name) ==> ShortName(items, name) == To83(name)
  {
  }

  lemma CreatedFull(g: Geo, d0: Disk, d1: Disk, d2: Disk, t: Tree, t': Tree, x: nat, leaf: seq<byte>, first: nat,
      data: seq<byte>, nc: seq<nat>, slot: nat, start: nat)
    requires Full(g, d0, t) && g.Fits(d0) && g.Fits(d1) && ChainsIn(g, t) && Building(g, d0, d1, t, nc, data)
             && x in t.dirs && ChainIn(g, nc)
    requires Slots(g, d1, t.dirs[x]) == Slots(g, d0, t.dirs[x]) && Body(g, d1, nc) == Chunks(data, |nc| * g.spc)
    requires first < 0x10000 && |nc| == Need(g, |data|) && |data| < 0x8000_0000 && NoZero(leaf) && leaf != []
             && |leaf| < NAME_MAX
    requires Created(g, d1, t, d2, t', x, leaf, false, first, |data|, nc, slot, start) && SafeWith(g, d2, t')
             && Lookup(Slots(g, d0, t.dirs[x]), leaf).None?
    ensures Full(g, d2, t') && Written(g, d0, t, d2, t', x, leaf, data, (x, slot))
    ensures EntryUnits(leaf).Some? && !NoRun(Slots(g, d0, t.dirs[x]), LongCount(EntryUnits(leaf).value) + 1)
  {
    hide Full, Slots, Lookup, NamesKept, NewEntry, Size, First, Chunks, HasData, Need, Table, Tidy, WellNamed,
        Building, SafeWith, Body, Free, Listing, ShortName, IsDir, EntryUnits, Text, EntrySlots, Placed, NoRun,
        LongCount, Sized, Elsewhere, NameEntered;
    FullTidy(g, d0, t, x);
    CreatedTidy(g, d1, t, d2, t', x, leaf, false, first, |data|, nc, slot, start);
    var sh := NewEntry(ShortName(Listing(Slots(g, d1, t.dirs[x])), leaf), 0x20, first, |data|);
    FullSafe(g, d0, t);
    FreeNobody(g, d0, t, x, slot);
    SizedNew(g, Entry(sh, nc, Chunks(data, |nc| * g.spc)), |data|);
    FullCreate(g, d0, d1, d2, t, x, slot, sh, nc, data);
    HasDataIs(g, sh, nc, data);
    ElsewhereDirs(g, d1, d2, t, x, nc);
    DirsThrough(g, d0, d1, d2, t, x, nc, data);
    RunThere(Slots(g, d1, t.dirs[x]), start, LongCount(EntryUnits(leaf).value) + 1);
  }

  lemma ElsewhereDirs(g: Geo, d: Disk, d': Disk, t: Tree, x: nat, ch: seq<nat>)
    requires g.Fits(d) && ChainsIn(g, t) && ChainIn(g, ch) && Elsewhere(g, d, d', t, x, ch)
    ensures g.Fits(d') && DirsKept(g, d, d', t, x)
  {
  }

  lemma SizedNew(g: Geo, en: Entry, size: nat)
    requires g.Ok() && Size(en.slot) == size && |en.chain| == Need(g, size)
    ensures Sized(g, en)
  {
  }

  lemma RunThere(s: seq<Slot>, start: nat, count: nat)
    requires FreeRun(s, start, count)
    ensures !NoRun(s, count)
  {
    assert AllFree(s, start, count);
  }

  // ---- reading

  /** Sectors up to n have been copied, or all that was wanted. */
  ghost predicate ReadTo(body: seq<Sector>, cap: nat, n: nat, out: seq<byte>) {
    && cap <= |body| * SECSZ && n <= |body|
    && |out| == (if n * SECSZ < cap then n * SECSZ else cap) && out == FileBytes(body, |out|)
  }

  lemma ReadNone(body: seq<Sector>, cap: nat)
    ensures cap <= |body| * SECSZ ==> ReadTo(body, cap, 0, [])
  {
    assert FileBytes(body, 0) == [];
  }

  lemma ReadSize(body: seq<Sector>, cap: nat, n: nat, out: seq<byte>)
    requires ReadTo(body, cap, n, out)
    ensures |out| <= cap
  {
  }

  lemma ReadMore(body: seq<Sector>, cap: nat, n: nat, out: seq<byte>, chunk: nat)
    requires ReadTo(body, cap, n, out) && n < |body| && |out| < cap
             && chunk == (if SECSZ > cap - |out| then cap - |out| else SECSZ)
    ensures ReadTo(body, cap, n + 1, out + body[n][..chunk]) && |out + body[n][..chunk]| <= cap
  {
    var more := out + body[n][..chunk];
    forall p | 0 <= p < |more| ensures more[p] == FileBytes(body, |more|)[p] {
      if p < |out| { assert out[p] == FileBytes(body, |out|)[p]; }
    }
  }

  lemma ReadAll(body: seq<Sector>, cap: nat, n: nat, m: nat, out: seq<byte>)
    requires ReadTo(body, cap, n, out) && |out| >= cap && n <= m <= |body|
    ensures ReadTo(body, cap, m, out)
  {
  }

  lemma ReadEnd(body: seq<Sector>, cap: nat, n: nat, out: seq<byte>)
    requires ReadTo(body, cap, n, out) && (|out| >= cap || n >= |body|)
    ensures cap <= |body| * SECSZ && out == FileBytes(body, cap)
  {
  }

  lemma ChainAt(g: Geo, ch: seq<nat>, j: nat)
    requires g.Ok() && ChainIn(g, ch) && j <= |ch|
    ensures j < |ch| ==> InChain(ch[j])
    ensures j == |ch| ==> j * g.spc == |ch| * g.spc
  {
  }

  lemma FileFacts(g: Geo, d: Disk, t: Tree, k: Key)
    requires Full(g, d, t) && k in t.ents && !IsDir(t.ents[k].slot)
    ensures g.Fits(d) && ChainIn(g, t.ents[k].chain) && IsChain(Table(g, d, 0), t.ents[k].chain)
            && Head(t.ents[k].chain) == First(t.ents[k].slot)
    ensures Size(t.ents[k].slot) <= |t.ents[k].chain| * g.spc * SECSZ && t.ents[k].body == Body(g, d, t.ents[k].chain)
    ensures forall data {:trigger HasData(t.ents[k], data)} ::
              Size(t.ents[k].slot) <= |t.ents[k].body| * SECSZ &&
              data == FileBytes(t.ents[k].body, Size(t.ents[k].slot)) ==>
                HasData(t.ents[k], data)
  {
    hide Shape, Slots, Table, IsChain, Body, First, Size, IsDir, Need, FileBytes, Exact, Tidy;
    KeyFacts(g, d, t, k);
    assert Sized(g, t.ents[k]);
    NeedEnough(g, Size(t.ents[k].slot));
  }

  // ---- removing a name

  lemma CacheOn(g: Geo, d: Disk, ch: seq<nat>, ok: bool, lba: nat, sec: Sector)
    requires g.Ok() && ChainIn(g, ch) && g.RootStart() <= lba < |d| && sec == d[lba]
    ensures CacheFor(g, d, ok, lba, sec, ch)
  {
  }

  lemma GrewEither(l0: seq<Image>, l1: seq<Image>, l2: seq<Image>, t0: Tree, t1: Tree, t: Tree)
    requires Grew(l0, l1, {t0, t1}) && Grew(l1, l2, {t}) && (t == t0 || t == t1)
    ensures Grew(l0, l2, {t0, t1})
  {
    GrewThrough(l0, l1, l2, {t0, t1}, {t});
    assert {t0, t1} + {t} == {t0, t1};
  }

  lemma EraseBegin(s: seq<Slot>, y: Item)
    requires Tidy(s) && y in Listing(s)
    ensures y.chain <= y.idx < |s| && Erasing(s, s, y.chain, y.idx, y.chain)
            && forall j :: y.chain <= j < y.idx ==> !Short(s[j])
  {
    hide Tidy, Listing;
    var pre, post := EraseList(s, y);
    EraseDone(s, y.chain, y.idx);
  }

  lemma EraseEnd(s0: seq<Slot>, s: seq<Slot>, a: nat, b: nat)
    requires Erasing(s0, s, a, b, b + 1)
    ensures s == Erased(s0, a, b)
  {
    EraseDone(s0, a, b);
  }

  lemma EraseStep(g: Geo, d: Disk, t: Tree, x: nat, s0: seq<Slot>, a: nat, b: nat, i: nat)
    requires SafeWith(g, d, t) && x in t.dirs && ChainIn(g, t.dirs[x]) && ((x, b) in t.ents || Self((x, b)))
    requires Erasing(s0, Slots(g, d, t.dirs[x]), a, b, i) && i <= b && (i < b ==> !Short(s0[i]))
    ensures i < |Slots(g, d, t.dirs[x])| && i / SLOTS_PER_SEC < Secs(g, t.dirs[x])
            && SecLba(g, t.dirs[x], i / SLOTS_PER_SEC) < |d|
    ensures var d' := PutSlot(g, d, t.dirs[x], i, Slots(g, d, t.dirs[x])[i][0 := 0xE5]);
            && ChainsIn(g, t) && Shape(t) && Elsewhere(g, d, d', t, x, [])
            && Erasing(s0, Slots(g, d', t.dirs[x]), a, b, i + 1)
            && (i < b ==> SafeWith(g, d', t)) && (i == b && !Self((x, b)) ==> SafeWith(g, d', Pruned(t, (x, b))))
  {
    hide SafeWith, Slots, SlotsBut, PutSlot, SecLba, Secs, Short, IsDir, First, Live, Erasing, Elsewhere, Pruned, Shape;
    TreeFits(g, d, t);
    var s := Slots(g, d, t.dirs[x]);
    EraseNext(s0, s, a, b, i, x);
    var e: Slot := s[i][0 := 0xE5];
    SlotsLen(g, d, t.dirs[x], i);
    FreshNone(t);
    PutElsewhere(g, d, t, x, i, e, []);
    ElsewhereFits(g, d, PutSlot(g, d, t.dirs[x], i, e), t, x, []);
    if i < b { SafeHidden(g, d, t, x, i, e); } else if !Self((x, b)) { SafePrune(g, d, t, x, i, e); }
  }

  lemma ElsewhereFits(g: Geo, d: Disk, d': Disk, t: Tree, x: nat, ch: seq<nat>)
    requires g.Fits(d) && ChainsIn(g, t) && ChainIn(g, ch) && Elsewhere(g, d, d', t, x, ch)
    ensures g.Fits(d') && Table(g, d', 0) == Table(g, d, 0)
  {
  }

  ghost predicate AllDots(items: seq<Item>) {
    forall y :: y in items ==> IsDots(y.name)
  }

  lemma DotsNone()
    ensures AllDots([])
  {
  }

  lemma DotsOne(y: Item)
    ensures AllDots([y]) <==> y.name == DOTS1 || y.name == DOTS2
  {
    assert y in [y];
  }

  lemma DotsSplit(s: seq<Slot>, i: nat, k: nat)
    requires i <= k <= |s|
    ensures AllDots(ItemsFrom(s, 0, k)) <==> AllDots(ItemsFrom(s, 0, i)) && AllDots(ItemsFrom(s, i, k))
    ensures AllDots([])
  {
    hide ItemsFrom;
    ItemsSplit(s, 0, i, k);
  }

  /** The two entries a directory keeps about itself are listed as . and .. */
  lemma DotNames(s: seq<Slot>, x: nat, p: nat)
    requires 2 <= |s| && DotEntry(s[0], DOT1, x) && DotEntry(s[1], DOT2, p) && Short(s[0])
    ensures ItemAt(s, 0).name == DOTS1 && ItemAt(s, 1).name == DOTS2
  {
    After1(s, 0);
    DotFmt(s[0], s[1]);
  }

  lemma DotFmt(a: Slot, b: Slot)
    requires a[..11] == DOT1 && b[..11] == DOT2
    ensures FmtName(a) == DOTS1 && FmtName(b) == DOTS2
  {
    assert forall k :: 0 <= k < 11 ==> a[k] == DOT1[k] && b[k] == DOT2[k] by {
      assert forall k :: 0 <= k < 11 ==> a[k] == a[..11][k] && b[k] == b[..11][k];
    }
    assert a[..8] == DOTS1 + a[1..8] && b[..8] == DOTS2 + b[2..8];
    WordPad(DOTS1, a[1..8]);
    WordPad(DOTS2, b[2..8]);
    CStrWhole(DOTS1);
    CStrWhole(DOTS2);
    assert !HasExt(a) && !HasExt(b);
    assert DOTS1 + [] == DOTS1 && DOTS2 + [] == DOTS2;
  }

  lemma ListedAt(s: seq<Slot>, i: nat)
    requires Live(s, i)
    ensures ItemAt(s, i) in Listing(s) && ItemAt(s, i).idx == i
  {
    ItemsIn(s, 0, EndOf(s), ItemAt(s, i));
  }

  lemma ListedIs(s: seq<Slot>, y: Item)
    requires y in Listing(s)
    ensures Live(s, y.idx) && y == ItemAt(s, y.idx)
  {
    ItemsIn(s, 0, EndOf(s), y);
  }

  /** Where names are plain, fat16_remove's test is exactly that no entry of the tree lies in
      the directory. */
  lemma EmptyIs(g: Geo, d: Disk, t: Tree, x: nat)
    requires SafeWith(g, d, t) && g.Fits(d) && ChainsIn(g, t) && x in t.dirs && x != 0 && PlainAt(g, d, t, x)
    ensures AllDots(Listing(Slots(g, d, t.dirs[x]))) <==> Empty(t, x)
  {
    hide Slots, Table, IsChain, Body, Shape, Live, Listing, ItemAt, DotEntry, Short, IsDir, First;
    var s := Slots(g, d, t.dirs[x]);
    DirFacts(g, d, t, x);
    SelfNames(g, d, t, x);
    forall y | y in Listing(s) ensures Empty(t, x) ==> IsDots(y.name) {
      ListedIs(s, y);
      if y.idx >= 2 { assert (x, y.idx) in t.ents; }
    }
    forall k | k in t.ents && k.0 == x ensures !AllDots(Listing(s)) {
      KeyFacts(g, d, t, k);
      ListedAt(s, k.1);
    }
  }

  lemma SelfNames(g: Geo, d: Disk, t: Tree, x: nat)
    requires SafeWith(g, d, t) && g.Fits(d) && ChainsIn(g, t) && x in t.dirs && x != 0
    ensures 2 <= |Slots(g, d, t.dirs[x])| && ItemAt(Slots(g, d, t.dirs[x]), 0).name == DOTS1
            && ItemAt(Slots(g, d, t.dirs[x]), 1).name == DOTS2
  {
    hide Slots, Table, IsChain, Body, Shape, Live, ItemAt, DotEntry, Short, IsDir, First;
    var s := Slots(g, d, t.dirs[x]);
    DirFacts(g, d, t, x);
    LiveShort(s, 0);
    LiveShort(s, 1);
    DotNames(s, x, t.par[x].0);
  }

  lemma LiveShort(s: seq<Slot>, i: nat)
    requires Live(s, i)
    ensures i < |s| && Short(s[i])
  {
  }

  lemma UpperDots(n: seq<byte>)
    ensures Upper(n) == Upper(DOTS1) ==> n == DOTS1
    ensures Upper(n) == Upper(DOTS2) ==> n == DOTS2
  {
    if Upper(n) == Upper(DOTS1) { assert Upper(n)[0] == Upper(DOTS1)[0] && n[0] == 0x2E; }
    if Upper(n) == Upper(DOTS2) {
      assert Upper(n)[0] == Upper(DOTS2)[0] && Upper(n)[1] == Upper(DOTS2)[1];
      assert n[0] == 0x2E && n[1] == 0x2E;
    }
  }

  /** Where the entry y of directory x leads, if it leads to a directory. */
  lemma TargetIn(g: Geo, d: Disk, t: Tree, x: nat, y: Item)
    requires SafeWith(g, d, t) && g.Fits(d) && ChainsIn(g, t) && x in t.dirs && y in Listing(Slots(g, d, t.dirs[x]))
    ensures IsDir(y.ent) ==> First(y.ent) in t.dirs
    ensures Self((x, y.idx)) ==> IsDir(y.ent) && x in t.par && First(y.ent) == if y.idx == 0 then x else t.par[x].0
  {
    hide Slots, Table, IsChain, Body, Listing, IsDir, First, Live, Shape;
    ListedFile(g, d, t, x, y);
    DirFacts(g, d, t, x);
    if IsDir(y.ent) && !Self((x, y.idx)) { DirTarget(g, d, t, (x, y.idx)); }
  }

  /** The chain fat_free_chain is given. */
  lemma TargetChain(g: Geo, d: Disk, t: Tree, x: nat, y: Item) returns (ch: seq<nat>)
    requires SafeWith(g, d, t) && g.Fits(d) && ChainsIn(g, t) && x in t.dirs && y in Listing(Slots(g, d, t.dirs[x]))
    ensures IsChain(Table(g, d, 0), ch) && Distinct(ch) && First(y.ent) == Head(ch)
            && ((x, y.idx) in t.ents ==> ch == t.ents[(x, y.idx)].chain)
    ensures IsDir(y.ent) ==> First(y.ent) in t.dirs && ch == t.dirs[First(y.ent)]
    ensures Self((x, y.idx)) <==> (x, y.idx) !in t.ents
  {
    hide Slots, Table, IsChain, Body, Listing, IsDir, Live, Shape, Distinct;
    ListedFile(g, d, t, x, y);
    TargetIn(g, d, t, x, y);
    if Self((x, y.idx)) {
      ch := t.dirs[First(y.ent)];
      DirFacts(g, d, t, First(y.ent));
      if (x, y.idx) in t.ents { KeyFacts(g, d, t, (x, y.idx)); }
    } else {
      ch := t.ents[(x, y.idx)].chain;
      KeyFacts(g, d, t, (x, y.idx));
    }
  }

  /** When fat16_remove goes ahead. */
  ghost predicate Removable(g: Geo, d: Disk, t: Tree, x: nat, leaf: seq<byte>)
    requires g.Fits(d) && ChainsIn(g, t) && x in t.dirs
  {
    var y := Lookup(Slots(g, d, t.dirs[x]), leaf);
    y.Some? && (IsDir(y.value.ent) ==>
        First(y.value.ent) in t.dirs && AllDots(Listing(Slots(g, d, t.dirs[First(y.value.ent)]))))
  }

  /** The leaf leads to one of the two entries the directory keeps about itself. */
  ghost predicate SelfLeaf(g: Geo, d: Disk, t: Tree, x: nat, leaf: seq<byte>)
    requires g.Fits(d) && ChainsIn(g, t) && x in t.dirs
  {
    var y := Lookup(Slots(g, d, t.dirs[x]), leaf);
    y.Some? && Self((x, y.value.idx))
  }

  /** The removals fat16_remove should refuse and does not: of a directory's entry about
      itself, and of a directory whose only entries are listed as dot names but own
      clusters. */
  ghost predicate Bad(g: Geo, d: Disk, t: Tree, x: nat, leaf: seq<byte>)
    requires g.Fits(d) && ChainsIn(g, t) && x in t.dirs
  {
    && Removable(g, d, t, x, leaf)
    && var y := Lookup(Slots(g, d, t.dirs[x]), leaf).value;
       IsDir(y.ent) && (Self((x, y.idx)) || Leaks(t, First(y.ent)))
  }

  /** On a volume of plain names that is: . in a directory with nothing in it, or .. in a
      directory of the root when the root lists dot names only. */
  lemma BadPlain(g: Geo, d: Disk, t: Tree, x: nat, leaf: seq<byte>)
    requires SafeWith(g, d, t) && g.Fits(d) && ChainsIn(g, t) && x in t.dirs && PlainNames(g, d, t)
    ensures Bad(g, d, t, x, leaf) <==>
              && x != 0 && 0 in t.dirs && x in t.par
              && (|| (leaf == DOTS1 && Empty(t, x))
                  || (leaf == DOTS2 && t.par[x].0 == 0 && AllDots(Listing(Slots(g, d, t.dirs[0])))))
  {
    hide Slots, Table, IsChain, Body, Shape, Live, Listing, Short, IsDir, First, Lookup, SafeWith, AllDots, Empty,
        Leaks;
    var s := Slots(g, d, t.dirs[x]);
    LookupIn(s, leaf);
    DirsKnown(g, d, t, x);
    if Lookup(s, leaf).Some? { BadAt(g, d, t, x, leaf, Lookup(s, leaf).value); }
    if x != 0 { DotsFound(g, d, t, x); }
  }

  /** In a directory . and .. lead to its own two entries. */
  lemma DotsFound(g: Geo, d: Disk, t: Tree, x: nat)
    requires SafeWith(g, d, t) && g.Fits(d) && ChainsIn(g, t) && x in t.dirs && x != 0
    ensures Lookup(Slots(g, d, t.dirs[x]), DOTS1).Some? && Lookup(Slots(g, d, t.dirs[x]), DOTS1).value.idx == 0
    ensures Lookup(Slots(g, d, t.dirs[x]), DOTS2).Some? && Lookup(Slots(g, d, t.dirs[x]), DOTS2).value.idx == 1
  {
    hide Slots, Table, IsChain, Body, Shape, ItemAt, DotEntry, Short, IsDir, First, Find, Listing, Live;
    var s := Slots(g, d, t.dirs[x]);
    DirFacts(g, d, t, x);
    SelfNames(g, d, t, x);
    TwoFirst(s);
    ListedAt(s, 0);
    ListedAt(s, 1);
    FindTwo(Listing(s));
  }

  lemma FindTwo(items: seq<Item>)
    requires |items| >= 2 && items[0].name == DOTS1 && items[1].name == DOTS2
    ensures Find(items, DOTS1) == Some(items[0]) && Find(items, DOTS2) == Some(items[1])
  {
    assert |Upper(DOTS1)| == 1 && |Upper(DOTS2)| == 2;
    assert items[1..][0] == items[1];
  }

  lemma TwoFirst(s: seq<Slot>)
    requires Live(s, 0) && Live(s, 1)
    ensures |Listing(s)| >= 2 && Listing(s)[0] == ItemAt(s, 0) && Listing(s)[1] == ItemAt(s, 1)
  {
    hide ItemAt;
    ItemsSplit(s, 0, 1, EndOf(s));
    ItemsSplit(s, 1, 2, EndOf(s));
    assert ItemsFrom(s, 0, 1) == [ItemAt(s, 0)] && ItemsFrom(s, 1, 2) == [ItemAt(s, 1)];
  }

  lemma BadAt(g: Geo, d: Disk, t: Tree, x: nat, leaf: seq<byte>, y: Item)
    requires SafeWith(g, d, t) && g.Fits(d) && ChainsIn(g, t) && x in t.dirs && PlainNames(g, d, t)
             && y in Listing(Slots(g, d, t.dirs[x])) && NameEq(y.name, leaf)
    ensures Self((x, y.idx)) ==>
            IsDir(y.ent) && x in t.par && First(y.ent) in t.dirs
            && ((leaf == DOTS1 && First(y.ent) == x && y.idx == 0)
            || (leaf == DOTS2 && First(y.ent) == t.par[x].0 && y.idx == 1))
    ensures IsDir(y.ent) ==> First(y.ent) in t.dirs
    ensures IsDir(y.ent) && First(y.ent) != 0 ==>
            (AllDots(Listing(Slots(g, d, t.dirs[First(y.ent)]))) <==> Empty(t, First(y.ent)))
    ensures IsDir(y.ent) && !Self((x, y.idx)) ==> First(y.ent) != 0
    ensures IsDir(y.ent) && Empty(t, First(y.ent)) ==> !Leaks(t, First(y.ent))
    ensures x != 0 && x in t.par ==> !Empty(t, t.par[x].0)
  {
    hide Slots, Table, IsChain, Body, Shape, Live, Listing, ItemAt, Short, IsDir, First, Upper, AllDots;
    TargetIn(g, d, t, x, y);
    ListedFile(g, d, t, x, y);
    DirsKnown(g, d, t, x);
    if x != 0 { ChildThere(t, x); }
    if Self((x, y.idx)) {
      ListedIs(Slots(g, d, t.dirs[x]), y);
      SelfNames(g, d, t, x);
      UpperDots(leaf);
    }
    if IsDir(y.ent) && First(y.ent) != 0 {
      assert PlainAt(g, d, t, First(y.ent));
      EmptyIs(g, d, t, First(y.ent));
    }
    if IsDir(y.ent) && !Self((x, y.idx)) { DirTarget(g, d, t, (x, y.idx)); }
  }

  lemma DirsKnown(g: Geo, d: Disk, t: Tree, x: nat)
    requires SafeWith(g, d, t) && x in t.dirs
    ensures 0 in t.dirs && (x != 0 ==> x in t.par && t.par[x].0 in t.dirs && t.par[x] in t.ents)
  {
    DirFacts(g, d, t, x);
  }

  lemma ChildThere(t: Tree, x: nat)
    requires x in t.par && t.par[x] in t.ents
    ensures !Empty(t, t.par[x].0)
  {
  }

  lemma DirTarget(g: Geo, d: Disk, t: Tree, k: Key)
    requires SafeWith(g, d, t) && k in t.ents && IsDir(t.ents[k].slot)
    ensures First(t.ents[k].slot) in t.dirs && First(t.ents[k].slot) != 0
  {
    KeyFacts(g, d, t, k);
  }

  lemma StillFull(g: Geo, d: Disk, t: Tree)
    requires Full(g, d, t)
    ensures exists t' :: Full(g, d, t')
  {
  }

  /** What fat16_remove has done to the disk: the slots of y freed, and the chain ch. */
  ghost predicate Gone(g: Geo, d: Disk, t: Tree, d': Disk, x: nat, y: Item, ch: seq<nat>)
    requires g.Fits(d) && ChainsIn(g, t) && x in t.dirs
  {
    && g.Fits(d') && Slots(g, d', t.dirs[x]) == Erased(Slots(g, d, t.dirs[x]), y.chain, y.idx)
    && DirsKept(g, d, d', t, x)
    && (forall f {:trigger Table(g, d', f)} :: 0 <= f < g.nfats ==> Table(g, d', f) == FreedTab(Table(g, d, f), ch))
  }

  lemma GoneFits(g: Geo, d: Disk, t: Tree, d': Disk, x: nat, y: Item, ch: seq<nat>)
    requires g.Fits(d) && ChainsIn(g, t) && x in t.dirs && Gone(g, d, t, d', x, y, ch)
    ensures g.Fits(d') && Table(g, d', 0) == FreedTab(Table(g, d, 0), ch)
  {
  }

  /** An entry of the tree removed: sound exactly if nothing below it had clusters. */
  lemma EntryGone(g: Geo, d: Disk, t: Tree, d': Disk, x: nat, leaf: seq<byte>, y: Item, ch: seq<nat>)
    requires Full(g, d, t) && SafeWith(g, d, t) && g.Fits(d) && ChainsIn(g, t) && Shape(t) && x in t.dirs
             && Gone(g, d, t, d', x, y, ch) && g.Fits(d')
    requires Lookup(Slots(g, d, t.dirs[x]), leaf) == Some(y) && y in Listing(Slots(g, d, t.dirs[x]))
             && (x, y.idx) in t.ents && !Self((x, y.idx))
    requires ch == t.ents[(x, y.idx)].chain && SafeWith(g, d', Pruned(t, (x, y.idx)))
    requires t.ents[(x, y.idx)].slot == y.ent
    ensures Removed(g, d, t, d', Pruned(t, (x, y.idx)), x, leaf)
    ensures (exists t' :: Full(g, d', t')) <==> !(IsDir(y.ent) && Leaks(t, First(y.ent)))
    ensures !(IsDir(y.ent) && Leaks(t, First(y.ent))) ==> Full(g, d', Pruned(t, (x, y.idx)))
  {
    hide SafeWith, Full, Slots, Table, Lookup, Listing, IsDir, First, Leaks, Pruned, Shape, FreedTab, Erased,
        NamesKept, Tidy, Sole;
    FullTidy(g, d, t, x);
    LookupErase(Slots(g, d, t.dirs[x]), y, leaf);
    GoneFits(g, d, t, d', x, y, ch);
    if IsDir(y.ent) && Leaks(t, First(y.ent)) {
      forall t' ensures !Full(g, d', t') { LeakLost(g, d, d', t, (x, y.idx), t'); }
    } else {
      FullPrune(g, d, d', t, x, y);
      StillFull(g, d', Pruned(t, (x, y.idx)));
    }
  }

  /** One of a directory's own two entries removed: no tree describes the image. */
  lemma SelfGone(g: Geo, d: Disk, t: Tree, d': Disk, x: nat, y: Item, ch: seq<nat>)
    requires SafeWith(g, d, t) && g.Fits(d) && ChainsIn(g, t) && x in t.dirs && Gone(g, d, t, d', x, y, ch)
             && g.Fits(d')
    requires y in Listing(Slots(g, d, t.dirs[x])) && Self((x, y.idx)) && IsDir(y.ent) && First(y.ent) in t.dirs
             && ch == t.dirs[First(y.ent)]
    ensures forall t' :: !SafeWith(g, d', t')
    ensures forall t' :: !Full(g, d', t')
  {
    hide Slots, Table, Body, IsChain, Shape, First, IsDir, Live, Listing, FreedTab, SafeWith, Erased, Gone, Full;
    TargetIn(g, d, t, x, y);
    forall t' ensures !SafeWith(g, d', t') && !Full(g, d', t') {
      if First(y.ent) == 0 { RootGone(g, d, t, d', x, y, t'); } else { DirGone(g, d, t, d', x, y, First(y.ent), t'); }
      if Full(g, d', t') { FullSafe(g, d', t'); }
    }
  }

  lemma RootGone(g: Geo, d: Disk, t: Tree, d': Disk, x: nat, y: Item, t': Tree)
    requires SafeWith(g, d, t) && g.Fits(d) && ChainsIn(g, t) && x in t.dirs && x != 0 && 0 in t.dirs
             && Gone(g, d, t, d', x, y, t.dirs[0]) && g.Fits(d')
    requires y in Listing(Slots(g, d, t.dirs[x])) && y.idx == 1
    ensures !SafeWith(g, d', t')
  {
    hide Slots, Table, Body, IsChain, Shape, Live, Listing, FreedTab, OnDisk, Erased;
    GoneFits(g, d, t, d', x, y, t.dirs[0]);
    DirFacts(g, d, t, x);
    DirFacts(g, d, t, 0);
    FreedAll(Table(g, d, 0), []);
    ErasedDead(Slots(g, d, t.dirs[x]), y);
    KeptAll(g, d, t, d', x, t.depth[x], 0);
    OrphanLost(g, d, t, d', x, t');
  }

  lemma DirGone(g: Geo, d: Disk, t: Tree, d': Disk, x: nat, y: Item, z: nat, t': Tree)
    requires SafeWith(g, d, t) && g.Fits(d) && ChainsIn(g, t) && x in t.dirs && x != 0 && z in t.dirs && z != 0
             && g.Fits(d') && Gone(g, d, t, d', x, y, t.dirs[z])
    requires z == x || (x in t.par && z == t.par[x].0)
    ensures !SafeWith(g, d', t')
  {
    hide Slots, Table, Body, IsChain, Shape, FreedTab, SafeWith, Erased;
    GoneFits(g, d, t, d', x, y, t.dirs[z]);
    VictimDepth(g, d, t, x, z);
    KeptAll(g, d, t, d', x, t.depth[z], z);
    FreedHead(g, d, t, d', z);
    VictimLost(g, d, t, d', z, t');
  }

  lemma ErasedDead(s: seq<Slot>, y: Item)
    requires y in Listing(s) && y.idx < 2
    ensures !Live(Erased(s, y.chain, y.idx), y.idx)
  {
    ListedIs(s, y);
    ChainSpan(s, y.idx);
  }

  lemma VictimDepth(g: Geo, d: Disk, t: Tree, x: nat, z: nat)
    requires SafeWith(g, d, t) && x in t.dirs && x != 0 && z in t.dirs && (z == x || (x in t.par && z == t.par[x].0))
    ensures x in t.depth && z in t.depth && t.depth[z] <= t.depth[x]
  {
    DirFacts(g, d, t, x);
    DirFacts(g, d, t, z);
  }

  /** Nothing above the freed directory, and above x, has changed. */
  lemma KeptAll(g: Geo, d: Disk, t: Tree, d': Disk, x: nat, n: nat, z: nat)
    requires SafeWith(g, d, t) && g.Fits(d) && g.Fits(d') && ChainsIn(g, t) && x in t.dirs && x in t.depth
             && n <= t.depth[x] && DirsKept(g, d, d', t, x)
    requires z in t.dirs && z in t.depth && (z == 0 || t.depth[z] == n)
             && Table(g, d', 0) == FreedTab(Table(g, d, 0), t.dirs[z])
    ensures KeptAbove(g, d, t, d', n)
  {
    hide Slots, Table, Body, IsChain, Shape, FreedTab, OnDisk, Live;
    forall y | y in t.dirs && y in t.depth && t.depth[y] < n
        ensures Slots(g, d', t.dirs[y]) == Slots(g, d, t.dirs[y]) && IsChain(Table(g, d', 0), t.dirs[y]) {
      DirFacts(g, d, t, y);
      FreedOther(g, d, t, y, z);
    }
  }

  lemma FreedOther(g: Geo, d: Disk, t: Tree, y: nat, z: nat)
    requires SafeWith(g, d, t) && g.Fits(d) && y in t.dirs && z in t.dirs && (z == 0 || y != z)
    ensures IsChain(FreedTab(Table(g, d, 0), t.dirs[z]), t.dirs[y])
  {
    hide Slots, Table, Body, IsChain, OnDisk, Live;
    DirFacts(g, d, t, y);
    DirFacts(g, d, t, z);
    if z == 0 {
      FreedAll(Table(g, d, 0), t.dirs[z]);
    } else {
      DirsApart(t, y, z);
      InApart(t.dirs[y], t.dirs[z]);
      ChainFrame(Table(g, d, 0), FreedTab(Table(g, d, 0), t.dirs[z]), t.dirs[y]);
    }
  }

  lemma InApart(a: seq<nat>, b: seq<nat>)
    requires Apart(a, b)
    ensures forall c :: c in a ==> c !in b
  {
  }

  lemma FreedHead(g: Geo, d: Disk, t: Tree, d': Disk, z: nat)
    requires SafeWith(g, d, t) && g.Fits(d) && g.Fits(d') && z in t.dirs && z != 0
             && Table(g, d', 0) == FreedTab(Table(g, d, 0), t.dirs[z])
    ensures z < g.Count() && Table(g, d', 0)[z] == FAT_FREE
  {
    hide Slots, Table, Body, OnDisk, Live;
    DirFacts(g, d, t, z);
    ChainTaken(Table(g, d, 0), t.dirs[z], 0);
    assert z in t.dirs[z];
  }

  lemma DropRest(g: Geo, d0: Disk, d1: Disk, d2: Disk, t: Tree, x: nat, och: seq<nat>)
    requires g.Fits(d0) && g.Fits(d1) && g.Fits(d2) && ChainsIn(g, t) && x in t.dirs && Elsewhere(g, d0, d1, t, x, [])
             && DataKept(g, d1, d2)
    requires forall f {:trigger Table(g, d2, f)} ::
             0 <= f < g.nfats ==> Table(g, d2, f) == FreedTab(Table(g, d1, f), och)
    ensures forall f {:trigger Table(g, d2, f)} ::
            0 <= f < g.nfats ==> Table(g, d2, f) == FreedTab(Table(g, d0, f), och)
    ensures Slots(g, d2, t.dirs[x]) == Slots(g, d1, t.dirs[x])
    ensures forall z {:trigger t.dirs[z]} ::
            z in t.dirs && z != x ==> Slots(g, d2, t.dirs[z]) == Slots(g, d0, t.dirs[z])
  {
    hide Slots, Table, Body, DataKept, FreedTab, Elsewhere;
    UpdateTables(g, d0, d1, d2, t, x, och, []);
    KeptChain(g, d1, d2, t.dirs[x]);
    forall z | z in t.dirs && z != x ensures Slots(g, d2, t.dirs[z]) == Slots(g, d0, t.dirs[z]) {
      KeptChain(g, d1, d2, t.dirs[z]);
      ElsewhereDir(g, d0, d1, t, x, z, []);
    }
  }

  lemma ElsewhereDir(g: Geo, d: Disk, d': Disk, t: Tree, x: nat, z: nat, ch: seq<nat>)
    requires g.Fits(d) && ChainsIn(g, t) && ChainIn(g, ch) && Elsewhere(g, d, d', t, x, ch) && z in t.dirs && z != x
    ensures g.Fits(d') && Slots(g, d', t.dirs[z]) == Slots(g, d, t.dirs[z])
  {
    assert t.dirs[z] == t.dirs[z];
  }

  /** When fat16_remove succeeds: the entry leaf led to is gone, and with a directory all
      that was in it; every other entry, and every other name, is what it was. */
  ghost predicate Removed(g: Geo, d: Disk, t: Tree, d': Disk, t': Tree, x: nat, leaf: seq<byte>)
    requires g.Fits(d) && ChainsIn(g, t) && x in t.dirs && Shape(t)
  {
    && g.Fits(d') && DirsKept(g, d, d', t, x) && Lookup(Slots(g, d, t.dirs[x]), leaf).Some?
    && var y := Lookup(Slots(g, d, t.dirs[x]), leaf).value;
       && (x, y.idx) in t.ents && t' == Pruned(t, (x, y.idx))
       && NamesKept(Slots(g, d, t.dirs[x]), Slots(g, d', t.dirs[x]), leaf)
       && (Sole(Listing(Slots(g, d, t.dirs[x])), leaf) ==> Lookup(Slots(g, d', t.dirs[x]), leaf).None?)
  }

  // ---- making a directory

  lemma NoCache(g: Geo, d: Disk, t: Tree, lba: nat, sec: Sector, ch: seq<nat>)
    requires g.Ok() && ChainsIn(g, t)
    ensures Coherent(g, d, false, lba, sec, t)
    ensures ChainIn(g, ch) ==> CacheFor(g, d, false, lba, sec, ch)
  {
  }

  lemma OneSec(g: Geo, c: nat, n: nat)
    requires g.Ok() && Clus(g, c) && n < g.spc
    ensures ChainIn(g, [c]) && n < Secs(g, [c]) && SecLba(g, [c], n) == DataLba(g, c, n) && Secs(g, [c]) == g.spc
  {
    assert n / g.spc == 0 && n % g.spc == n by { DivInside(0, n, g.spc); }
  }

  lemma ZeroSlots(g: Geo, d: Disk, c: nat)
    requires g.Fits(d) && Clus(g, c)
    requires forall k {:trigger DataLba(g, c, k)} ::
             0 <= k < g.spc ==> DataLba(g, c, k) < |d| && d[DataLba(g, c, k)] == Chunk([], 0 * g.spc + k)
    ensures ChainIn(g, [c]) && |Slots(g, d, [c])| == g.spc * SLOTS_PER_SEC
            && forall i :: 0 <= i < |Slots(g, d, [c])| ==> Slots(g, d, [c])[i][0] == 0
  {
    hide DataLba, Slots, Secs, SecLba;
    OneSec(g, c, 0);
    forall i | 0 <= i < |Slots(g, d, [c])| ensures Slots(g, d, [c])[i][0] == 0 {
      SlotsLen(g, d, [c], i);
      SlotsAt(g, d, [c], i);
      OneSec(g, c, i / SLOTS_PER_SEC);
    }
  }

  /** A slot of a directory nothing points at yet. */
  lemma PutOwn(g: Geo, d: Disk, t: Tree, c: nat, i: nat, e: Slot)
    requires SafeWith(g, d, t) && g.Fits(d) && Clus(g, c) && !Owned(t, c) && i < SLOTS_PER_SEC
    ensures ChainIn(g, [c]) && i / SLOTS_PER_SEC < Secs(g, [c]) && SecLba(g, [c], i / SLOTS_PER_SEC) < |d|
            && i < |Slots(g, d, [c])|
    ensures var d' := PutSlot(g, d, [c], i, e);
            && SafeWith(g, d', t) && OnlyCluster(g, d, d', c) && g.Fits(d')
            && Table(g, d', 0) == Table(g, d, 0) && Slots(g, d', [c]) == Slots(g, d, [c])[i := e]
  {
    hide SafeWith, Owned, Slots, SecLba, Secs, DataLba, SlotSet, Table, OnlyCluster, PutSlot;
    OneSec(g, c, 0);
    SlotIdx(g, d, [c], i);
    DataPlace(g, d, c, 0);
    PutOwnIs(g, d, c, i, e);
    SafeDataWrite(g, d, t, c, 0, SlotSet(d[DataLba(g, c, 0)], i % SLOTS_PER_SEC, e));
    OnlyOne(g, d, c, SlotSet(d[DataLba(g, c, 0)], i % SLOTS_PER_SEC, e));
    PutSlotHere(g, d, [c], i, e);
    OnlyTable(g, d, PutSlot(g, d, [c], i, e), c, 0);
  }

  lemma PutOwnIs(g: Geo, d: Disk, c: nat, i: nat, e: Slot)
    requires g.Fits(d) && Clus(g, c) && i < SLOTS_PER_SEC && ChainIn(g, [c]) && 0 < Secs(g, [c])
             && SecLba(g, [c], 0) == DataLba(g, c, 0) < |d|
    ensures i / SLOTS_PER_SEC == 0
            && PutSlot(g, d, [c], i, e) == d[DataLba(g, c, 0) := SlotSet(d[DataLba(g, c, 0)], i % SLOTS_PER_SEC, e)]
  {
    hide SecLba, Secs, DataLba, SlotSet;
  }

  lemma OnlyOne(g: Geo, d: Disk, c: nat, s: Sector)
    requires g.Ok() && 2 <= c && DataLba(g, c, 0) < |d|
    ensures OnlyCluster(g, d, d[DataLba(g, c, 0) := s], c)
  {
    hide DataLba, InCluster;
    InClusterAt(g, c, 0);
  }

  lemma OnlyTwice(g: Geo, d: Disk, d1: Disk, d2: Disk, c: nat)
    requires 2 <= c && OnlyCluster(g, d, d1, c) && OnlyCluster(g, d1, d2, c)
    ensures OnlyCluster(g, d, d2, c)
  {
  }

  /** Two entries in a cleared cluster make a directory with nothing in it. */
  lemma BareIs(z: seq<Slot>, c: nat, dir: nat, e: Slot, e': Slot)
    requires |z| >= 2 && forall i :: 0 <= i < |z| ==> z[i][0] == 0
    requires e[..11] == DOT1 && e[0] == DOT1[0] && e[11] == 0x10 && First(e) == c && e'[..11] == DOT2
             && e'[0] == DOT2[0] && e'[11] == 0x10 && First(e') == dir
    ensures BareDir(z[0 := e][1 := e'], c, dir) && Tidy(z[0 := e][1 := e'])
  {
    hide First, ItemsFrom;
    var s := z[0 := e][1 := e'];
    EndIs(s, 0, 2);
    assert StTo(s, 0).NoChain?;
    After1(s, 0);
    After1(s, 1);
    forall y | y in Listing(s) ensures y.idx < 2 { ListedIs(s, y); }
  }

  lemma CountAny(tab: seq<nat>, c: nat)
    requires c != 0 ==> 2 <= c < |tab| && tab[c] == FAT_FREE
    requires forall b :: 2 <= b < (if c == 0 then |tab| else c) ==> tab[b] != FAT_FREE
    ensures FreeCount(tab, 2) == 0 <==> c == 0
  {
    if c == 0 { if 2 <= |tab| { CountSkip(tab, 2, |tab|); } } else { CountSkip(tab, 2, c); }
  }

  lemma FreeClus(g: Geo, d: Disk, t: Tree, c: nat)
    requires Full(g, d, t) && g.Fits(d) && Clus(g, c) && Table(g, d, 0)[c] == FAT_FREE
    ensures !Owned(t, c)
  {
  }

  lemma DirLow(g: Geo, d: Disk, t: Tree, x: nat)
    requires SafeWith(g, d, t) && x in t.dirs
    ensures x < 0x10000
  {
    DirFacts(g, d, t, x);
    assert x != 0 ==> Clus(g, t.dirs[x][0]);
  }

  lemma OneChain(g: Geo, d: Disk, d': Disk, c: nat)
    requires g.Fits(d) && g.Fits(d') && Clus(g, c) && Linked(Table(g, d, 0), Table(g, d, 0)[c := FAT_EOC], [c])
    requires forall f {:trigger Table(g, d', f)} :: 0 <= f < g.nfats ==> Table(g, d', f) == Table(g, d, f)[c := FAT_EOC]
    ensures IsChain(Table(g, d', 0), [c])
  {
    assert Table(g, d', 0) == Table(g, d, 0)[c := FAT_EOC];
  }

  lemma FreshOne(t: Tree, c: nat)
    requires !Owned(t, c)
    ensures Fresh(t, [c])
  {
  }

  /** d1: the cluster marked; d2: the cluster filled. */
  lemma OneKept(g: Geo, d0: Disk, d1: Disk, d2: Disk, t: Tree, c: nat)
    requires SafeWith(g, d0, t) && g.Fits(d0) && g.Fits(d1) && ChainsIn(g, t) && Clus(g, c) && !Owned(t, c)
             && DataKept(g, d0, d1) && OnlyCluster(g, d1, d2, c)
    requires forall f {:trigger Table(g, d1, f)} ::
             0 <= f < g.nfats ==> Table(g, d1, f) == Table(g, d0, f)[c := FAT_EOC]
    requires IsChain(Table(g, d1, 0), [c])
    ensures g.Fits(d2) && SlotsKept(g, d0, d2, t) && IsChain(Table(g, d2, 0), [c])
    ensures forall x :: x in t.dirs ==> Slots(g, d2, t.dirs[x]) == Slots(g, d0, t.dirs[x])
    ensures forall f {:trigger Table(g, d2, f)} :: 0 <= f < g.nfats ==> Table(g, d2, f) == Table(g, d0, f)[c := FAT_EOC]
  {
    hide Slots, Table, IsChain, Owned, DataKept, OnlyCluster, OnDisk, Shape;
    OnlyTable(g, d1, d2, c, 0);
    forall f | 0 <= f < g.nfats ensures Table(g, d2, f) == Table(g, d0, f)[c := FAT_EOC] {
      OnlyTable(g, d1, d2, c, f);
      assert Table(g, d1, f) == Table(g, d0, f)[c := FAT_EOC];
    }
    forall y | y in t.dirs ensures Slots(g, d2, t.dirs[y]) == Slots(g, d0, t.dirs[y]) {
      DirLacks(t, y, c);
      KeptChain(g, d0, d1, t.dirs[y]);
      OnlyKept(g, d1, d2, c, t.dirs[y]);
    }
  }

  lemma OneUndone(g: Geo, d0: Disk, d2: Disk, d3: Disk, t: Tree, c: nat)
    requires g.Fits(d0) && g.Fits(d2) && g.Fits(d3) && ChainsIn(g, t) && Clus(g, c) && SlotsKept(g, d0, d2, t)
             && DataKept(g, d2, d3)
    requires Full(g, d0, t) && Table(g, d0, 0)[c] == FAT_FREE
    requires forall f {:trigger Table(g, d2, f)} ::
             0 <= f < g.nfats ==> Table(g, d2, f) == Table(g, d0, f)[c := FAT_EOC]
    requires forall f {:trigger Table(g, d3, f)} ::
             0 <= f < g.nfats ==> Table(g, d3, f) == Table(g, d2, f)[c := FAT_FREE]
    ensures SlotsKept(g, d0, d3, t) && SameTables(g, d0, d3)
  {
    hide Slots, Table, DataKept, SafeWith, Tidy, Exact, Sized;
    forall f | 0 <= f < g.nfats ensures Table(g, d3, f) == Table(g, d0, f) {
      assert Table(g, d2, f) == Table(g, d0, f)[c := FAT_EOC] && Table(g, d0, f) == Table(g, d0, 0);
      assert Table(g, d0, f)[c := FAT_EOC][c := FAT_FREE] == Table(g, d0, f);
    }
    forall y | y in t.dirs ensures Slots(g, d3, t.dirs[y]) == Slots(g, d0, t.dirs[y]) {
      KeptChain(g, d2, d3, t.dirs[y]);
    }
  }

  /** When fat16_mkdir says -1: the name is taken, or there is no cluster, or no room for
      the name. */
  ghost predicate NoMkdir(g: Geo, d: Disk, t: Tree, x: nat, leaf: seq<byte>)
    requires g.Fits(d) && ChainsIn(g, t) && x in t.dirs
  {
    var s := Slots(g, d, t.dirs[x]);
    Lookup(s, leaf).Some? || FreeCount(Table(g, d, 0), 2) == 0 || EntryUnits(leaf).None?
        || NoRun(s, LongCount(EntryUnits(leaf).value) + 1)
  }

  /** When it succeeds: entry k, which leaf now leads to, is an empty directory on a
      cluster that was free; everything else is what it was. */
  ghost predicate MadeDir(g: Geo, d: Disk, t: Tree, d': Disk, t': Tree, x: nat, leaf: seq<byte>, k: Key)
    requires g.Fits(d) && ChainsIn(g, t) && x in t.dirs && |leaf| < NAME_MAX
  {
    && k.0 == x && k !in t.ents && k in t'.ents && x in t.depth && |t'.ents[k].chain| == 1
    && t' == AddDir(t, k, t'.ents[k])
    && IsDir(t'.ents[k].slot) && g.Fits(d') && DirsKept(g, d, d', t, x)
    && Clus(g, t'.ents[k].chain[0]) && t'.ents[k].chain[0] !in t.dirs && Table(g, d, 0)[t'.ents[k].chain[0]] == FAT_FREE
    && Empty(t', t'.ents[k].chain[0])
    && Lookup(Slots(g, d, t.dirs[x]), leaf).None?
    && NameEntered(Slots(g, d, t.dirs[x]), Slots(g, d', t.dirs[x]), x, leaf, k.1)
    && ChainIn(g, t'.ents[k].chain) && BareDir(Slots(g, d', t'.ents[k].chain), t'.ents[k].chain[0], x)
  }

  lemma MadeDirIs(g: Geo, d0: Disk, d2: Disk, d3: Disk, t: Tree, t': Tree, x: nat, leaf: seq<byte>, c: nat, slot: nat,
      start: nat)
    requires Full(g, d0, t) && g.Fits(d0) && g.Fits(d2) && ChainsIn(g, t) && SlotsKept(g, d0, d2, t) && x in t.dirs
             && Clus(g, c) && ChainIn(g, [c]) && !Owned(t, c)
    requires forall f {:trigger Table(g, d2, f)} ::
             0 <= f < g.nfats ==> Table(g, d2, f) == Table(g, d0, f)[c := FAT_EOC]
    requires Table(g, d0, 0)[c] == FAT_FREE && c < 0x10000 && NoZero(leaf) && leaf != [] && |leaf| < NAME_MAX
             && Lookup(Slots(g, d0, t.dirs[x]), leaf).None?
    requires Created(g, d2, t, d3, t', x, leaf, true, c, 0, [c], slot, start) && SafeWith(g, d3, t')
             && Tidy(Slots(g, d2, [c])) && BareDir(Slots(g, d2, [c]), c, x)
    ensures Full(g, d3, t') && MadeDir(g, d0, t, d3, t', x, leaf, (x, slot))
    ensures EntryUnits(leaf).Some? && !NoRun(Slots(g, d0, t.dirs[x]), LongCount(EntryUnits(leaf).value) + 1)
  {
    hide Full, Slots, Lookup, NamesKept, NewEntry, Size, First, Table, Tidy, WellNamed, SafeWith, Body, Free, Listing,
        ShortName, IsDir, EntryUnits, Text, EntrySlots, Placed, NoRun, LongCount, Elsewhere, Empty, Owned, BareDir,
        NameEntered;
    assert Slots(g, d2, t.dirs[x]) == Slots(g, d0, t.dirs[x]);
    FullTidy(g, d0, t, x);
    CreatedTidy(g, d2, t, d3, t', x, leaf, true, c, 0, [c], slot, start);
    var sh := NewEntry(ShortName(Listing(Slots(g, d2, t.dirs[x])), leaf), 0x10, c, 0);
    FullSafe(g, d0, t);
    TreeFits(g, d0, t);
    FreeNobody(g, d0, t, x, slot);
    FreshOne(t, c);
    FreshDir(t, [c]);
    FullMkdir(g, d0, d2, d3, t, x, slot, sh, c);
    NewEmpty(t, (x, slot), Entry(sh, [c], []));
    ElsewhereDirs(g, d2, d3, t, x, [c]);
    ElsewhereChain(g, d2, d3, t, x, [c]);
    RunThere(Slots(g, d2, t.dirs[x]), start, LongCount(EntryUnits(leaf).value) + 1);
  }

  lemma NewEmpty(t: Tree, k: Key, en: Entry)
    requires Shape(t) && k.0 in t.depth && k.0 in t.dirs && en.chain != [] && en.chain[0] !in t.dirs
    ensures Empty(AddDir(t, k, en), en.chain[0])
  {
    forall q | q in t.ents ensures q.0 in t.dirs { assert EntShape(t, q); }
  }

  class Volume {
    const g: Geo
    var disk: Disk
    var cacheOk: bool
    var cacheLba: nat
    var cache: Sector
    ghost var tree: Tree
    ghost var log: seq<Image>

    /** fat16_init on a volume that describes t. */
    constructor (d: Disk, ghost t: Tree)
      requires 0 < |d| && BootGeo(d[0]).Some? && Full(BootGeo(d[0]).value, d, t)
      ensures Valid() && disk == d && tree == t && log == [] && Some(g) == BootGeo(d[0])
    {
      g := BootGeo(d[0]).value;
      disk, cacheOk, cacheLba, cache := d, false, 0, d[0];
      tree, log := t, [];
    }

    /** What holds at every moment, also in the middle of an operation. */
    ghost predicate Steady()
      reads this
    {
      SafeWith(g, disk, tree) && LogOk(g, log) && Coherent(g, disk, cacheOk, cacheLba, cache, tree)
    }

    /** What holds between operations. */
    ghost predicate Valid()
      reads this
    {
      Steady() && Full(g, disk, tree)
    }

    /** blk_write; nothing else changes the disk. */
    method BlkWrite(lba: nat, s: Sector, ghost t: Tree)
      requires lba < |disk|
      modifies this`disk, this`log
      ensures disk == old(disk)[lba := s] && Grew(old(log), log, {t})
      ensures old(LogOk(g, log)) && SafeWith(g, disk, t) ==> LogOk(g, log)
    {
      hide SafeWith;
      disk := disk[lba := s];
      log := log + [Image(disk, t)];
    }

    method FatNext(c: nat) returns (v: nat)
      requires g.Fits(disk) && c < g.Count()
      ensures v == Table(g, disk, 0)[c] && v < 0x10000
    {
      TableAt(g, disk, 0, c);
      v := FatAt(g, disk, 0, c);
    }

    /** fat_set: every copy of the entry, one after the other. */
    method FatSet(c: nat, v: nat, ghost t: Tree)
      requires g.Fits(disk) && Clus(g, c) && v < 0x10000
      modifies this`disk, this`log
      ensures g.Fits(disk) && Grew(old(log), log, {t}) && DataKept(g, old(disk), disk)
      ensures forall f {:trigger Table(g, disk, f)} :: 0 <= f < g.nfats ==>
                Table(g, disk, f) == Table(g, old(disk), f)[c := v]
      ensures old(SafeWith(g, disk, t) && LogOk(g, log)) && !Owned(t, c) ==> SafeWith(g, disk, t) && LogOk(g, log)
    {
      hide SafeWith, LogOk, PutFat, Table, Owned, FatLba;
      ghost var d0, l0 := disk, log;
      ghost var safe := SafeWith(g, disk, t) && LogOk(g, log) && !Owned(t, c);
      for f := 0 to g.nfats
        invariant g.Fits(disk) && Grew(l0, log, {t}) && DataKept(g, d0, disk)
        invariant safe ==> SafeWith(g, disk, t) && LogOk(g, log)
        invariant forall f' {:trigger Table(g, disk, f')} :: 0 <= f' < g.nfats ==>
                    Table(g, disk, f') == if f' < f then Table(g, d0, f')[c := v] else Table(g, d0, f')
      {
        ghost var d1, l1 := disk, log;
        FatIn(g, disk, f, c);
        if safe { SafeFatWrite(g, disk, t, f, c, v); }
        PutFatIs(g, disk, f, c, v);
        var lba := FatLba(g, f, c / 256);
        forall f' | 0 <= f' < g.nfats
          ensures Table(g, PutFat(g, d1, f, c, v), f') == if f == f' then Table(g, d1, f)[c := v] else Table(g, d1, f')
        {
          TablePut(g, d1, f, c, v, f');
        }
        BlkWrite(lba, FatSector(g, disk, f, c, v), t);
        GrewThrough(l0, l1, log, {t}, {t});
        assert {t} + {t} == {t};
      }
    }

    /** The first free cluster at or after from, or 0. */
    method FatAllocFrom(from: nat) returns (c: nat)
      requires g.Fits(disk)
      ensures c != 0 ==> Clus(g, c) && from <= c && Table(g, disk, 0)[c] == FAT_FREE
      ensures forall b :: from <= b && 2 <= b < (if c == 0 then g.Count() else c) ==> Table(g, disk, 0)[b] != FAT_FREE
    {
      c := if from < 2 then 2 else from;
      while c < g.Count()
        invariant 2 <= c && from <= c
        invariant forall b :: from <= b && 2 <= b < c && b < g.Count() ==> Table(g, disk, 0)[b] != FAT_FREE
      {
        var v := FatNext(c);
        if v == FAT_FREE { return; }
        c := c + 1;
      }
      c := 0;
    }

    /** fat_free_chain: every cluster of the chain is free again, and nothing else. */
    method FatFreeChain(first: nat, ghost ch: seq<nat>, ghost t: Tree)
      requires g.Fits(disk) && IsChain(Table(g, disk, 0), ch) && Distinct(ch) && first == Head(ch)
      modifies this`disk, this`log
      ensures g.Fits(disk) && Grew(old(log), log, {t}) && DataKept(g, old(disk), disk)
      ensures forall f {:trigger Table(g, disk, f)} :: 0 <= f < g.nfats ==>
                Table(g, disk, f) == FreedTab(Table(g, old(disk), f), ch)
      ensures old(SafeWith(g, disk, t) && LogOk(g, log)) && (forall c :: c in ch ==> !Owned(t, c)) ==>
                SafeWith(g, disk, t) && LogOk(g, log)
    {
      hide SafeWith, LogOk, Table, Owned, FreedTab, IsChain, Distinct, LinkOk;
      ghost var d0, l0 := disk, log;
      ghost var safe := SafeWith(g, disk, t) && LogOk(g, log) && forall c :: c in ch ==> !Owned(t, c);
      ghost var j := 0;
      var clus := first;
      forall f | 0 <= f < g.nfats ensures FreedTab(Table(g, d0, f), ch[..0]) == Table(g, d0, f) {
        FreedAll(Table(g, d0, f), ch);
      }
      if ch != [] { ChainStart(Table(g, disk, 0), ch); }
      while InChain(clus)
        invariant g.Fits(disk) && Grew(l0, log, {t}) && DataKept(g, d0, disk) && j <= |ch|
        invariant safe ==> SafeWith(g, disk, t) && LogOk(g, log)
        invariant if j < |ch| then clus == ch[j] else !InChain(clus)
        invariant j < |ch| ==> InChain(ch[j])
        invariant forall f {:trigger Table(g, disk, f)} ::
                  0 <= f < g.nfats ==> Table(g, disk, f) == FreedTab(Table(g, d0, f), ch[..j])
        decreases |ch| - j
      {
        ghost var d1, l1 := disk, log;
        assert Table(g, disk, 0) == FreedTab(Table(g, d0, 0), ch[..j]);
        ChainNext(Table(g, d0, 0), ch, j);
        FreedRest(Table(g, d0, 0), ch, j);
        var next := FatNext(clus);
        assert ch[j] in ch;
        FatSet(clus, FAT_FREE, t);
        GrewThrough(l0, l1, log, {t}, {t});
        assert {t} + {t} == {t};
        forall f | 0 <= f < g.nfats ensures Table(g, disk, f) == FreedTab(Table(g, d0, f), ch[..j + 1]) {
          FreedStep(Table(g, d0, f), ch, j);
          assert Table(g, d1, f) == FreedTab(Table(g, d0, f), ch[..j]);
        }
        clus, j := next, j + 1;
      }
      forall f | 0 <= f < g.nfats ensures Table(g, disk, f) == FreedTab(Table(g, d0, f), ch) {
        FreedAll(Table(g, d0, f), ch);
      }
    }

    // ---- directory slots through the cache

    /** The cluster skip links down a chain. */
    method Follow(dir: nat, skip: nat, ghost ch: seq<nat>) returns (c: nat)
      requires g.Fits(disk) && IsChain(Table(g, disk, 0), ch) && ch != [] && dir == ch[0]
      ensures if skip < |ch| then c == ch[skip] else !InChain(c)
    {
      hide IsChain, Table, FatAt;
      c := dir;
      for j := 0 to skip
        invariant j < |ch| && c == ch[j]
      {
        ChainNext(Table(g, disk, 0), ch, j);
        c := FatNext(c);
        if !InChain(c) { return; }
      }
    }

    /** dir_sector: the chain of a directory is followed afresh for every sector. */
    method DirSector(dir: nat, n: nat, ghost ch: seq<nat>) returns (ok: bool, lba: nat)
      requires g.Fits(disk) && ChainIn(g, ch) && IsChain(Table(g, disk, 0), ch) && dir == Head(ch)
      ensures ok <==> n < Secs(g, ch)
      ensures ok ==> lba == SecLba(g, ch, n)
    {
      hide IsChain, Table, FatAt, SecLba, DataLba, Secs;
      if dir == 0 {
        RootChain(g, ch);
        RootSecs(g);
        if n >= g.RootSectors() { return false, 0; }
        RootLba(g, n);
        return true, g.RootStart() + n;
      }
      var skip := n / g.spc;
      var c := Follow(dir, skip, ch);
      if !InChain(c) {
        SecsPast(g, ch, n);
        return false, 0;
      }
      SecsWithin(g, ch, n);
      ok, lba := true, DataLba(g, c, n % g.spc);
    }

    method SlotPtr(dir: nat, i: nat, ghost ch: seq<nat>) returns (ok: bool, e: Slot)
      requires g.Fits(disk) && ChainIn(g, ch) && IsChain(Table(g, disk, 0), ch) && dir == Head(ch)
      requires CacheFor(g, disk, cacheOk, cacheLba, cache, ch)
      modifies this`cacheOk, this`cacheLba, this`cache
      ensures ok <==> i < |Slots(g, disk, ch)|
      ensures ok ==>
              e == Slots(g, disk, ch)[i] && i / SLOTS_PER_SEC < Secs(g, ch)
              && cacheLba == SecLba(g, ch, i / SLOTS_PER_SEC)
      ensures ok ==> cacheOk && g.RootStart() <= cacheLba < |disk| && cache == disk[cacheLba]
      ensures !ok ==> cacheOk == old(cacheOk) && cacheLba == old(cacheLba) && cache == old(cache)
    {
      hide IsChain, Table, SlotIn, SecLba, Secs;
      var lba;
      SlotIdx(g, disk, ch, i);
      ok, lba := DirSector(dir, i / SLOTS_PER_SEC, ch);
      if !ok { e := cache[..32]; return; }
      SecPlace(g, disk, ch, i / SLOTS_PER_SEC);
      if !cacheOk || cacheLba != lba {
        cacheOk, cacheLba, cache := true, lba, disk[lba];
      }
      e := SlotIn(cache, i % SLOTS_PER_SEC);
      SlotsAt(g, disk, ch, i);
    }

    method SlotPut(dir: nat, i: nat, e: Slot, ghost ch: seq<nat>, ghost t: Tree) returns (ok: bool)
      requires g.Fits(disk) && ChainIn(g, ch) && IsChain(Table(g, disk, 0), ch) && dir == Head(ch)
      requires CacheFor(g, disk, cacheOk, cacheLba, cache, ch)
      modifies this`disk, this`log, this`cacheOk, this`cacheLba, this`cache
      ensures ok <==> i < |Slots(g, old(disk), ch)|
      ensures ok ==>
              i / SLOTS_PER_SEC < Secs(g, ch) && SecLba(g, ch, i / SLOTS_PER_SEC) < |old(disk)|
              && disk == PutSlot(g, old(disk), ch, i, e)
      ensures ok ==>
              cacheOk && g.RootStart() <= cacheLba < |disk| && cache == disk[cacheLba] && Grew(old(log), log, {t})
      ensures ok && old(LogOk(g, log)) && SafeWith(g, disk, t) ==> LogOk(g, log)
      ensures !ok ==> disk == old(disk) && log == old(log)
    {
      hide IsChain, Table, SlotIn, SlotSet, SecLba, Secs, SafeWith, LogOk, Slots, Misses;
      var was;
      ok, was := SlotPtr(dir, i, ch);
      if !ok { return; }
      cache := SlotSet(cache, i % SLOTS_PER_SEC, e);
      BlkWrite(cacheLba, cache, t);
    }

    // ---- scanning

    /** dscan_next from slot i. */
    method ScanNext(dir: nat, i: nat, st: Chain, ghost ch: seq<nat>) returns (item: Option<Item>)
      requires g.Fits(disk) && ChainIn(g, ch) && IsChain(Table(g, disk, 0), ch) && dir == Head(ch)
      requires CacheFor(g, disk, cacheOk, cacheLba, cache, ch)
      requires i <= EndOf(Slots(g, disk, ch)) && st == StTo(Slots(g, disk, ch), i)
      modifies this`cacheOk, this`cacheLba, this`cache
      ensures CacheFor(g, disk, cacheOk, cacheLba, cache, ch)
              && KeptCache(g, disk, old(cacheOk), old(cacheLba), old(cache), cacheOk, cacheLba, cache)
      ensures var s := Slots(g, disk, ch);
              if item.None? then ItemsFrom(s, i, EndOf(s)) == []
              else var k := item.value.idx;
                   i <= k < EndOf(s) && ItemsFrom(s, i, k + 1) == [item.value] && StTo(s, k + 1).NoChain?
    {
      hide IsChain, Table, Slots, ItemAt, StepLong, Misses;
      ghost var s := Slots(g, disk, ch);
      var k, cur := i, st;
      while true
        invariant i <= k <= EndOf(s) && cur == StTo(s, k) && ItemsFrom(s, i, k) == []
        invariant CacheFor(g, disk, cacheOk, cacheLba, cache, ch)
                  && KeptCache(g, disk, old(cacheOk), old(cacheLba), old(cache), cacheOk, cacheLba, cache)
        decreases |s| - k
      {
        var ok, d := SlotPtr(dir, k, ch);
        if !ok || d[0] == 0x00 {
          assert k == EndOf(s);
          return None;
        }
        assert k < EndOf(s);
        if d[0] == 0xE5 {
          cur := NoChain;
        } else if IsLong(d) {
          cur := StepLong(cur, k, d);
        } else if IsLabel(d) {
          cur := NoChain;
        } else {
          var name := NameFor(cur, d);
          item := Some(Item(k, if cur.Chain? then cur.first else k, name, d));
          ItemIs(s, k);
          return;
        }
        k := k + 1;
      }
    }

    /** dir_lookup. */
    method DirLookup(dir: nat, name: seq<byte>) returns (r: Option<Item>)
      requires Steady() && dir in tree.dirs
      modifies this`cacheOk, this`cacheLba, this`cache
      ensures Steady() && ChainIn(g, tree.dirs[dir])
      ensures r == Lookup(Slots(g, disk, tree.dirs[dir]), name)
    {
      hide IsChain, Table, Slots, ItemsFrom, StTo, Misses, LogOk, SafeWith, CacheFor, Coherent, KeptCache;
      CacheReady(g, disk, tree, dir, cacheOk, cacheLba, cache);
      ghost var ch := tree.dirs[dir];
      ghost var s := Slots(g, disk, ch);
      var i := 0;
      NoItems(s);
      KeptNone(g, disk, cacheOk, cacheLba, cache);
      while true
        invariant i <= EndOf(s) && StTo(s, i).NoChain? && Find(ItemsFrom(s, 0, i), name).None?
        invariant CacheFor(g, disk, cacheOk, cacheLba, cache, ch)
                  && KeptCache(g, disk, old(cacheOk), old(cacheLba), old(cache), cacheOk, cacheLba, cache)
        decreases EndOf(s) - i
      {
        ghost var c1 := (cacheOk, cacheLba, cache);
        var x := ScanNext(dir, i, NoChain, ch);
        KeptTwice(g, disk, old(cacheOk), old(cacheLba), old(cache), c1.0, c1.1, c1.2, cacheOk, cacheLba, cache);
        CacheStill(g, disk, tree, old(cacheOk), old(cacheLba), old(cache), cacheOk, cacheLba, cache);
        if x.None? {
          FindSplit(s, i, EndOf(s), name);
          return None;
        }
        FindSplit(s, i, x.value.idx + 1, name);
        FindSplit(s, x.value.idx + 1, EndOf(s), name);
        if Upper(x.value.name) == Upper(name) { return x; }
        i := x.value.idx + 1;
      }
    }

    /** Is some entry of the directory already called n11? */
    method Taken(dir: nat, n11: seq<byte>) returns (r: bool)
      requires Steady() && dir in tree.dirs
      modifies this`cacheOk, this`cacheLba, this`cache
      ensures Steady() && ChainIn(g, tree.dirs[dir])
      ensures r == Clashes(Listing(Slots(g, disk, tree.dirs[dir])), n11)
    {
      hide IsChain, Table, Slots, ItemsFrom, StTo, Misses, LogOk, SafeWith, CacheFor, Coherent, KeptCache;
      CacheReady(g, disk, tree, dir, cacheOk, cacheLba, cache);
      ghost var ch := tree.dirs[dir];
      ghost var s := Slots(g, disk, ch);
      var i := 0;
      NoItems(s);
      KeptNone(g, disk, cacheOk, cacheLba, cache);
      while true
        invariant i <= EndOf(s) && StTo(s, i).NoChain? && !Clashes(ItemsFrom(s, 0, i), n11)
        invariant CacheFor(g, disk, cacheOk, cacheLba, cache, ch)
                  && KeptCache(g, disk, old(cacheOk), old(cacheLba), old(cache), cacheOk, cacheLba, cache)
        decreases EndOf(s) - i
      {
        ghost var c1 := (cacheOk, cacheLba, cache);
        var x := ScanNext(dir, i, NoChain, ch);
        KeptTwice(g, disk, old(cacheOk), old(cacheLba), old(cache), c1.0, c1.1, c1.2, cacheOk, cacheLba, cache);
        CacheStill(g, disk, tree, old(cacheOk), old(cacheLba), old(cache), cacheOk, cacheLba, cache);
        if x.None? {
          ClashSplit(s, i, EndOf(s), n11);
          return false;
        }
        ClashSplit(s, i, x.value.idx + 1, n11);
        ClashSplit(s, x.value.idx + 1, EndOf(s), n11);
        ClashOne(x.value, n11);
        if x.value.ent[..11] == n11 { return true; }
        i := x.value.idx + 1;
      }
    }

    method ShortNameFor(dir: nat, name: seq<byte>) returns (n11: seq<byte>)
      requires Steady() && dir in tree.dirs
      modifies this`cacheOk, this`cacheLba, this`cache
      ensures Steady() && ChainIn(g, tree.dirs[dir])
      ensures n11 == ShortFrom(Listing(Slots(g, disk, tree.dirs[dir])), name, 1)
    {
      hide Slots, Listing, Clashes, Candidate, Coherent, SafeWith, LogOk;
      TreeFits(g, disk, tree);
      assert ChainIn(g, tree.dirs[dir]);
      ghost var items := Listing(Slots(g, disk, tree.dirs[dir]));
      n11 := Candidate(name, 1);
      for n := 1 to 100
        invariant Steady() && ChainIn(g, tree.dirs[dir])
        invariant n <= 99 ==> ShortFrom(items, name, n) == ShortFrom(items, name, 1)
        invariant n == 100 ==> n11 == ShortFrom(items, name, 1)
      {
        n11 := Candidate(name, n);
        var clash := Taken(dir, n11);
        if !clash { return; }
      }
    }

    /** dir_run: the first slot of count free ones in a row. */
    method DirRun(dir: nat, count: nat) returns (ok: bool, start: nat)
      requires Steady() && dir in tree.dirs && count > 0
      modifies this`cacheOk, this`cacheLba, this`cache
      ensures Steady() && ChainIn(g, tree.dirs[dir])
      ensures ok ==> FreeRun(Slots(g, disk, tree.dirs[dir]), start, count)
      ensures !ok ==> NoRun(Slots(g, disk, tree.dirs[dir]), count)
    {
      hide IsChain, Table, Slots, Misses, LogOk, SafeWith, CacheFor, Coherent;
      CacheReady(g, disk, tree, dir, cacheOk, cacheLba, cache);
      ghost var ch := tree.dirs[dir];
      ghost var s := Slots(g, disk, ch);
      var run, begin, i := 0, 0, 0;
      while true
        invariant Steady() && i <= |s| && run <= i && run < count && (run > 0 ==> begin == i - run)
        invariant forall j :: i - run <= j < i ==> Free(s[j])
        invariant i - run > 0 ==> !Free(s[i - run - 1])
        invariant forall b {:trigger AllFree(s, b, count)} :: 0 <= b && b + count <= i ==> !AllFree(s, b, count)
        decreases |s| - i
      {
        CacheReady(g, disk, tree, dir, cacheOk, cacheLba, cache);
        ghost var c1 := (cacheOk, cacheLba, cache);
        var more, d := SlotPtr(dir, i, ch);
        CacheMoved(g, disk, tree, c1.0, c1.1, c1.2, cacheOk, cacheLba, cache);
        if !more {
          return false, 0;
        }
        if d[0] == 0x00 || d[0] == 0xE5 {
          if run == 0 { begin := i; }
          run := run + 1;
          if run >= count { return true, begin; }
          RunShort(s, i, run, count);
        } else {
          NotAllFree(s, i, count);
          run := 0;
        }
        i := i + 1;
      }
    }

    /** The first lines of dir_create: which long units, and which eleven bytes. */
    method PickName(dir: nat, name: seq<byte>) returns (units: Option<seq<nat>>, n11: seq<byte>)
      requires Steady() && dir in tree.dirs
      modifies this`cacheOk, this`cacheLba, this`cache
      ensures Steady() && ChainIn(g, tree.dirs[dir]) && units == EntryUnits(name) && |n11| == 11
      ensures units.Some? ==> n11 == ShortName(Listing(Slots(g, disk, tree.dirs[dir])), name)
    {
      hide Slots, SafeWith, LogOk, Coherent, Fits83, To83, ShortFrom, Listing, Units;
      TreeFits(g, disk, tree);
      n11 := To83(name);
      if Fits83(name) { return Some([]), n11; }
      units := ToUtf16(name, LFN_MAXUNITS);
      if units.None? || units.value == [] { return None, n11; }
      n11 := ShortNameFor(dir, name);
    }

    /** The loop of dir_create over the long entries. */
    method PlaceLong(dir: nat, start: nat, units: seq<nat>, sh: Slot, ghost ch: seq<nat>)
      requires Steady() && dir in tree.dirs && Text(units) && ChainIn(g, ch) && Fresh(tree, ch)
      requires Filling(Slots(g, disk, tree.dirs[dir]), Slots(g, disk, tree.dirs[dir]), start, EntrySlots(units, sh), 0)
      modifies this`disk, this`log, this`cacheOk, this`cacheLba, this`cache
      ensures Steady() && g.Fits(old(disk)) && ChainsIn(g, tree) && Elsewhere(g, old(disk), disk, tree, dir, ch)
              && Grew(old(log), log, {tree})
      ensures Filling(Slots(g, old(disk), tree.dirs[dir]), Slots(g, disk, tree.dirs[dir]), start,
              EntrySlots(units, sh), LongCount(units))
    {
      hide Slots, Table, IsChain, Fresh, SafeWith, LogOk, Coherent, EntrySlots, Filling, LongSlot, Elsewhere, SecLba,
          Secs, PutSlot, Text, SfnSum, CacheFor;
      TextLong(units);
      TreeFits(g, disk, tree);
      ghost var d0, l0 := disk, log;
      ghost var dch := tree.dirs[dir];
      ghost var s0 := Slots(g, disk, dch);
      ghost var es := EntrySlots(units, sh);
      ElsewhereNone(g, d0, tree, dir, ch);
      var n, sum := LongCount(units), SfnSum(sh[..11]);
      for k := 0 to n
        invariant Steady() && g.Fits(disk) && Elsewhere(g, d0, disk, tree, dir, ch) && Grew(l0, log, {tree})
        invariant Filling(s0, Slots(g, disk, dch), start, es, k)
      {
        var e := LongSlot(units, sum, n, k);
        EntryAt(units, sh, k);
        LongSlotDead(units, sum, n, k);
        ghost var d1, l1 := disk, log;
        FillLong(g, disk, tree, dir, s0, start, es, k, ch);
        CacheReady(g, disk, tree, dir, cacheOk, cacheLba, cache);
        var put := SlotPut(dir, start + k, e, dch, tree);
        TreeFits(g, disk, tree);
        ElsewhereTwice(g, d0, d1, disk, tree, dir, ch);
        GrewThrough(l0, l1, log, {tree}, {tree});
        assert {tree} + {tree} == {tree};
        CacheCurrent(g, disk, tree, cacheOk, cacheLba, cache);
      }
    }

    /** The rest of dir_create, once a free run is found. */
    method PlaceEntry(dir: nat, start: nat, units: seq<nat>, sh: Slot, isDir: bool, ghost ch: seq<nat>)
      requires Steady() && dir in tree.dirs && Text(units) && ChainIn(g, ch) && Fresh(tree, ch) && Short(sh)
      requires Filling(Slots(g, disk, tree.dirs[dir]), Slots(g, disk, tree.dirs[dir]), start, EntrySlots(units, sh), 0)
      requires (IsDir(sh) <==> isDir) && First(sh) == Head(ch) && IsChain(Table(g, disk, 0), ch)
      requires isDir ==> ch != [] && BareDir(Slots(g, disk, ch), ch[0], dir)
      modifies this
      ensures Steady() && g.Fits(old(disk)) && ChainsIn(g, old(tree)) && dir in old(tree).depth && dir in old(tree).dirs
      ensures tree == NextTree(old(tree), (dir, start + LongCount(units)), sh, isDir, ch, Body(g, old(disk), ch))
      ensures Grew(old(log), log, {old(tree), tree}) && Elsewhere(g, old(disk), disk, old(tree), dir, ch)
      ensures start + LongCount(units) + 1 <= |Slots(g, old(disk), old(tree).dirs[dir])|
      ensures Slots(g, disk, old(tree).dirs[dir]) ==
              Placed(Slots(g, old(disk), old(tree).dirs[dir]), start, EntrySlots(units, sh))
    {
      hide Slots, Table, IsChain, Fresh, SafeWith, LogOk, Coherent, EntrySlots, Filling, Elsewhere, SecLba, Secs,
          PutSlot, Text, CacheFor, Body, BareDir, First, IsDir, Short, Placed, NextTree;
      TextLong(units);
      TreeFits(g, disk, tree);
      ghost var d0, t0, l0 := disk, tree, log;
      ghost var dch := tree.dirs[dir];
      ghost var es := EntrySlots(units, sh);
      var n := LongCount(units);
      PlaceLong(dir, start, units, sh, ch);
      CreateLast(g, d0, disk, t0, dir, Slots(g, d0, dch), start, es, sh, isDir, ch);
      ghost var t1 := NextTree(t0, (dir, start + n), sh, isDir, ch, Body(g, d0, ch));
      CacheReady(g, disk, tree, dir, cacheOk, cacheLba, cache);
      ghost var l1 := log;
      var put := SlotPut(dir, start + n, sh, dch, t1);
      GrewThrough(l0, l1, log, {t0}, {t1});
      tree := t1;
      TreeFits(g, disk, tree);
      CacheCurrent(g, disk, tree, cacheOk, cacheLba, cache);
      assert {t0} + {t1} == {t0, t1};
    }

    /** dir_create: the long entries backwards, then the short one. */
    method DirCreate(dir: nat, name: seq<byte>, isDir: bool, first: nat, size: nat, ghost ch: seq<nat>)
        returns (slot: int, ghost start: nat)
      requires Steady() && dir in tree.dirs && Tidy(Slots(g, disk, tree.dirs[dir]))
      requires NoZero(name) && name != [] && |name| < NAME_MAX && first < 0x10000 && size < 0x1_0000_0000
      requires ChainIn(g, ch) && IsChain(Table(g, disk, 0), ch) && Fresh(tree, ch) && first == Head(ch)
      requires isDir ==> ch != [] && BareDir(Slots(g, disk, ch), ch[0], dir)
      modifies this
      ensures Steady() && g.Fits(old(disk)) && ChainsIn(g, old(tree)) && dir in old(tree).dirs
      ensures slot < 0 ==> disk == old(disk) && log == old(log) && tree == old(tree)
      ensures slot < 0 ==>
              EntryUnits(name).None? || NoRun(Slots(g, disk, tree.dirs[dir]), LongCount(EntryUnits(name).value) + 1)
      ensures slot >= 0 ==> Grew(old(log), log, {old(tree), tree})
      ensures slot >= 0 ==> Created(g, old(disk), old(tree), disk, tree, dir, name, isDir, first, size, ch, slot, start)
    {
      hide Slots, Table, IsChain, Fresh, SafeWith, LogOk, Tidy, Coherent, EntrySlots, EntryUnits, BareDir, FreeRun,
          Body, NewEntry, NoRun, First, Size, IsDir, Short, Filling, Elsewhere, Placed, Text, Listing, ShortName,
          NextTree, LongCount;
      TreeFits(g, disk, tree);
      EntryText(name);
      ghost var d0, t0, l0 := disk, tree, log;
      ghost var s0 := Slots(g, disk, tree.dirs[dir]);
      start := 0;
      var units, n11 := PickName(dir, name);
      if units.None? { return -1, start; }
      var ok, begin := DirRun(dir, LongCount(units.value) + 1);
      if !ok { return -1, start; }
      start := begin;
      var sh := NewEntry(n11, if isDir then 0x10 else 0x20, first, size);
      EntryShort(Listing(s0), name, isDir, first, size);
      TextLong(units.value);
      FillStart(s0, begin, EntrySlots(units.value, sh));
      PlaceEntry(dir, begin, units.value, sh, isDir, ch);
      slot := begin + LongCount(units.value);
    }

    /** The inner loop of fat16_write: one cluster of the data, the tail zeroed. */
    method WriteCluster(c: nat, i: nat, data: seq<byte>)
      requires Steady() && Clus(g, c) && !Owned(tree, c)
      modifies this`disk, this`log
      ensures Steady() && Grew(old(log), log, {tree}) && OnlyCluster(g, old(disk), disk, c)
      ensures forall k {:trigger DataLba(g, c, k)} ::
              0 <= k < g.spc ==> DataLba(g, c, k) < |disk| && disk[DataLba(g, c, k)] == Chunk(data, i * g.spc + k)
    {
      hide SafeWith, LogOk, Coherent, Owned, DataLba, InCluster, Chunk;
      ghost var d0, l0 := disk, log;
      var n := i * g.spc;
      for sc := 0 to g.spc
        invariant Steady() && Grew(l0, log, {tree}) && OnlyCluster(g, d0, disk, c)
        invariant forall k {:trigger DataLba(g, c, k)} ::
                  0 <= k < sc ==> DataLba(g, c, k) < |disk| && disk[DataLba(g, c, k)] == Chunk(data, n + k)
      {
        var sector := FillSector(data, n + sc);
        ghost var d1, l1 := disk, log;
        SafeDataWrite(g, disk, tree, c, sc, sector);
        InClusterAt(g, c, sc);
        TreeFits(g, disk, tree);
        CoherentFree(g, disk, tree, c, sc, sector, cacheOk, cacheLba, cache);
        forall k | 0 <= k < sc ensures DataLba(g, c, k) != DataLba(g, c, sc) {
          DataInner(g, c, k, sc);
        }
        var lba := DataLba(g, c, sc);
        BlkWrite(lba, sector, tree);
        GrewThrough(l0, l1, log, {tree}, {tree});
        assert {tree} + {tree} == {tree};
      }
    }

    /** One round of the allocation loop: mark the cluster, link it, fill it. */
    method AddCluster(c: nat, prev: nat, i: nat, data: seq<byte>, ghost d0: Disk, ghost nc: seq<nat>)
      requires Steady() && Full(g, d0, tree) && ChainsIn(g, tree) && Building(g, d0, disk, tree, nc, data)
               && Fresh(tree, nc)
      requires Clus(g, c) && Table(g, disk, 0)[c] == FAT_FREE && prev == Last(nc) && i == |nc|
      modifies this`disk, this`log
      ensures Steady() && Grew(old(log), log, {tree}) && Building(g, d0, disk, tree, nc + [c], data)
              && Fresh(tree, nc + [c])
    {
      hide SafeWith, LogOk, Coherent, Owned, Table, Building, Fresh, OnlyCluster, DataKept, DataLba, Chunk, Slots,
          Linked, Full, TableStep, Shape;
      TreeFits(g, disk, tree);
      FullSafe(g, d0, tree);
      TreeFits(g, d0, tree);
      ghost var d1, l1 := disk, log;
      BuiltFree(g, d0, disk, tree, nc, data, c);
      FatSet(c, FAT_EOC, tree);
      CoherentKept(g, d1, disk, tree, cacheOk, cacheLba, cache);
      TreeFits(g, disk, tree);
      ghost var d2, l2 := disk, log;
      TableOne(g, d1, d2, nc, c);
      if prev != 0 {
        LastIn(g, tree, nc);
        FatSet(prev, c, tree);
        TreeFits(g, disk, tree);
        GrewAgain(l1, l2, log, tree);
        CoherentKept(g, d2, disk, tree, cacheOk, cacheLba, cache);
        TableTwo(g, d1, d2, disk, nc, c);
      }
      LastNone(g, nc);
      ghost var d3, l3 := disk, log;
      WriteCluster(c, i, data);
      GrewAgain(l1, l3, log, tree);
      BuildNext(g, d0, d1, d3, disk, tree, nc, c, data);
      FreshMore(tree, nc, c);
    }

    /** The allocation loop of fat16_write: it succeeds exactly when there is room, and
        when it fails the tables are as they were. */
    method WriteChain(data: seq<byte>, need: nat) returns (ok: bool, first: nat, ghost nc: seq<nat>)
      requires Valid()
      modifies this`disk, this`log
      ensures Steady() && g.Fits(old(disk)) && g.Fits(disk) && ChainsIn(g, tree) && Grew(old(log), log, {tree})
      ensures ok <==> need <= FreeCount(Table(g, old(disk), 0), 2)
      ensures ok ==>
              first == Head(nc) && |nc| == need && Fresh(tree, nc) && Building(g, old(disk), disk, tree, nc, data)
      ensures !ok ==> SlotsKept(g, old(disk), disk, tree) && SameTables(g, old(disk), disk)
    {
      hide SafeWith, LogOk, Coherent, Owned, Table, Building, Fresh, DataKept, FreedTab, IsChain, Distinct, Slots,
          Linked, SlotsKept, Full, Shape, SameTables, FreeCount;
      TreeFits(g, disk, tree);
      ghost var d0, l0 := disk, log;
      ghost var tab0 := Table(g, d0, 0);
      var prev, search := 0, 2;
      first, nc := 0, [];
      BuildStart(g, disk, tree, data);
      FreshNone(tree);
      GrewNone(l0, {tree});
      for i := 0 to need
        invariant Steady() && Grew(l0, log, {tree}) && Building(g, d0, disk, tree, nc, data) && |nc| == i
        invariant g.Fits(disk) && Fresh(tree, nc) && first == Head(nc) && prev == Last(nc)
        invariant Below(nc, search) && FreeCount(tab0, 2) == i + FreeCount(tab0, search) && 2 <= search
      {
        var c := FatAllocFrom(search);
        ghost var d1, l1 := disk, log;
        CountNext(g, d0, disk, tree, nc, data, search, c);
        if c == 0 {
          BuiltChain(g, d0, disk, tree, nc, data);
          FatFreeChain(first, nc, tree);
          TreeFits(g, disk, tree);
          CoherentKept(g, d1, disk, tree, cacheOk, cacheLba, cache);
          GrewAgain(l0, l1, log, tree);
          GiveUp(g, d0, d1, disk, tree, nc, data);
          return false, first, nc;
        }
        AddCluster(c, prev, i, data, d0, nc);
        GrewAgain(l0, l1, log, tree);
        TreeFits(g, disk, tree);
        if prev == 0 { first := c; }
        LastNone(g, nc);
        search, prev := c + 1, c;
        nc := nc + [c];
      }
      ok := true;
    }

    /** The end of fat16_write when the name exists: point the entry at the new chain,
        and only then free the old one. */
    method Repoint(dir: nat, y: Item, first: nat, data: seq<byte>, ghost d0: Disk, ghost nc: seq<nat>)
      requires Steady() && Full(g, d0, tree) && ChainsIn(g, tree) && g.Fits(d0)
               && Building(g, d0, disk, tree, nc, data) && Fresh(tree, nc)
      requires dir in tree.dirs && y in Listing(Slots(g, d0, tree.dirs[dir])) && !IsDir(y.ent)
      requires first == Head(nc) && |nc| == Need(g, |data|) && |data| < 0x8000_0000
      modifies this
      ensures Valid() && Grew(old(log), log, {old(tree), tree}) && dir in old(tree).dirs
              && ChainIn(g, old(tree).dirs[dir])
      ensures first < 0x10000 && tree ==
              SetEnt(old(tree), (dir, y.idx), Entry(Repointed(y.ent, first, |data|), nc, Chunks(data, |nc| * g.spc)))
      ensures y.idx < |Slots(g, d0, old(tree).dirs[dir])|
              && Slots(g, disk, old(tree).dirs[dir]) ==
              Slots(g, d0, old(tree).dirs[dir])[y.idx := Repointed(y.ent, first, |data|)]
      ensures (dir, y.idx) in old(tree).ents && !IsDir(old(tree).ents[(dir, y.idx)].slot)
      ensures g.Fits(disk) && ChainsIn(g, old(tree)) && DirsKept(g, d0, disk, old(tree), dir)
    {
      hide SafeWith, LogOk, Coherent, Owned, Table, Building, Fresh, DataKept, FreedTab, IsChain, Distinct, Slots,
          Full, Shape, First, IsDir, Listing, Need, Repointed, Chunks, SecLba, Secs, PutSlot, CacheFor, Elsewhere;
      TreeFits(g, disk, tree);
      ghost var t0, d1, l1 := tree, disk, log;
      ghost var dch := tree.dirs[dir];
      BuiltChain(g, d0, disk, tree, nc, data);
      BuiltSlots(g, d0, disk, tree, nc, data, dir);
      HeadLow(g, nc);
      var e := Repointed(y.ent, first, |data|);
      RepointSafe(g, disk, tree, dir, y, first, |data|, nc);
      ghost var k, en := (dir, y.idx), Entry(e, nc, Chunks(data, |nc| * g.spc));
      ghost var t1 := SetEnt(tree, k, en);
      CacheReady(g, disk, tree, dir, cacheOk, cacheLba, cache);
      var put := SlotPut(dir, y.idx, e, dch, t1);
      TreeFits(g, disk, t1);
      PutElsewhere(g, d1, t0, dir, y.idx, e, nc);
      ghost var d2, l2 := disk, log;
      var was := First(y.ent);
      ghost var och := t0.ents[k].chain;
      OldChain(g, d1, d2, t0, dir, k, en);
      if was >= 2 {
        FatFreeChain(was, och, t1);
      } else {
        FreedNone(g, disk, och);
        GrewNone(log, {t1});
      }
      TreeFits(g, disk, t1);
      tree := t1;
      CacheCurrent2(g, d2, disk, t1, cacheOk, cacheLba, cache);
      GrewTwo(l1, l2, log, t0, t1);
      UpdateSlots(g, d1, d2, disk, t0, dir, y.idx, e, nc);
      DirsThrough(g, d0, d1, disk, t0, dir, nc, data);
      SizedIs(g, en, |data|, y.ent, first);
      UpdateTables(g, d1, d2, disk, t0, dir, och, nc);
      FullUpdate(g, d0, d1, disk, t0, dir, y, e, nc, data);
    }

    /** The end of fat16_write when the name is new. */
    method Enter(dir: nat, leaf: seq<byte>, first: nat, data: seq<byte>, ghost d0: Disk, ghost nc: seq<nat>)
        returns (ok: bool, ghost i: nat)
      requires Steady() && Full(g, d0, tree) && ChainsIn(g, tree) && g.Fits(d0)
               && Building(g, d0, disk, tree, nc, data) && Fresh(tree, nc)
      requires dir in tree.dirs && NoZero(leaf) && leaf != [] && |leaf| < NAME_MAX
               && Lookup(Slots(g, d0, tree.dirs[dir]), leaf).None?
      requires first == Head(nc) && |nc| == Need(g, |data|) && |data| < 0x8000_0000
      modifies this
      ensures Valid() && Grew(old(log), log, {old(tree), tree}) && dir in old(tree).dirs
              && ChainIn(g, old(tree).dirs[dir])
      ensures !ok ==> tree == old(tree) && SlotsKept(g, d0, disk, tree) && SameTables(g, d0, disk)
      ensures !ok <==>
              EntryUnits(leaf).None? || NoRun(Slots(g, d0, old(tree).dirs[dir]),
              LongCount(EntryUnits(leaf).value) + 1)
      ensures ok ==> Written(g, d0, old(tree), disk, tree, dir, leaf, data, (dir, i))
    {
      hide SafeWith, LogOk, Coherent, Owned, Table, Building, Fresh, DataKept, FreedTab, IsChain, Distinct, Slots,
          Full, Shape, SlotsKept, SameTables, Written, Created, NoRun, EntryUnits, Need, Lookup, LongCount;
      TreeFits(g, disk, tree);
      ghost var t0, d1, l1 := tree, disk, log;
      BuiltChain(g, d0, disk, tree, nc, data);
      BuiltSlots(g, d0, disk, tree, nc, data, dir);
      FullTidy(g, d0, tree, dir);
      HeadLow(g, nc);
      var slot;
      ghost var start;
      slot, start := DirCreate(dir, leaf, false, first, |data|, nc);
      if slot < 0 {
        ghost var d2, l2 := disk, log;
        FatFreeChain(first, nc, tree);
        TreeFits(g, disk, tree);
        CoherentKept(g, d2, disk, tree, cacheOk, cacheLba, cache);
        GiveUp(g, d0, d2, disk, tree, nc, data);
        SameTablesAt(g, d0, disk);
        FullSame(g, d0, tree, disk);
        GrewMore(l1, log, tree);
        return false, 0;
      }
      ok, i := true, slot;
      CreatedFull(g, d0, d1, disk, t0, tree, dir, leaf, first, data, nc, slot, start);
    }

    /** The end of fat16_write: the name led to y, or to nothing. */
    method Commit(dir: nat, leaf: seq<byte>, y: Option<Item>, first: nat, data: seq<byte>, ghost d0: Disk,
        ghost nc: seq<nat>) returns (ok: bool, ghost i: nat)
      requires Steady() && Full(g, d0, tree) && ChainsIn(g, tree) && g.Fits(d0)
               && Building(g, d0, disk, tree, nc, data) && Fresh(tree, nc)
      requires dir in tree.dirs && NoZero(leaf) && leaf != [] && |leaf| < NAME_MAX
      requires y == Lookup(Slots(g, d0, tree.dirs[dir]), leaf) && (y.Some? ==> !IsDir(y.value.ent))
      requires first == Head(nc) && |nc| == Need(g, |data|) && |data| < 0x8000_0000
      modifies this
      ensures Valid() && Grew(old(log), log, {old(tree), tree}) && dir in old(tree).dirs
              && ChainIn(g, old(tree).dirs[dir])
      ensures !ok ==> tree == old(tree) && SlotsKept(g, d0, disk, tree) && SameTables(g, d0, disk)
      ensures !ok <==>
              y.None? && (EntryUnits(leaf).None?
              || NoRun(Slots(g, d0, old(tree).dirs[dir]), LongCount(EntryUnits(leaf).value) + 1))
      ensures ok ==> Written(g, d0, old(tree), disk, tree, dir, leaf, data, (dir, i))
    {
      hide SafeWith, LogOk, Coherent, Table, Building, Fresh, Slots, Full, SlotsKept, SameTables, Written, NoRun,
          EntryUnits, Need, Lookup, IsDir, LongCount, Repointed, Chunks, Grew, Size, First, Tidy, HasData;
      if y.None? {
        ok, i := Enter(dir, leaf, first, data, d0, nc);
        return;
      }
      ghost var t0, s := tree, Slots(g, d0, tree.dirs[dir]);
      LookupIn(s, leaf);
      FullTidy(g, d0, t0, dir);
      Repoint(dir, y.value, first, data, d0, nc);
      ok, i := true, y.value.idx;
      RepointedFields(y.value.ent, first, |data|);
      RepointedFile(y.value.ent, first, |data|);
      HasDataIs(g, Repointed(y.value.ent, first, |data|), nc, data);
      FullSafe(g, disk, tree);
      TreeFits(g, disk, tree);
      RepointWritten(g, d0, t0, disk, dir, leaf, y.value, tree.ents[(dir, i)], data);
    }

    /** fat16_write, the path resolved to a directory and a leaf. */
    method WriteLeaf(dir: nat, leaf: seq<byte>, data: seq<byte>) returns (r: int, ghost k: Key)
      requires Valid() && dir in tree.dirs && NoZero(leaf) && leaf != [] && |leaf| < NAME_MAX && |data| < 0x8000_0000
      modifies this
      ensures Valid() && Grew(old(log), log, {old(tree), tree}) && (r == -1 || r == |data|) && g.Fits(old(disk))
              && ChainsIn(g, old(tree)) && dir in old(tree).dirs
      ensures r == -1 <==> Refused(g, old(disk), old(tree), dir, leaf, |data|)
      ensures r == -1 ==>
              tree == old(tree) && g.Fits(disk) && SlotsKept(g, old(disk), disk, tree)
              && SameTables(g, old(disk), disk)
      ensures r >= 0 ==> Written(g, old(disk), old(tree), disk, tree, dir, leaf, data, k)
    {
      hide SafeWith, LogOk, Coherent, Table, Building, Fresh, Slots, Full, SlotsKept, SameTables, Written, NoRun,
          EntryUnits, Need, Lookup, IsDir, FreeCount, LongCount, Grew;
      k := (dir, 0);
      TreeFits(g, disk, tree);
      ghost var d0, t0, l0 := disk, tree, log;
      KeptSelf(g, disk, tree);
      GrewNone(log, {tree, tree});
      var y := DirLookup(dir, leaf);
      if y.Some? && IsDir(y.value.ent) { return -1, k; }
      var ok, first;
      ghost var nc, i;
      ok, first, nc := WriteChain(data, Need(g, |data|));
      ghost var l1 := log;
      GrewMore(l0, log, tree);
      if !ok {
        SameTablesAt(g, d0, disk);
        FullSame(g, d0, tree, disk);
        return -1, k;
      }
      ok, i := Commit(dir, leaf, y, first, data, d0, nc);
      k := (dir, i);
      GrewJoin(l0, l1, log, t0, tree);
      FullSafe(g, disk, tree);
      TreeFits(g, disk, tree);
      r := if ok then |data| else -1;
    }

    /** The inner loop of fat16_read: one cluster, or as much of it as is wanted. */
    method ReadCluster(c: nat, cap: nat, out: seq<byte>, ghost ch: seq<nat>, ghost j: nat) returns (out': seq<byte>)
      requires g.Fits(disk) && ChainIn(g, ch) && j < |ch| && ch[j] == c && cap <= |ch| * g.spc * SECSZ
      requires ReadTo(Body(g, disk, ch), cap, j * g.spc, out)
      ensures ReadTo(Body(g, disk, ch), cap, j * g.spc + g.spc, out')
    {
      hide Body, ReadTo, DataLba;
      out' := out;
      MulStep(j, |ch|, g.spc);
      ReadSize(Body(g, disk, ch), cap, j * g.spc, out);
      var sc := 0;
      while sc < g.spc && |out'| < cap
        invariant sc <= g.spc && ReadTo(Body(g, disk, ch), cap, j * g.spc + sc, out') && |out'| <= cap
      {
        DivInside(j, sc, g.spc);
        BodyAt(g, disk, ch, j * g.spc + sc);
        var cb := disk[DataLba(g, c, sc)];
        var chunk := if SECSZ > cap - |out'| then cap - |out'| else SECSZ;
        ReadMore(Body(g, disk, ch), cap, j * g.spc + sc, out', chunk);
        out' := out' + cb[..chunk];
        sc := sc + 1;
      }
      if sc < g.spc { ReadAll(Body(g, disk, ch), cap, j * g.spc + sc, j * g.spc + g.spc, out'); }
    }

    /** The loop of fat16_read along a chain. */
    method ReadChain(first: nat, cap: nat, ghost ch: seq<nat>) returns (out: seq<byte>)
      requires g.Fits(disk) && ChainIn(g, ch) && IsChain(Table(g, disk, 0), ch) && first == Head(ch)
               && cap <= |ch| * g.spc * SECSZ
      ensures cap <= |Body(g, disk, ch)| * SECSZ && out == FileBytes(Body(g, disk, ch), cap)
    {
      hide Body, ReadTo, Table, IsChain, FileBytes;
      out := [];
      var clus := first;
      ghost var j := 0;
      ReadNone(Body(g, disk, ch), cap);
      if ch != [] { ChainStart(Table(g, disk, 0), ch); }
      while InChain(clus) && |out| < cap
        invariant j <= |ch| && (if j < |ch| then clus == ch[j] else !InChain(clus))
                  && ReadTo(Body(g, disk, ch), cap, j * g.spc, out)
        decreases |ch| - j
      {
        out := ReadCluster(clus, cap, out, ch, j);
        ChainNext(Table(g, disk, 0), ch, j);
        clus := FatNext(clus);
        assert j * g.spc + g.spc == (j + 1) * g.spc;
        j := j + 1;
      }
      ChainAt(g, ch, j);
      ReadEnd(Body(g, disk, ch), cap, j * g.spc, out);
    }

    /** fat16_read, the path resolved to a directory and a leaf. */
    method ReadLeaf(dir: nat, leaf: seq<byte>, maxlen: nat) returns (r: Option<seq<byte>>)
      requires Valid() && dir in tree.dirs
      modifies this`cacheOk, this`cacheLba, this`cache
      ensures Valid() && g.Fits(disk) && ChainsIn(g, tree)
      ensures var y := Lookup(Slots(g, disk, tree.dirs[dir]), leaf);
              r.Some? <==> y.Some? && !IsDir(y.value.ent) && Size(y.value.ent) <= maxlen
      ensures r.Some? ==> var k := (dir, Lookup(Slots(g, disk, tree.dirs[dir]), leaf).value.idx);
              k in tree.ents && HasData(tree.ents[k], r.value)
    {
      hide SafeWith, LogOk, Coherent, Table, Slots, Lookup, IsDir, Size, First, IsChain, Body, Full, HasData, FileBytes;
      TreeFits(g, disk, tree);
      var y := DirLookup(dir, leaf);
      if y.None? || IsDir(y.value.ent) || Size(y.value.ent) > maxlen { return None; }
      ghost var k := (dir, y.value.idx);
      LookupIn(Slots(g, disk, tree.dirs[dir]), leaf);
      ListedFile(g, disk, tree, dir, y.value);
      FileFacts(g, disk, tree, k);
      var out := ReadChain(First(y.value.ent), Size(y.value.ent), tree.ents[k].chain);
      r := Some(out);
    }

    /** fat16_size, the path resolved. */
    method SizeLeaf(dir: nat, leaf: seq<byte>) returns (r: int)
      requires Valid() && dir in tree.dirs
      modifies this`cacheOk, this`cacheLba, this`cache
      ensures Valid() && g.Fits(disk) && ChainsIn(g, tree)
      ensures var y := Lookup(Slots(g, disk, tree.dirs[dir]), leaf);
              r == if y.Some? && !IsDir(y.value.ent) then Size(y.value.ent) else -1
    {
      hide SafeWith, LogOk, Coherent, Slots, Lookup, IsDir, Size, Full;
      TreeFits(g, disk, tree);
      var y := DirLookup(dir, leaf);
      if y.None? || IsDir(y.value.ent) { return -1; }
      r := Size(y.value.ent);
    }

    // ---- removing

    /** dir_erase: the long entries from the first on, then the short one. Unless that is one
        of the two a directory keeps about itself, the tree is left without it. */
    method DirErase(dir: nat, y: Item)
      requires Steady() && dir in tree.dirs && Tidy(Slots(g, disk, tree.dirs[dir]))
      requires y in Listing(Slots(g, disk, tree.dirs[dir]))
      modifies this
      ensures g.Fits(old(disk)) && ChainsIn(g, old(tree)) && Shape(old(tree)) && g.Fits(disk)
      ensures cacheOk && g.RootStart() <= cacheLba < |disk| && cache == disk[cacheLba] && dir in old(tree).dirs
      ensures Elsewhere(g, old(disk), disk, old(tree), dir, [])
      ensures Slots(g, disk, old(tree).dirs[dir]) == Erased(Slots(g, old(disk), old(tree).dirs[dir]), y.chain, y.idx)
      ensures !Self((dir, y.idx)) ==> (dir, y.idx) in old(tree).ents && tree == Pruned(old(tree), (dir, y.idx))
      ensures !Self((dir, y.idx)) ==> SafeWith(g, disk, tree) && LogOk(g, log) && Grew(old(log), log, {old(tree), tree})
    {
      hide SafeWith, LogOk, Coherent, CacheFor, Table, Slots, Elsewhere, Tidy, Listing, IsDir, First, Erasing, SecLba;
      hide Secs, PutSlot, IsChain, Erased, Erased2, Short, Pruned, Live;
      TreeFits(g, disk, tree);
      ghost var d0, t0, l0 := disk, tree, log;
      ghost var dch, k := tree.dirs[dir], (dir, y.idx);
      ghost var s0 := Slots(g, disk, dch);
      ListedFile(g, disk, tree, dir, y);
      ghost var t1 := if Self(k) then t0 else Pruned(t0, k);
      EraseBegin(s0, y);
      ElsewhereNone(g, d0, t0, dir, []);
      GrewNone(log, {t0, t1});
      CacheReady(g, disk, tree, dir, cacheOk, cacheLba, cache);
      for i := y.chain to y.idx + 1
        invariant g.Fits(disk) && Elsewhere(g, d0, disk, t0, dir, []) && Grew(l0, log, {t0, t1}) && tree == t0
        invariant i <= y.idx ==> SafeWith(g, disk, t0) && LogOk(g, log)
        invariant i > y.idx && !Self(k) ==> SafeWith(g, disk, t1) && LogOk(g, log)
        invariant i <= y.idx ==> CacheFor(g, disk, cacheOk, cacheLba, cache, dch)
        invariant i > y.idx ==> cacheOk && g.RootStart() <= cacheLba < |disk| && cache == disk[cacheLba]
        invariant Erasing(s0, Slots(g, disk, dch), y.chain, y.idx, i)
      {
        ghost var d1, l1 := disk, log;
        DirFacts(g, disk, t0, dir);
        EraseStep(g, disk, t0, dir, s0, y.chain, y.idx, i);
        var ok, d := SlotPtr(dir, i, dch);
        CacheOn(g, disk, dch, cacheOk, cacheLba, cache);
        var e := d[0 := 0xE5];
        ghost var t := if i == y.idx then t1 else t0;
        var put := SlotPut(dir, i, e, dch, t);
        ElsewhereFits(g, d1, disk, t0, dir, []);
        ElsewhereTwice(g, d0, d1, disk, t0, dir, []);
        GrewEither(l0, l1, log, t0, t1, t);
        CacheOn(g, disk, dch, cacheOk, cacheLba, cache);
      }
      EraseEnd(s0, Slots(g, disk, dch), y.chain, y.idx);
      tree := t1;
    }

    /** The check fat16_remove makes of a directory. */
    method OnlyDots(dir: nat) returns (r: bool)
      requires Steady() && dir in tree.dirs
      modifies this`cacheOk, this`cacheLba, this`cache
      ensures Steady() && ChainIn(g, tree.dirs[dir])
      ensures r == AllDots(Listing(Slots(g, disk, tree.dirs[dir])))
    {
      hide IsChain, Table, Slots, ItemsFrom, StTo, Misses, LogOk, SafeWith, CacheFor, Coherent, KeptCache, AllDots;
      CacheReady(g, disk, tree, dir, cacheOk, cacheLba, cache);
      ghost var ch := tree.dirs[dir];
      ghost var s := Slots(g, disk, ch);
      var i := 0;
      NoItems(s);
      DotsNone();
      KeptNone(g, disk, cacheOk, cacheLba, cache);
      while true
        invariant i <= EndOf(s) && StTo(s, i).NoChain? && AllDots(ItemsFrom(s, 0, i))
        invariant CacheFor(g, disk, cacheOk, cacheLba, cache, ch)
                  && KeptCache(g, disk, old(cacheOk), old(cacheLba), old(cache), cacheOk, cacheLba, cache)
        decreases EndOf(s) - i
      {
        ghost var c1 := (cacheOk, cacheLba, cache);
        var x := ScanNext(dir, i, NoChain, ch);
        KeptTwice(g, disk, old(cacheOk), old(cacheLba), old(cache), c1.0, c1.1, c1.2, cacheOk, cacheLba, cache);
        CacheStill(g, disk, tree, old(cacheOk), old(cacheLba), old(cache), cacheOk, cacheLba, cache);
        if x.None? {
          DotsSplit(s, i, EndOf(s));
          return true;
        }
        DotsSplit(s, i, x.value.idx + 1);
        DotsSplit(s, x.value.idx + 1, EndOf(s));
        DotsOne(x.value);
        var got := x.value.name;
        if !(got == DOTS1 || got == DOTS2) { return false; }
        i := x.value.idx + 1;
      }
    }

    /** The end of fat16_remove: erase the name, then free the chain ch its entry heads. */
    method Drop(dir: nat, leaf: seq<byte>, y: Item, ghost ch: seq<nat>)
      requires Valid() && dir in tree.dirs && ChainIn(g, tree.dirs[dir])
      requires Lookup(Slots(g, disk, tree.dirs[dir]), leaf) == Some(y)
      requires IsChain(Table(g, disk, 0), ch) && Distinct(ch) && First(y.ent) == Head(ch)
      requires (dir, y.idx) in tree.ents ==> ch == tree.ents[(dir, y.idx)].chain
      modifies this
      ensures g.Fits(old(disk)) && ChainsIn(g, old(tree)) && Shape(old(tree)) && dir in old(tree).dirs
      ensures Gone(g, old(disk), old(tree), disk, dir, y, ch)
      ensures !Self((dir, y.idx)) ==> Steady() && Grew(old(log), log, {old(tree), tree})
      ensures !Self((dir, y.idx)) ==> (dir, y.idx) in old(tree).ents && tree == Pruned(old(tree), (dir, y.idx))
    {
      hide SafeWith, LogOk, Coherent, Table, Slots, Full, Lookup, IsDir, First, Grew, Listing, Tidy, Elsewhere, Owned;
      hide IsChain, Distinct, Erased, DataKept, FreedTab, Pruned, Shape;
      TreeFits(g, disk, tree);
      ghost var d0, t0, l0, k := disk, tree, log, (dir, y.idx);
      LookupIn(Slots(g, disk, tree.dirs[dir]), leaf);
      FullTidy(g, disk, tree, dir);
      DirErase(dir, y);
      ghost var d1, l1 := disk, log;
      ElsewhereFits(g, d0, d1, t0, dir, []);
      if !Self(k) {
        TreeFits(g, disk, tree);
        forall c | c in ch ensures !Owned(tree, c) { PrunedFree(t0, k, c); }
      }
      FatFreeChain(First(y.ent), ch, tree);
      DropRest(g, d0, d1, disk, t0, dir, ch);
      if !Self(k) {
        TreeFits(g, disk, tree);
        CacheCurrent2(g, d1, disk, tree, cacheOk, cacheLba, cache);
        GrewTwo(l0, l1, log, t0, tree);
      }
    }

    /** fat16_remove, the path resolved to a directory and a leaf. It succeeds on any file,
        and on any directory that lists dot names only; afterwards the volume is sound,
        nothing leaked, exactly when it was not one of the removals of Bad. */
    method RemoveLeaf(dir: nat, leaf: seq<byte>) returns (r: int)
      requires Valid() && dir in tree.dirs && g.Fits(disk) && ChainsIn(g, tree)
      modifies this
      ensures (r == 0 || r == -1) && g.Fits(old(disk)) && ChainsIn(g, old(tree)) && Shape(old(tree)) && g.Fits(disk)
              && dir in old(tree).dirs
      ensures r == 0 <==> Removable(g, old(disk), old(tree), dir, leaf)
      ensures r == -1 ==> Valid() && tree == old(tree) && disk == old(disk) && log == old(log)
      ensures (exists t :: Full(g, disk, t)) <==> !Bad(g, old(disk), old(tree), dir, leaf)
      ensures !Bad(g, old(disk), old(tree), dir, leaf) ==> Valid()
      ensures r == 0 && !SelfLeaf(g, old(disk), old(tree), dir, leaf) ==>
              Steady() && Grew(old(log), log, {old(tree), tree})
      ensures r == 0 && !SelfLeaf(g, old(disk), old(tree), dir, leaf) ==>
              Removed(g, old(disk), old(tree), disk, tree, dir, leaf)
      ensures r == 0 && SelfLeaf(g, old(disk), old(tree), dir, leaf) ==> forall t :: !SafeWith(g, disk, t)
    {
      hide SafeWith, LogOk, Coherent, Table, Slots, Full, Lookup, IsDir, First, Grew, Listing, AllDots, Removed, Gone;
      hide IsChain, Distinct, Pruned, Shape, Leaks;
      TreeFits(g, disk, tree);
      ghost var d0, t0 := disk, tree;
      var y := DirLookup(dir, leaf);
      if y.None? {
        StillFull(g, disk, tree);
        return -1;
      }
      LookupIn(Slots(g, disk, tree.dirs[dir]), leaf);
      ListedFile(g, disk, tree, dir, y.value);
      ghost var ch := TargetChain(g, disk, tree, dir, y.value);
      if IsDir(y.value.ent) {
        var first := First(y.value.ent);
        var empty := OnlyDots(first);
        if !empty {
          StillFull(g, disk, tree);
          return -1;
        }
      }
      Drop(dir, leaf, y.value, ch);
      r := 0;
      GoneFits(g, d0, t0, disk, dir, y.value, ch);
      if Self((dir, y.value.idx)) {
        SelfGone(g, d0, t0, disk, dir, y.value, ch);
      } else {
        EntryGone(g, d0, t0, disk, dir, leaf, y.value, ch);
      }
    }

    // ---- making a directory

    /** The middle of fat16_mkdir: a cluster cleared, and its two entries about itself. */
    method BlankDir(c: nat, dir: nat)
      requires Steady() && Clus(g, c) && !Owned(tree, c) && dir < 0x10000 && IsChain(Table(g, disk, 0), [c])
      modifies this`disk, this`log, this`cacheOk, this`cacheLba, this`cache
      ensures Steady() && g.Fits(old(disk)) && ChainsIn(g, tree) && Grew(old(log), log, {tree})
              && OnlyCluster(g, old(disk), disk, c) && g.Fits(disk)
      ensures ChainIn(g, [c]) && BareDir(Slots(g, disk, [c]), c, dir) && Tidy(Slots(g, disk, [c]))
    {
      hide SafeWith, LogOk, Coherent, CacheFor, Owned, Table, Slots, OnlyCluster, IsChain, BareDir, Tidy, DataLba,
          Chunk, PutSlot, SecLba, Secs, Grew, NewEntry;
      TreeFits(g, disk, tree);
      ghost var d0, l0 := disk, log;
      WriteCluster(c, 0, []);
      TreeFits(g, disk, tree);
      cacheOk := false;
      NoCache(g, disk, tree, cacheLba, cache, [c]);
      ghost var d1, l1 := disk, log;
      ghost var z := Slots(g, disk, [c]);
      ZeroSlots(g, disk, c);
      OnlyTable(g, d0, d1, c, 0);
      var e := NewEntry(DOT1, 0x10, c, 0);
      PutOwn(g, disk, tree, c, 0, e);
      var put := SlotPut(c, 0, e, [c], tree);
      TreeFits(g, disk, tree);
      ghost var d2, l2 := disk, log;
      CacheOn(g, disk, [c], cacheOk, cacheLba, cache);
      var e' := NewEntry(DOT2, 0x10, dir, 0);
      PutOwn(g, disk, tree, c, 1, e');
      put := SlotPut(c, 1, e', [c], tree);
      TreeFits(g, disk, tree);
      CacheCurrent(g, disk, tree, cacheOk, cacheLba, cache);
      OnlyTwice(g, d0, d1, d2, c);
      OnlyTwice(g, d0, d2, disk, c);
      GrewAgain(l0, l1, l2, tree);
      GrewAgain(l0, l2, log, tree);
      EntryFields(DOT1, 0x10, c, 0);
      EntryFields(DOT2, 0x10, dir, 0);
      BareIs(z, c, dir, e, e');
    }

    /** fat16_mkdir, the path resolved to a directory and a leaf. */
    method MkdirLeaf(dir: nat, leaf: seq<byte>) returns (r: int, ghost k: Key)
      requires Valid() && dir in tree.dirs && NoZero(leaf) && leaf != [] && |leaf| < NAME_MAX
      modifies this
      ensures Valid() && Grew(old(log), log, {old(tree), tree}) && (r == -1 || r == 0) && g.Fits(old(disk))
              && ChainsIn(g, old(tree)) && dir in old(tree).dirs
      ensures r == -1 <==> NoMkdir(g, old(disk), old(tree), dir, leaf)
      ensures r == -1 ==>
              tree == old(tree) && g.Fits(disk) && SlotsKept(g, old(disk), disk, tree)
              && SameTables(g, old(disk), disk)
      ensures r == 0 ==> MadeDir(g, old(disk), old(tree), disk, tree, dir, leaf, k)
    {
      hide SafeWith, LogOk, Coherent, Table, Slots, Full, SlotsKept, SameTables, MadeDir, NoRun, EntryUnits, Lookup,
          FreeCount, LongCount, Grew, Owned, IsChain, OnlyCluster, Created, BareDir, Tidy, DataKept, Fresh;
      k := (dir, 0);
      TreeFits(g, disk, tree);
      ghost var d0, t0, l0 := disk, tree, log;
      KeptSelf(g, disk, tree);
      GrewNone(log, {tree, tree});
      var y := DirLookup(dir, leaf);
      if y.Some? { return -1, k; }
      var c := FatAllocFrom(2);
      CountAny(Table(g, disk, 0), c);
      if c == 0 { return -1, k; }
      FreeClus(g, disk, tree, c);
      FatSet(c, FAT_EOC, tree);
      TreeFits(g, disk, tree);
      CoherentKept(g, d0, disk, tree, cacheOk, cacheLba, cache);
      ghost var d1, l1 := disk, log;
      DirLow(g, d0, tree, dir);
      LinkOne(Table(g, d0, 0), c);
      OneChain(g, d0, d1, c);
      BlankDir(c, dir);
      ghost var d2, l2 := disk, log;
      GrewAgain(l0, l1, l2, tree);
      OneKept(g, d0, d1, d2, tree, c);
      FullTidy(g, d0, tree, dir);
      FreshOne(tree, c);
      var slot;
      ghost var start;
      slot, start := DirCreate(dir, leaf, true, c, 0, [c]);
      ghost var l3 := log;
      if slot < 0 {
        FatSet(c, FAT_FREE, tree);
        TreeFits(g, disk, tree);
        CoherentKept(g, d2, disk, tree, cacheOk, cacheLba, cache);
        OneUndone(g, d0, d2, disk, tree, c);
        SameTablesAt(g, d0, disk);
        FullSame(g, d0, tree, disk);
        GrewAgain(l0, l2, log, tree);
        GrewMore(l0, log, tree);
        return -1, k;
      }
      GrewJoin(l0, l2, log, t0, tree);
      r, k := 0, (dir, slot);
      MadeDirIs(g, d0, d2, disk, t0, tree, dir, leaf, c, slot, start);
    }
  }
}
