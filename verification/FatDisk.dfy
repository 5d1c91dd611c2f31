/** A FAT16 volume as src/fat16.c sees it: sectors behind blk_read and blk_write, the
    copies of the allocation table, the fixed root directory, and the clusters. */
module FatDisk {
  import opened Common
  import opened FatNames

  const SECSZ: nat := 512
  const SLOTS_PER_SEC: nat := 16
  const FAT_FREE: nat := 0x0000
  const FAT_EOC: nat := 0xFFFF
  const FAT_END: nat := 0xFFF8

  type Sector = s: seq<byte> | |s| == 512 witness seq(512, i => 0)
  type Disk = seq<Sector>

  /** The fields of the boot sector that fat16_init keeps. */
  datatype Geo = Geo(spc: nat, reserved: nat, nfats: nat, rootEntries: nat, spf: nat)
  {
    function FatStart(): nat { reserved }
    function RootStart(): nat { reserved + nfats * spf }
    function RootSectors(): nat { (rootEntries * 32 + SECSZ - 1) / SECSZ }
    function DataStart(): nat { RootStart() + RootSectors() }

    /** The number of table entries; clusters are numbered from 2. */
    function Count(): nat { spf * SECSZ / 2 }

    ghost predicate Ok() {
      1 <= spc && 1 <= nfats && 1 <= spf && Count() <= FAT_END
    }

    ghost predicate Fits(d: Disk) {
      Ok() && DataStart() + (Count() - 2) * spc <= |d|
    }
  }

  function FatLba(g: Geo, f: nat, k: nat): nat { g.FatStart() + f * g.spf + k }

  function DataLba(g: Geo, c: nat, k: nat): nat
    requires 2 <= c
  {
    g.DataStart() + (c - 2) * g.spc + k
  }

  predicate Clus(g: Geo, c: nat) { 2 <= c < g.Count() }

  // ---- where things are

  lemma MulStep(a: nat, b: nat, m: nat)
    requires a < b
    ensures a * m + m <= b * m
  {
    assert (a + 1) * m == a * m + m;
    MulLe(a + 1, b, m);
  }

  lemma MulLe(a: nat, b: nat, m: nat)
    requires a <= b
    ensures a * m <= b * m
  {
  }

  lemma FatPlace(g: Geo, f: nat, k: nat)
    requires f < g.nfats && k < g.spf
    ensures g.FatStart() <= FatLba(g, f, k) < g.RootStart()
  {
    MulStep(f, g.nfats, g.spf);
  }

  lemma FatApart(g: Geo, f: nat, k: nat, f': nat, k': nat)
    requires k < g.spf && k' < g.spf && FatLba(g, f, k) == FatLba(g, f', k')
    ensures f == f' && k == k'
  {
    if f < f' { MulStep(f, f', g.spf); }
    if f' < f { MulStep(f', f, g.spf); }
  }

  lemma DataPlace(g: Geo, d: Disk, c: nat, k: nat)
    requires g.Fits(d) && Clus(g, c) && k < g.spc
    ensures g.DataStart() <= DataLba(g, c, k) < |d|
  {
    hide Geo.DataStart, Geo.Count;
    MulStep(c - 2, g.Count() - 2, g.spc);
  }

  lemma DataApart(g: Geo, c: nat, k: nat, c': nat, k': nat)
    requires 2 <= c && 2 <= c' && k < g.spc && k' < g.spc && DataLba(g, c, k) == DataLba(g, c', k')
    ensures c == c' && k == k'
  {
    if c < c' { MulStep(c - 2, c' - 2, g.spc); }
    if c' < c { MulStep(c' - 2, c - 2, g.spc); }
  }

  // ---- the allocation table

  /** Entry c of copy f. */
  function FatAt(g: Geo, d: Disk, f: nat, c: nat): (v: nat)
    requires FatLba(g, f, c / 256) < |d|
    ensures v < 0x10000
  {
    Rd16(d[FatLba(g, f, c / 256)], c % 256 * 2)
  }

  function Put16(s: Sector, i: nat, v: nat): Sector
    requires i + 2 <= SECSZ && v < 0x10000
  {
    s[i := v % 0x100][i + 1 := v / 0x100]
  }

  lemma Put16Rd(s: Sector, i: nat, v: nat, j: nat)
    requires i + 2 <= SECSZ && j + 2 <= SECSZ && v < 0x10000 && (i == j || i + 2 <= j || j + 2 <= i)
    ensures Rd16(Put16(s, i, v), j) == if i == j then v else Rd16(s, j)
  {
  }

  function PutFat(g: Geo, d: Disk, f: nat, c: nat, v: nat): Disk
    requires FatLba(g, f, c / 256) < |d| && v < 0x10000
  {
    var lba := FatLba(g, f, c / 256);
    d[lba := Put16(d[lba], c % 256 * 2, v)]
  }

  lemma FatIn(g: Geo, d: Disk, f: nat, c: nat)
    requires g.Fits(d) && f < g.nfats && c < g.Count()
    ensures c / 256 < g.spf && g.FatStart() <= FatLba(g, f, c / 256) < g.RootStart() <= |d|
  {
    assert g.Count() == g.spf * 256;
    FatPlace(g, f, c / 256);
  }

  /** fat_set on one copy changes that entry and nothing else anywhere. */
  lemma PutFatAt(g: Geo, d: Disk, f: nat, c: nat, v: nat, f': nat, c': nat)
    requires g.Fits(d) && f < g.nfats && f' < g.nfats && c < g.Count() && c' < g.Count() && v < 0x10000
    ensures FatLba(g, f, c / 256) < |d| && FatLba(g, f', c' / 256) < |d|
    ensures FatAt(g, PutFat(g, d, f, c, v), f', c') == if f == f' && c == c' then v else FatAt(g, d, f', c')
  {
    FatIn(g, d, f, c);
    FatIn(g, d, f', c');
    if FatLba(g, f, c / 256) == FatLba(g, f', c' / 256) {
      FatApart(g, f, c / 256, f', c' / 256);
      Put16Rd(d[FatLba(g, f, c / 256)], c % 256 * 2, v, c' % 256 * 2);
    }
  }

  // ---- directories and files as runs of sectors

  ghost predicate ChainIn(g: Geo, ch: seq<nat>) {
    forall j :: 0 <= j < |ch| ==> Clus(g, ch[j])
  }

  ghost predicate Distinct(ch: seq<nat>) {
    forall i, j :: 0 <= i < j < |ch| ==> ch[i] != ch[j]
  }

  /** The empty chain stands for the root directory, which has none. */
  function Secs(g: Geo, ch: seq<nat>): nat {
    if ch == [] then g.RootSectors() else |ch| * g.spc
  }

  lemma DivLt(n: nat, a: nat, m: nat)
    requires n < a * m && 0 < m
    ensures n / m < a
  {
    assert n == m * (n / m) + n % m;
    if a <= n / m { MulLe(a, n / m, m); }
  }

  /** dir_sector, and the address arithmetic of fat16_read and fat16_write. */
  function SecLba(g: Geo, ch: seq<nat>, n: nat): nat
    requires g.Ok() && n < Secs(g, ch) && forall j :: 0 <= j < |ch| ==> Clus(g, ch[j])
  {
    if ch == [] then g.RootStart() + n else
    DivLt(n, |ch|, g.spc);
    assert Clus(g, ch[n / g.spc]);
    DataLba(g, ch[n / g.spc], n % g.spc)
  }

  lemma SecIs(g: Geo, ch: seq<nat>, n: nat)
    requires g.Ok() && ChainIn(g, ch) && n < Secs(g, ch) && ch != []
    ensures n / g.spc < |ch| && Clus(g, ch[n / g.spc]) && SecLba(g, ch, n) == DataLba(g, ch[n / g.spc], n % g.spc)
  {
    hide DataLba;
    DivLt(n, |ch|, g.spc);
  }

  lemma RootFits(g: Geo, d: Disk)
    requires g.Fits(d)
    ensures g.DataStart() <= |d|
  {
    MulLe(0, g.Count() - 2, g.spc);
  }

  lemma SecPlace(g: Geo, d: Disk, ch: seq<nat>, n: nat)
    requires g.Fits(d) && ChainIn(g, ch) && n < Secs(g, ch)
    ensures g.RootStart() <= SecLba(g, ch, n) < |d|
    ensures ch != [] ==>
            n / g.spc < |ch| && SecLba(g, ch, n) == DataLba(g, ch[n / g.spc], n % g.spc)
            && g.DataStart() <= SecLba(g, ch, n)
    ensures ch == [] ==> SecLba(g, ch, n) < g.DataStart()
  {
    hide SecLba, DataLba, Secs;
    if ch != [] {
      SecIs(g, ch, n);
      DataPlace(g, d, ch[n / g.spc], n % g.spc);
    } else {
      RootFits(g, d);
      RootLba(g, n);
    }
  }

  ghost predicate Apart(ch: seq<nat>, ch': seq<nat>) {
    (ch != [] || ch' != []) && forall i, j :: 0 <= i < |ch| && 0 <= j < |ch'| ==> ch[i] != ch'[j]
  }

  lemma SecApart(g: Geo, d: Disk, ch: seq<nat>, n: nat, ch': seq<nat>, n': nat)
    requires g.Fits(d) && ChainIn(g, ch) && ChainIn(g, ch') && n < Secs(g, ch) && n' < Secs(g, ch')
    requires Apart(ch, ch') || (ch == ch' && Distinct(ch) && n != n')
    ensures SecLba(g, ch, n) != SecLba(g, ch', n')
  {
    hide SecLba, DataLba, Secs, Apart, Distinct;
    if ch != [] && ch' != [] {
      ChainApart(g, ch, n, ch', n');
    } else if ch == [] && ch' == [] {
      RootLba(g, n);
      RootLba(g, n');
      NotBoth(ch, ch');
    } else {
      SecPlace(g, d, ch, n);
      SecPlace(g, d, ch', n');
    }
  }

  lemma NotBoth(ch: seq<nat>, ch': seq<nat>)
    requires ch == [] && ch' == []
    ensures !Apart(ch, ch')
  {
  }

  lemma ChainApart(g: Geo, ch: seq<nat>, n: nat, ch': seq<nat>, n': nat)
    requires g.Ok() && ChainIn(g, ch) && ChainIn(g, ch') && n < Secs(g, ch) && n' < Secs(g, ch') && ch != []
             && ch' != []
    requires Apart(ch, ch') || (ch == ch' && Distinct(ch) && n != n')
    ensures SecLba(g, ch, n) != SecLba(g, ch', n')
  {
    hide SecLba, DataLba, Secs;
    SecIs(g, ch, n);
    SecIs(g, ch', n');
    DivModSame(n, n', g.spc);
    if SecLba(g, ch, n) == SecLba(g, ch', n') {
      ModLess(n, g.spc);
      ModLess(n', g.spc);
      DataApart(g, ch[n / g.spc], n % g.spc, ch'[n' / g.spc], n' % g.spc);
    }
  }

  lemma ModLess(n: nat, m: nat)
    requires 0 < m
    ensures n % m < m
  {
  }

  lemma RootLba(g: Geo, n: nat)
    requires g.Ok() && n < Secs(g, [])
    ensures SecLba(g, [], n) == g.RootStart() + n < g.DataStart()
  {
  }

  lemma DivModSame(n: nat, n': nat, m: nat)
    requires 0 < m
    ensures n / m == n' / m && n % m == n' % m ==> n == n'
  {
    assert n == m * (n / m) + n % m && n' == m * (n' / m) + n' % m;
  }

  function SlotIn(s: Sector, i: nat): Slot
    requires i < SLOTS_PER_SEC
  {
    s[i * 32..i * 32 + 32]
  }

  function SlotSet(s: Sector, i: nat, e: Slot): Sector
    requires i < SLOTS_PER_SEC
  {
    s[..i * 32] + e + s[i * 32 + 32..]
  }

  lemma SlotSetIn(s: Sector, i: nat, e: Slot, j: nat)
    requires i < SLOTS_PER_SEC && j < SLOTS_PER_SEC
    ensures SlotIn(SlotSet(s, i, e), j) == if i == j then e else SlotIn(s, j)
  {
    var s' := SlotSet(s, i, e);
    if i == j {
      assert SlotIn(s', j) == e;
    } else {
      assert forall k :: j * 32 <= k < j * 32 + 32 ==> s'[k] == s[k];
    }
  }

  /** All the slots of a directory, in order. */
  ghost function Slots(g: Geo, d: Disk, ch: seq<nat>): (r: seq<Slot>)
    requires g.Fits(d) && ChainIn(g, ch)
    ensures |r| == Secs(g, ch) * SLOTS_PER_SEC
  {
    seq(Secs(g, ch) * SLOTS_PER_SEC, i requires 0 <= i < Secs(g, ch) * SLOTS_PER_SEC =>
      SecPlace(g, d, ch, i / SLOTS_PER_SEC); SlotIn(d[SecLba(g, ch, i / SLOTS_PER_SEC)], i % SLOTS_PER_SEC))
  }

  lemma SlotsAt(g: Geo, d: Disk, ch: seq<nat>, i: nat)
    requires g.Fits(d) && ChainIn(g, ch) && i < Secs(g, ch) * SLOTS_PER_SEC
    ensures SecLba(g, ch, i / SLOTS_PER_SEC) < |d|
    ensures Slots(g, d, ch)[i] == SlotIn(d[SecLba(g, ch, i / SLOTS_PER_SEC)], i % SLOTS_PER_SEC)
  {
    SecPlace(g, d, ch, i / SLOTS_PER_SEC);
  }

  // ---- one sector written

  /** A write behind the table leaves the table alone. */
  lemma DataWriteFat(g: Geo, d: Disk, lba: nat, s: Sector, f: nat, c: nat)
    requires g.Fits(d) && g.RootStart() <= lba < |d| && f < g.nfats && c < g.Count()
    ensures FatLba(g, f, c / 256) < |d| && FatAt(g, d[lba := s], f, c) == FatAt(g, d, f, c)
  {
    FatIn(g, d, f, c);
  }

  lemma SlotsFrame(g: Geo, d: Disk, d': Disk, ch: seq<nat>)
    requires g.Fits(d) && g.Fits(d') && ChainIn(g, ch) && |d'| == |d|
    requires forall n {:trigger SecLba(g, ch, n)} ::
             0 <= n < Secs(g, ch) ==> SecLba(g, ch, n) < |d| && d'[SecLba(g, ch, n)] == d[SecLba(g, ch, n)]
    ensures Slots(g, d', ch) == Slots(g, d, ch)
  {
    forall i | 0 <= i < Secs(g, ch) * SLOTS_PER_SEC ensures Slots(g, d', ch)[i] == Slots(g, d, ch)[i] {
      SlotsAt(g, d, ch, i);
      SlotsAt(g, d', ch, i);
    }
  }

  function PutSlot(g: Geo, d: Disk, ch: seq<nat>, i: nat, e: Slot): Disk
    requires g.Ok() && i / SLOTS_PER_SEC < Secs(g, ch) && (forall j :: 0 <= j < |ch| ==> Clus(g, ch[j]))
    requires SecLba(g, ch, i / SLOTS_PER_SEC) < |d|
  {
    var lba := SecLba(g, ch, i / SLOTS_PER_SEC);
    d[lba := SlotSet(d[lba], i % SLOTS_PER_SEC, e)]
  }

  /** slot_put changes one slot of its directory. */
  lemma PutSlotHere(g: Geo, d: Disk, ch: seq<nat>, i: nat, e: Slot)
    requires g.Fits(d) && ChainIn(g, ch) && Distinct(ch) && i < Secs(g, ch) * SLOTS_PER_SEC
    ensures SecLba(g, ch, i / SLOTS_PER_SEC) < |d|
    ensures Slots(g, PutSlot(g, d, ch, i, e), ch) == Slots(g, d, ch)[i := e]
  {
    SecPlace(g, d, ch, i / SLOTS_PER_SEC);
    var d' := PutSlot(g, d, ch, i, e);
    forall j | 0 <= j < Secs(g, ch) * SLOTS_PER_SEC ensures Slots(g, d', ch)[j] == Slots(g, d, ch)[i := e][j] {
      SlotsAt(g, d, ch, j);
      SlotsAt(g, d', ch, j);
      if j / SLOTS_PER_SEC == i / SLOTS_PER_SEC {
        SlotSetIn(d[SecLba(g, ch, i / SLOTS_PER_SEC)], i % SLOTS_PER_SEC, e, j % SLOTS_PER_SEC);
      } else {
        SecApart(g, d, ch, i / SLOTS_PER_SEC, ch, j / SLOTS_PER_SEC);
      }
    }
  }

  /** And no slot of any directory that shares no cluster with it. */
  lemma PutSlotThere(g: Geo, d: Disk, ch: seq<nat>, i: nat, e: Slot, ch': seq<nat>)
    requires g.Fits(d) && ChainIn(g, ch) && ChainIn(g, ch') && Apart(ch, ch') && i < Secs(g, ch) * SLOTS_PER_SEC
    ensures SecLba(g, ch, i / SLOTS_PER_SEC) < |d|
    ensures Slots(g, PutSlot(g, d, ch, i, e), ch') == Slots(g, d, ch')
  {
    SecPlace(g, d, ch, i / SLOTS_PER_SEC);
    var d' := PutSlot(g, d, ch, i, e);
    forall n | 0 <= n < Secs(g, ch') ensures SecLba(g, ch', n) < |d| && d'[SecLba(g, ch', n)] == d[SecLba(g, ch', n)] {
      SecPlace(g, d, ch', n);
      SecApart(g, d, ch, i / SLOTS_PER_SEC, ch', n);
    }
    SlotsFrame(g, d, d', ch');
  }
}
