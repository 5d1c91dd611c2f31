/** Runs, from a formatted volume, that src/fat16.c should refuse somewhere and does not. */
module FatRuns {
  import opened Common
  import opened Utf
  import opened FatNames
  import opened FatScan
  import opened FatDisk
  import opened FatTree
  import opened FatSteps
  import opened FatCommit
  import opened FatFull
  import opened FatCreate
  import opened FatResult
  import opened FatVolume
  import opened FatWalk
  import opened FatPath

  const ROOT: Tree := Tree(map[0 := []], map[], map[], map[0 := 0])

  /** A volume just formatted, with a table of more than four entries and room for one name
      in the root. */
  ghost predicate Blank(v: Volume)
    reads v
  {
    && v.Valid() && v.tree == ROOT && v.g.Fits(v.disk) && ChainIn(v.g, []) && v.g.Count() >= 4
    && 10 <= |Slots(v.g, v.disk, [])|
    && forall i :: 0 <= i < |Slots(v.g, v.disk, [])| ==> Slots(v.g, v.disk, [])[i][0] == 0
  }

  // ---- there is such a volume

  /** Clusters of a sector, two tables of a sector, a root of 512 entries. */
  const SMALL: Geo := Geo(1, 1, 2, 512, 1)

  function BootByte(i: nat): byte {
    if i == 12 || i == 16 || i == 18 then 2 else if i == 13 || i == 14 || i == 22 then 1 else if i == 510 then 0x55
        else if i == 511 then 0xAA else 0
  }

  const BOOT: Sector := seq(512, i requires 0 <= i < 512 => BootByte(i))
  const ZERO: Sector := seq(512, _ => 0)
  const SMALL_DISK: Disk := [BOOT] + seq(288, _ => ZERO)

  lemma SmallZero(i: nat)
    requires 0 < i < |SMALL_DISK|
    ensures SMALL_DISK[i] == ZERO
  {
  }

  lemma SmallBoot()
    ensures BootGeo(SMALL_DISK[0]) == Some(SMALL) && SMALL.Fits(SMALL_DISK) && SMALL.Count() == 256
            && SMALL.RootStart() == 3 && SMALL.RootSectors() == 32
  {
    assert SMALL_DISK[0] == BOOT;
    assert Rd16(BOOT, 11) == 512 && Rd16(BOOT, 14) == 1 && Rd16(BOOT, 17) == 512 && Rd16(BOOT, 22) == 1;
  }

  lemma SmallFull()
    ensures SMALL.Fits(SMALL_DISK) && ChainIn(SMALL, []) && Full(SMALL, SMALL_DISK, ROOT)
            && |Slots(SMALL, SMALL_DISK, [])| == 512
    ensures forall i :: 0 <= i < |Slots(SMALL, SMALL_DISK, [])| ==> Slots(SMALL, SMALL_DISK, [])[i][0] == 0
  {
    hide Slots, Table, Full;
    SmallBoot();
    var g, d := SMALL, SMALL_DISK;
    forall f, c | 0 <= f < g.nfats && 0 <= c < g.Count() ensures Table(g, d, f)[c] == FAT_FREE {
      FatIn(g, d, f, c);
      TableAt(g, d, f, c);
      SmallZero(FatLba(g, f, c / 256));
    }
    forall f | 0 <= f < g.nfats ensures Table(g, d, f) == Table(g, d, 0) { }
    forall i | 0 <= i < |Slots(g, d, [])| ensures Slots(g, d, [])[i][0] == 0 {
      SlotsAt(g, d, [], i);
      SecPlace(g, d, [], i / SLOTS_PER_SEC);
      SmallZero(SecLba(g, [], i / SLOTS_PER_SEC));
    }
    Formatted(g, d);
  }

  /** fat16_init on it. */
  method Format() returns (v: Volume)
    ensures fresh(v) && Blank(v)
  {
    hide Slots, Full;
    SmallBoot();
    SmallFull();
    v := new Volume(SMALL_DISK, ROOT);
  }

  const A: seq<byte> := [0x41]

  lemma WellA()
    ensures WellNamed(A) && WellNamed(DOTS1) && EntryUnits(A) == Some([]) && EntryUnits(DOTS1) == Some([0x2E])
            && EntryUnits([0xC0, 0xAE]) == Some([0x2E])
  {
    var a: seq<nat>, d: seq<nat> := [0x41], [0x2E];
    assert CodePoints(a) && CodePoints(d);
    assert Enc8(a[1..]) == [] && Enc8(d[1..]) == [];
    assert Enc8(a) == A && Enc8(d) == DOTS1;
    assert Base(A[1..]) == [] && Base(A) == A;
    assert Base(DOTS1) == [];
    UnitsDot();
  }

  lemma UnitsDot()
    ensures Units(DOTS1) == Some([0x2E]) && !Fits83(DOTS1) && Units([0xC0, 0xAE]) == Some([0x2E])
            && !Fits83([0xC0, 0xAE])
  {
    OverlongDot();
    var name: seq<byte> := [0xC0, 0xAE];
    assert Base(name[1..][1..]) == [] && Base(name[1..]) == [0xAE] && Base(name) == name;
    assert Base(DOTS1) == [];
    assert DOTS1[1..] == [];
    assert Units(DOTS1[1..]) == Some([]);
  }

  /** In a formatted root every name is new and there is room for it. */
  lemma BlankRoom(v: Volume, leaf: seq<byte>)
    requires Blank(v) && EntryUnits(leaf).Some? && Text(EntryUnits(leaf).value)
    ensures v.g.Fits(v.disk) && ChainsIn(v.g, v.tree) && !NoMkdir(v.g, v.disk, v.tree, 0, leaf)
  {
    hide Slots, Table, EntryUnits, Listing;
    var s := Slots(v.g, v.disk, []);
    TreeFits(v.g, v.disk, v.tree);
    EndIs(s, 0, 0);
    EmptyListing(s);
    var n := LongCount(EntryUnits(leaf).value) + 1;
    assert AllFree(s, 0, n);
    FreeThere(v.g, v.disk, v.tree, 2);
    FreeSome(Table(v.g, v.disk, 0), 2);
  }

  lemma WellUnits(leaf: seq<byte>)
    requires WellNamed(leaf)
    ensures EntryUnits(leaf).Some? && Text(EntryUnits(leaf).value)
  {
    hide Units;
    var cs :| CodePoints(cs) && Enc8(cs) == leaf;
    EncFacts(cs);
    RoundTrip(cs);
    UnitsFew(leaf);
  }

  lemma EmptyListing(s: seq<Slot>)
    requires EndOf(s) == 0
    ensures Listing(s) == []
  {
  }

  lemma FreeThere(g: Geo, d: Disk, t: Tree, c: nat)
    requires Full(g, d, t) && g.Fits(d) && Clus(g, c) && !Owned(t, c)
    ensures Table(g, d, 0)[c] == FAT_FREE
  {
  }

  lemma {:induction false} FreeFrom(tab: seq<nat>, a: nat, c: nat)
    requires a <= c < |tab| && tab[c] == FAT_FREE
    ensures FreeCount(tab, a) > 0
    decreases c - a
  {
    if a < c { FreeFrom(tab, a + 1, c); }
  }

  lemma FreeSome(tab: seq<nat>, c: nat)
    requires 2 <= c < |tab| && tab[c] == FAT_FREE
    ensures FreeCount(tab, 2) > 0
  {
    FreeFrom(tab, 2, c);
  }

  // ---- the paths

  ghost predicate OneComp(p: seq<byte>) { 0 < |p| < NAME_MAX && SLASH !in p }

  lemma {:induction false} CompWhole(p: seq<byte>, rest: seq<byte>, n: nat)
    requires OneComp(p) && n <= |p| && (rest == [] || rest[0] == SLASH)
    ensures CompLen(p + rest, n) == |p|
    decreases |p| - n
  {
    if n < |p| {
      assert (p + rest)[n] == p[n] && p[n] in p;
      CompWhole(p, rest, n + 1);
    } else if rest != [] {
      assert (p + rest)[n] == SLASH;
    }
  }

  lemma SkipOne(p: seq<byte>)
    requires OneComp(p)
    ensures Skip([SLASH] + p) == p && Skip(p) == p
  {
    assert ([SLASH] + p)[1..] == p && p[0] in p;
  }

  /** "/leaf" ends at leaf in the root. */
  lemma WalkOne(g: Geo, d: Disk, t: Tree, x: nat, leaf: seq<byte>)
    requires SafeWith(g, d, t) && x in t.dirs && OneComp(leaf)
    ensures leaf[0] != SLASH && Walk(g, d, t, x, leaf) == Some((x, leaf))
  {
    hide SafeWith;
    assert leaf[0] in leaf && leaf + [] == leaf;
    CompWhole(leaf, [], 0);
    assert leaf[|leaf|..] == [] && leaf[..|leaf|] == leaf;
  }

  /** "dir/leaf" ends at leaf in the directory dir leads to. */
  lemma WalkTwo(g: Geo, d: Disk, t: Tree, dir: seq<byte>, leaf: seq<byte>, c: nat)
    requires SafeWith(g, d, t) && 0 in t.dirs && OneComp(dir) && OneComp(leaf) && StepTo(g, d, t, 0, dir) == Some(c)
    ensures var p := dir + ([SLASH] + leaf);
            p[0] != SLASH && Walk(g, d, t, 0, p) == Some((c, leaf)) && Skip([SLASH] + p) == p
  {
    hide SafeWith, StepTo;
    var p := dir + ([SLASH] + leaf);
    assert p[0] == dir[0] && dir[0] in dir;
    CompWhole(dir, [SLASH] + leaf, 0);
    assert p[|dir|..] == [SLASH] + leaf && p[..|dir|] == dir;
    SkipOne(leaf);
    WalkOne(g, d, t, c, leaf);
    assert ([SLASH] + p)[1..] == p && Skip(p) == p;
  }

  // ---- one directory in the root

  /** What fat16_mkdir makes of a formatted volume: one directory c, at slot i of the root,
      that leaf leads to. */
  ghost predicate OneDir(g: Geo, d: Disk, t: Tree, leaf: seq<byte>, c: nat, i: nat) {
    && SafeWith(g, d, t) && g.Fits(d) && ChainsIn(g, t) && t.dirs.Keys == {0, c} && t.ents.Keys == {(0, i)}
    && c in t.par && t.par[c] == (0, i) && Clus(g, c)
    && t.dirs[c] == [c] && t.ents[(0, i)].chain == [c] && BareDir(Slots(g, d, t.dirs[c]), c, 0)
    && StepTo(g, d, t, 0, leaf) == Some(c)
    && Lookup(Slots(g, d, t.dirs[0]), leaf).Some? && Lookup(Slots(g, d, t.dirs[0]), leaf).value.idx == i
  }

  method MakeDir(v: Volume, leaf: seq<byte>) returns (ghost c: nat, ghost i: nat)
    requires Blank(v) && OneComp(leaf) && WellNamed(leaf) && NoZero(leaf)
    modifies v
    ensures v.Valid() && OneDir(v.g, v.disk, v.tree, leaf, c, i) && v.g.Count() >= 4
  {
    hide Slots, SafeWith, Full, LogOk, Coherent, Lookup, EntryUnits, WellNamed, NoMkdir, MadeDir, MakingSeen, Dotted,
        Unclaimed, Grew, PlainNames;
    ghost var d0, t0 := v.disk, v.tree;
    TreeFits(v.g, v.disk, v.tree);
    SkipOne(leaf);
    WalkOne(v.g, v.disk, v.tree, 0, leaf);
    WellUnits(leaf);
    BlankRoom(v, leaf);
    assert NoZero([SLASH] + leaf);
    var r;
    ghost var k;
    r, k := Mkdir(v, [SLASH] + leaf);
    MadeOne(v.g, d0, t0, v.disk, v.tree, leaf, k);
    c, i := v.tree.ents[k].chain[0], k.1;
  }

  lemma MadeOne(g: Geo, d: Disk, t: Tree, d': Disk, t': Tree, leaf: seq<byte>, k: Key)
    requires SafeWith(g, d, t) && SafeWith(g, d', t') && g.Fits(d) && g.Fits(d') && ChainsIn(g, t) && ChainsIn(g, t')
             && t == ROOT && WellNamed(leaf) && |leaf| < NAME_MAX
    requires MadeDir(g, d, t, d', t', 0, leaf, k)
    ensures k in t'.ents && |t'.ents[k].chain| == 1 && OneDir(g, d', t', leaf, t'.ents[k].chain[0], k.1)
  {
    hide Slots, SafeWith, WellNamed, Lookup, Listing, IsDir, BareDir, Table, NamesKept, Empty, Undotted;
    var s, s' := Slots(g, d, t.dirs[0]), Slots(g, d', t.dirs[0]);
    WellUnclaimed(s, leaf);
    ListedWell(s, leaf);
    MadeDiffer(g, d, t, d', t', 0, leaf, k);
    assert t'.dirs[t'.ents[k].chain[0]] == t'.ents[k].chain;
    assert t'.ents[k].chain == [t'.ents[k].chain[0]];
  }

  lemma BareDots(g: Geo, d: Disk, t: Tree, x: nat)
    requires SafeWith(g, d, t) && g.Fits(d) && ChainsIn(g, t) && x in t.dirs && x != 0
    requires forall y :: y in Listing(Slots(g, d, t.dirs[x])) && y.idx >= 2 ==> IsDots(y.name)
    ensures AllDots(Listing(Slots(g, d, t.dirs[x])))
  {
    hide Slots, SafeWith, Listing, ItemAt;
    SelfNames(g, d, t, x);
    forall y | y in Listing(Slots(g, d, t.dirs[x])) ensures IsDots(y.name) { ListedIs(Slots(g, d, t.dirs[x]), y); }
  }

  /** Formatting, mkdir "/A", remove "/A/.": the second call answers 0, and no tree is left
      on the disk. */
  method RemoveDot(v: Volume) returns (r: int)
    requires Blank(v)
    modifies v
    ensures r == 0 && v.g.Fits(v.disk) && forall t :: !SafeWith(v.g, v.disk, t)
  {
    hide Slots, SafeWith, Full, LogOk, Coherent, Lookup, EntryUnits, WellNamed, Removed, RemovalSeen, Grew, Sole;
    WellA();
    ghost var c, i;
    c, i := MakeDir(v, A);
    DotBad(v.g, v.disk, v.tree, c, i);
    WalkTwo(v.g, v.disk, v.tree, A, DOTS1, c);
    assert NoZero([SLASH] + (A + ([SLASH] + DOTS1)));
    r := Remove(v, [SLASH] + (A + ([SLASH] + DOTS1)));
  }

  lemma DotBad(g: Geo, d: Disk, t: Tree, c: nat, i: nat)
    requires OneDir(g, d, t, A, c, i)
    ensures c in t.dirs && Removable(g, d, t, c, DOTS1) && SelfLeaf(g, d, t, c, DOTS1)
  {
    hide Slots, SafeWith, Lookup, Listing, Live, ItemAt, IsDir, First;
    DotsFound(g, d, t, c);
    var s := Slots(g, d, t.dirs[c]);
    LookupIn(s, DOTS1);
    TargetIn(g, d, t, c, Lookup(s, DOTS1).value);
    forall y | y in Listing(s) ensures y.idx < 2 { ListedIs(s, y); }
    BareDots(g, d, t, c);
  }

  /** Formatting, mkdir "/.", remove "/./..": the same, by way of the parent. */
  method RemoveDotDot(v: Volume) returns (r: int)
    requires Blank(v)
    modifies v
    ensures r == 0 && v.g.Fits(v.disk) && forall t :: !SafeWith(v.g, v.disk, t)
  {
    hide Slots, SafeWith, Full, LogOk, Coherent, Lookup, EntryUnits, WellNamed, Removed, RemovalSeen, Grew, Sole;
    WellA();
    ghost var c, i;
    c, i := MakeDir(v, DOTS1);
    DotDotBad(v.g, v.disk, v.tree, c, i);
    WalkTwo(v.g, v.disk, v.tree, DOTS1, DOTS2, c);
    assert NoZero([SLASH] + (DOTS1 + ([SLASH] + DOTS2)));
    r := Remove(v, [SLASH] + (DOTS1 + ([SLASH] + DOTS2)));
  }

  lemma DotDotBad(g: Geo, d: Disk, t: Tree, c: nat, i: nat)
    requires OneDir(g, d, t, DOTS1, c, i)
    ensures c in t.dirs && Removable(g, d, t, c, DOTS2) && SelfLeaf(g, d, t, c, DOTS2)
  {
    hide Slots, SafeWith, Lookup, Listing, Live, ItemAt, IsDir, First, BareDir, StepTo;
    DotsFound(g, d, t, c);
    var s, r := Slots(g, d, t.dirs[c]), Slots(g, d, t.dirs[0]);
    LookupIn(s, DOTS2);
    TargetIn(g, d, t, c, Lookup(s, DOTS2).value);
    LookupIn(r, DOTS1);
    var y0 := Lookup(r, DOTS1).value;
    ListedIs(r, y0);
    UpperDots(y0.name);
    forall y | y in Listing(r) ensures IsDots(y.name) {
      ListedFile(g, d, t, 0, y);
      ListedIs(r, y);
    }
  }

  /** Formatting, mkdir "/A", a byte written to the file C0 AE in it, remove "/A": that file
      is listed as a full stop, so the directory counts as empty, and the cluster of the
      file stays marked for nobody. */
  method RemoveOverlong(v: Volume) returns (r: int)
    requires Blank(v)
    modifies v
    ensures r == 0 && v.Steady() && forall t :: !Full(v.g, v.disk, t)
  {
    hide Slots, SafeWith, Full, LogOk, Coherent, Lookup, EntryUnits, WellNamed, Removed, RemovalSeen, Grew, Sole,
        Written, Refused;
    hide Contents, EndsAt, Unclaimed, GoesBy, PlainNames, Dotted;
    WellA();
    ghost var c, i;
    c, i := MakeDir(v, A);
    ghost var d1, t1 := v.disk, v.tree;
    var name: seq<byte> := [0xC0, 0xAE];
    WalkTwo(v.g, v.disk, v.tree, A, name, c);
    assert NoZero([SLASH] + (A + ([SLASH] + name)));
    OverlongRoom(v.g, d1, t1, c, i);
    var n;
    ghost var k;
    n, k := Write(v, [SLASH] + (A + ([SLASH] + name)), [0x58]);
    OverlongBad(v.g, d1, t1, v.disk, v.tree, c, i, k);
    SkipOne(A);
    WalkOne(v.g, v.disk, v.tree, 0, A);
    assert NoZero([SLASH] + A);
    r := Remove(v, [SLASH] + A);
  }

  lemma OverlongRoom(g: Geo, d: Disk, t: Tree, c: nat, i: nat)
    requires Full(g, d, t) && OneDir(g, d, t, A, c, i) && g.Count() >= 4
    ensures c in t.dirs && !Refused(g, d, t, c, [0xC0, 0xAE], 1)
  {
    hide Slots, SafeWith, Lookup, Listing, IsDir, First, Table, EntryUnits, Live, Full, StepTo;
    WellA();
    var s := Slots(g, d, t.dirs[c]);
    NotListed(g, d, t, c, [0xC0, 0xAE]);
    var b := if c == 2 then 3 else 2;
    FreeThere(g, d, t, b);
    FreeSome(Table(g, d, 0), b);
    NeedEnough(g, 1);
    NeedOne(g);
    OneSec(g, c, 0);
    assert AllFree(s, 2, 2);
  }

  lemma NeedOne(g: Geo)
    requires 1 <= g.spc
    ensures Need(g, 1) == 1
  {
    NeedDef(g, 1);
    assert (1 + ClusBytes(g) - 1) / ClusBytes(g) == 1;
  }

  /** A name that does not begin with a dot leads nowhere in an empty directory; C0 AE does
      not, whatever it would be listed as. */
  lemma NotListed(g: Geo, d: Disk, t: Tree, c: nat, name: seq<byte>)
    requires SafeWith(g, d, t) && g.Fits(d) && ChainsIn(g, t) && c in t.dirs && c != 0
             && BareDir(Slots(g, d, t.dirs[c]), c, 0) && name != [] && name[0] in {0x42, 0xC0}
    ensures Lookup(Slots(g, d, t.dirs[c]), name).None?
  {
    hide Slots, SafeWith, Listing, Live, ItemAt, IsDir, First;
    var s := Slots(g, d, t.dirs[c]);
    SelfNames(g, d, t, c);
    forall y | y in Listing(s) ensures !NameEq(y.name, name) {
      ListedIs(s, y);
      assert Upper(name)[0] == name[0] && Upper(DOTS1)[0] == 0x2E && Upper(DOTS2)[0] == 0x2E;
    }
  }

  lemma OverlongBad(g: Geo, d: Disk, t: Tree, d': Disk, t': Tree, c: nat, i: nat, k: Key)
    requires SafeWith(g, d', t') && Full(g, d', t') && g.Fits(d') && ChainsIn(g, t') && OneDir(g, d, t, A, c, i)
             && Written(g, d, t, d', t', c, [0xC0, 0xAE], [0x58], k)
    ensures 0 in t'.dirs && Removable(g, d', t', 0, A) && !SelfLeaf(g, d', t', 0, A) && Bad(g, d', t', 0, A)
  {
    hide Slots, SafeWith, Lookup, Listing, Table, EntryUnits, Live, Full, StepTo, ListedAs, BareDir, NamesKept,
        Undotted, IsDir, First, Size, FileBytes;
    var name: seq<byte> := [0xC0, 0xAE];
    var s, s' := Slots(g, d, t.dirs[c]), Slots(g, d', t.dirs[c]);
    OverlongListed(s);
    BarePlainly(g, d, t, c);
    NotListed(g, d, t, c, [0xC0, 0xAE]);
    assert Dotted(s, c, name);
    assert t.dirs[0] == t.dirs[0];
    OverlongAll(g, d', t', c, k);
    LookupIn(Slots(g, d', t'.dirs[0]), A);
    var y := Lookup(Slots(g, d', t'.dirs[0]), A).value;
    ListedFile(g, d', t', 0, y);
    KeyFacts(g, d', t', (0, i));
    StepFirst(g, d, t, A, c, i);
    OneByte(g, d', t', k);
    assert k in t'.ents && k.0 == c && t'.ents[k].chain != [];
  }

  lemma StepFirst(g: Geo, d: Disk, t: Tree, leaf: seq<byte>, c: nat, i: nat)
    requires OneDir(g, d, t, leaf, c, i)
    ensures IsDir(t.ents[(0, i)].slot) && First(t.ents[(0, i)].slot) == c
  {
    hide Slots, SafeWith, Listing, BareDir, Lookup, IsDir, First;
    LookupIn(Slots(g, d, t.dirs[0]), leaf);
    ListedFile(g, d, t, 0, Lookup(Slots(g, d, t.dirs[0]), leaf).value);
  }

  lemma OneByte(g: Geo, d: Disk, t: Tree, k: Key)
    requires Full(g, d, t) && k in t.ents && HasData(t.ents[k], [0x58])
    ensures t.ents[k].chain != []
  {
    hide SafeWith, FileBytes, Size, IsDir, Copies, Exact, TidyAt, Need;
    FullSafe(g, d, t);
    TreeFits(g, d, t);
    assert Sized(g, t.ents[k]);
    NeedOne(g);
  }

  lemma BarePlainly(g: Geo, d: Disk, t: Tree, c: nat)
    requires g.Fits(d) && c in t.dirs && ChainIn(g, t.dirs[c]) && BareDir(Slots(g, d, t.dirs[c]), c, 0)
    ensures Undotted(Listing(Slots(g, d, t.dirs[c])))
  {
    BarePlain(Slots(g, d, t.dirs[c]));
  }

  lemma OverlongListed(s: seq<Slot>)
    ensures ListedAs(s, [0xC0, 0xAE]) == DOTS1
  {
    hide ShortName, NewEntry, Listing, EntryUnits;
    WellA();
    var u: seq<nat> := [0x2E];
    StopAll(u, 0);
    assert Shown(u) == u;
    assert Bytes(u, 1) == [] && Bytes(u, 0) == DOTS1;
  }

  lemma OverlongAll(g: Geo, d: Disk, t: Tree, c: nat, k: Key)
    requires SafeWith(g, d, t) && g.Fits(d) && ChainsIn(g, t) && c in t.dirs && c != 0 && k.0 == c
    requires (forall q :: q in t.ents && q.0 == c ==> q == k) && !Undotted(Listing(Slots(g, d, t.dirs[c])))
    ensures AllDots(Listing(Slots(g, d, t.dirs[c])))
  {
    hide Slots, SafeWith, Listing, ItemAt;
    var s := Slots(g, d, t.dirs[c]);
    var y0 :| y0 in Listing(s) && y0.idx >= 2 && IsDots(y0.name);
    ListedFile(g, d, t, c, y0);
    ListedIs(s, y0);
    forall y | y in Listing(s) && y.idx >= 2 ensures IsDots(y.name) {
      ListedFile(g, d, t, c, y);
      ListedIs(s, y);
    }
    BareDots(g, d, t, c);
  }

  // ---- a name that does not fit

  /** A name as long as names can be. */
  const LONG: seq<byte> := seq(95, _ => 0x41)

  lemma {:induction false} EncAs(n: nat)
    ensures Enc8(seq(n, _ => 0x41)) == seq(n, _ => 0x41)
  {
    var s: seq<nat> := seq(n, _ => 0x41);
    if n > 0 {
      EncAs(n - 1);
      assert s[1..] == seq(n - 1, _ => 0x41);
    }
  }

  lemma LongIs()
    ensures OneComp(LONG) && NoZero(LONG) && WellNamed(LONG)
  {
    var cs: seq<nat> := seq(95, _ => 0x41);
    EncAs(95);
    assert CodePoints(cs) && Enc8(cs) == LONG;
  }

  const B: seq<byte> := [0x42]

  lemma OneCut(leaf: seq<byte>)
    requires OneComp(leaf)
    ensures leaf[0] != SLASH && Cuts(leaf) == [leaf]
  {
    assert leaf[0] in leaf && leaf + [] == leaf;
    CompWhole(leaf, [], 0);
    assert leaf[|leaf|..] == [] && leaf[..|leaf|] == leaf;
  }

  /** One byte more than the buffer takes, */
  lemma LongCuts(name: seq<byte>, leaf: seq<byte>)
    requires OneComp(name) && OneComp(leaf) && |name| == NAME_MAX - 1
    ensures name[0] != SLASH && Skip([SLASH] + (name + leaf)) == name + leaf && SLASH !in name + leaf
    ensures Cuts(name + leaf) == [name, leaf]
  {
    hide Cuts, CompLen, PartLen;
    var p := name + leaf;
    assert forall b :: b in p ==> b in name || b in leaf;
    assert p[0] in p && p[0] == name[0];
    assert ([SLASH] + p)[1..] == p;
    SkipStays(p);
    assert forall i :: 0 <= i < |p| ==> p[i] in p;
    LengthIs(p, |p|);
    assert p[..|name|] == name && p[|name|..] == leaf;
    CutsStep(p);
    OneCut(leaf);
    SkipStays(leaf);
  }

  /** and the same path with a slash there. */
  lemma SlashCuts(name: seq<byte>, leaf: seq<byte>)
    requires OneComp(name) && OneComp(leaf) && |name| == NAME_MAX - 1
    ensures name[0] != SLASH && Cuts(name + ([SLASH] + leaf)) == [name, leaf]
  {
    hide Cuts, PartLen;
    var q := name + ([SLASH] + leaf);
    assert name[0] in name && q[0] == name[0];
    CompWhole(name, [SLASH] + leaf, 0);
    assert q[..|name|] == name && q[|name|..] == [SLASH] + leaf;
    CutsStep(q);
    SkipOne(leaf);
    OneCut(leaf);
  }

  lemma SameCuts(name: seq<byte>, leaf: seq<byte>)
    requires OneComp(name) && OneComp(leaf) && |name| == NAME_MAX - 1
    ensures name[0] != SLASH && Skip([SLASH] + (name + leaf)) == name + leaf
    ensures Cuts(name + leaf) == [name, leaf] == Cuts(name + ([SLASH] + leaf))
    ensures SLASH !in name + leaf
  {
    hide Cuts, Skip, OneComp;
    LongCuts(name, leaf);
    SlashCuts(name, leaf);
  }

  /** Formatting, mkdir of a name of 95 bytes, a byte written to that name with a B behind
      it: the byte is then in the file B of the new directory. */
  method WriteLong(v: Volume) returns (r: int)
    requires Blank(v)
    modifies v
    ensures r == 1 && v.Valid() && SafeWith(v.g, v.disk, v.tree) && 0 in v.tree.dirs
    ensures var c := StepTo(v.g, v.disk, v.tree, 0, LONG);
            c.Some? && Held(v.g, v.disk, v.tree, c.value, B) == Some([0x58])
    ensures SLASH !in LONG + B && Contents(v.g, v.disk, v.tree, [SLASH] + (LONG + B)) == Some([0x58])
  {
    hide Slots, SafeWith, Full, LogOk, Coherent, Lookup, EntryUnits, WellNamed, Grew, Written, Refused, Unclaimed,
        GoesBy, EndsAt, PlainNames, Dotted, Walk, Held, StepTo, Contents;
    WellB();
    LongIs();
    SameCuts(LONG, B);
    ghost var c, i;
    c, i := MakeDir(v, LONG);
    ghost var d1, t1 := v.disk, v.tree;
    TreeFits(v.g, v.disk, v.tree);
    WalkLong(v.g, v.disk, v.tree, c);
    LongRoom(v.g, d1, t1, c, i);
    var path := [SLASH] + (LONG + B);
    assert NoZero(path);
    ghost var k;
    r, k := Write(v, path, [0x58]);
    LongLands(v.g, d1, t1, v.disk, v.tree, c, i, k);
    LongHeld(v.g, v.disk, v.tree, c);
  }

  lemma WellB()
    ensures WellNamed(B) && OneComp(B) && EntryUnits(B) == Some([])
  {
    var b: seq<nat> := [0x42];
    assert CodePoints(b) && Enc8(b[1..]) == [] && Enc8(b) == B;
    assert Base(B[1..]) == [] && Base(B) == B;
  }

  lemma WalkLong(g: Geo, d: Disk, t: Tree, c: nat)
    requires SafeWith(g, d, t) && 0 in t.dirs && StepTo(g, d, t, 0, LONG) == Some(c)
    ensures LONG[0] != SLASH && Walk(g, d, t, 0, LONG + B) == Some((c, B))
  {
    hide SafeWith, StepTo, Walk;
    LongIs();
    WellB();
    SameCuts(LONG, B);
    WalkCuts(g, d, t, 0, LONG + B);
    assert [LONG, B][1..] == [B];
  }

  lemma LongRoom(g: Geo, d: Disk, t: Tree, c: nat, i: nat)
    requires Full(g, d, t) && OneDir(g, d, t, LONG, c, i) && g.Count() >= 4
    ensures c in t.dirs && !Refused(g, d, t, c, B, 1)
  {
    hide Slots, SafeWith, Lookup, Listing, IsDir, First, Table, EntryUnits, Live, Full, StepTo;
    WellB();
    var s := Slots(g, d, t.dirs[c]);
    NotListed(g, d, t, c, B);
    var b := if c == 2 then 3 else 2;
    FreeThere(g, d, t, b);
    FreeSome(Table(g, d, 0), b);
    NeedEnough(g, 1);
    NeedOne(g);
    OneSec(g, c, 0);
    assert AllFree(s, 2, 1);
  }

  lemma LongLands(g: Geo, d: Disk, t: Tree, d': Disk, t': Tree, c: nat, i: nat, k: Key)
    requires SafeWith(g, d, t) && SafeWith(g, d', t') && g.Fits(d') && OneDir(g, d, t, LONG, c, i)
             && Written(g, d, t, d', t', c, B, [0x58], k)
    ensures 0 in t'.dirs && StepTo(g, d', t', 0, LONG) == Some(c)
  {
    hide Slots, SafeWith, Lookup, Listing, NamesKept, FileBytes, Size, BareDir, IsDir, First;
    assert t.dirs[0] == t.dirs[0];
  }

  lemma LongHeld(g: Geo, d: Disk, t: Tree, c: nat)
    requires SafeWith(g, d, t) && 0 in t.dirs && StepTo(g, d, t, 0, LONG) == Some(c)
    ensures SLASH !in LONG + B && Contents(g, d, t, [SLASH] + (LONG + B)) == Held(g, d, t, c, B)
  {
    hide SafeWith, StepTo, Walk, Held;
    LongIs();
    WellB();
    SameCuts(LONG, B);
    WalkLong(g, d, t, c);
    TreeFits(g, d, t);
  }
}
