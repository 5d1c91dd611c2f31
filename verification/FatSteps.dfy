/** Every write src/fat16.c makes, and which tree the image it leaves describes. */
module FatSteps {
  import opened FatNames
  import opened FatScan
  import opened FatDisk
  import opened FatTree

  // ---- what a write leaves alone

  lemma TableAt(g: Geo, d: Disk, f: nat, c: nat)
    requires g.Fits(d) && f < g.nfats && c < g.Count()
    ensures FatLba(g, f, c / 256) < |d| && Table(g, d, f)[c] == FatAt(g, d, f, c)
  {
    FatIn(g, d, f, c);
  }

  lemma TablePut(g: Geo, d: Disk, f: nat, c: nat, v: nat, f': nat)
    requires g.Fits(d) && f < g.nfats && f' < g.nfats && c < g.Count() && v < 0x10000
    ensures FatLba(g, f, c / 256) < |d|
    ensures Table(g, PutFat(g, d, f, c, v), f') == if f == f' then Table(g, d, f)[c := v] else Table(g, d, f')
  {
    hide FatAt, PutFat;
    FatIn(g, d, f, c);
    var d' := PutFat(g, d, f, c, v);
    PutFatIs(g, d, f, c, v);
    forall c' | 0 <= c' < g.Count() ensures Table(g, d', f')[c'] == if f == f' && c == c' then v
        else Table(g, d, f')[c'] {
      TableAt(g, d, f', c');
      TableAt(g, d', f', c');
      PutFatAt(g, d, f, c, v, f', c');
    }
  }

  /** The table sector fat_set writes back. */
  function FatSector(g: Geo, d: Disk, f: nat, c: nat, v: nat): Sector
    requires FatLba(g, f, c / 256) < |d| && v < 0x10000
  {
    Put16(d[FatLba(g, f, c / 256)], c % 256 * 2, v)
  }

  lemma PutFatIs(g: Geo, d: Disk, f: nat, c: nat, v: nat)
    requires FatLba(g, f, c / 256) < |d| && v < 0x10000
    ensures PutFat(g, d, f, c, v) == d[FatLba(g, f, c / 256) := FatSector(g, d, f, c, v)]
  {
  }

  lemma TableKept(g: Geo, d: Disk, lba: nat, s: Sector, f: nat)
    requires g.Fits(d) && g.RootStart() <= lba < |d| && f < g.nfats
    ensures Table(g, d[lba := s], f) == Table(g, d, f)
  {
    hide FatAt;
    var d' := d[lba := s];
    forall c | 0 <= c < g.Count() ensures Table(g, d', f)[c] == Table(g, d, f)[c] {
      TableAt(g, d, f, c);
      TableAt(g, d', f, c);
      DataWriteFat(g, d, lba, s, f, c);
    }
  }

  ghost predicate Misses(g: Geo, ch: seq<nat>, lba: nat)
    requires g.Ok() && ChainIn(g, ch)
  {
    forall n {:trigger SecLba(g, ch, n)} :: 0 <= n < Secs(g, ch) ==> SecLba(g, ch, n) != lba
  }

  lemma SecsKept(g: Geo, d: Disk, lba: nat, s: Sector, ch: seq<nat>)
    requires g.Fits(d) && ChainIn(g, ch) && lba < |d| && Misses(g, ch, lba)
    ensures Slots(g, d[lba := s], ch) == Slots(g, d, ch)
    ensures Body(g, d[lba := s], ch) == Body(g, d, ch)
  {
    var d' := d[lba := s];
    forall n | 0 <= n < Secs(g, ch) ensures SecLba(g, ch, n) < |d| && d'[SecLba(g, ch, n)] == d[SecLba(g, ch, n)] {
      SecPlace(g, d, ch, n);
    }
    SlotsFrame(g, d, d', ch);
    BodyFrame(g, d, d', ch);
  }

  lemma BodyFrame(g: Geo, d: Disk, d': Disk, ch: seq<nat>)
    requires g.Fits(d) && g.Fits(d') && ChainIn(g, ch) && |d'| == |d|
    requires forall n {:trigger SecLba(g, ch, n)} ::
             0 <= n < Secs(g, ch) ==> SecLba(g, ch, n) < |d| && d'[SecLba(g, ch, n)] == d[SecLba(g, ch, n)]
    ensures Body(g, d', ch) == Body(g, d, ch)
  {
  }

  lemma EmptyBody(g: Geo, d: Disk, lba: nat, s: Sector)
    requires g.Fits(d) && lba < |d|
    ensures Body(g, d[lba := s], []) == Body(g, d, [])
  {
  }

  lemma FatMisses(g: Geo, d: Disk, ch: seq<nat>, lba: nat)
    requires g.Fits(d) && ChainIn(g, ch) && lba < g.RootStart()
    ensures Misses(g, ch, lba)
  {
    forall n | 0 <= n < Secs(g, ch) ensures SecLba(g, ch, n) != lba {
      SecPlace(g, d, ch, n);
    }
  }

  /** A sector of cluster c belongs to no chain that leaves c out. */
  lemma DataMisses(g: Geo, d: Disk, ch: seq<nat>, c: nat, k: nat)
    requires g.Fits(d) && ChainIn(g, ch) && Clus(g, c) && k < g.spc && c !in ch
    ensures Misses(g, ch, DataLba(g, c, k)) && g.DataStart() <= DataLba(g, c, k) < |d|
  {
    hide DataLba, SecLba, Secs;
    DataPlace(g, d, c, k);
    forall n | 0 <= n < Secs(g, ch) ensures SecLba(g, ch, n) != DataLba(g, c, k) {
      SecPlace(g, d, ch, n);
      if ch != [] && SecLba(g, ch, n) == DataLba(g, c, k) {
        DataApart(g, ch[n / g.spc], n % g.spc, c, k);
      }
    }
  }

  lemma ApartMisses(g: Geo, d: Disk, ch: seq<nat>, n: nat, ch': seq<nat>)
    requires g.Fits(d) && ChainIn(g, ch) && ChainIn(g, ch') && n < Secs(g, ch) && Apart(ch, ch')
    ensures Misses(g, ch', SecLba(g, ch, n))
  {
    forall n' | 0 <= n' < Secs(g, ch') ensures SecLba(g, ch', n') != SecLba(g, ch, n) {
      SecApart(g, d, ch, n, ch', n');
    }
  }

  // ---- writes that change no tree

  /** A sector no directory and no file lies on may hold anything. */
  lemma SafeSecWrite(g: Geo, d: Disk, t: Tree, lba: nat, s: Sector)
    requires SafeWith(g, d, t) && lba < |d|
    requires forall x {:trigger t.dirs[x]} :: x in t.dirs ==> Misses(g, t.dirs[x], lba)
    requires forall k {:trigger t.ents[k]} ::
             k in t.ents && t.ents[k].chain != [] && !IsDir(t.ents[k].slot) ==> Misses(g, t.ents[k].chain, lba)
    requires forall k {:trigger t.ents[k]} :: k in t.ents ==> IsChain(Table(g, d[lba := s], 0), t.ents[k].chain)
    ensures SafeWith(g, d[lba := s], t)
  {
    hide Shape, Misses, Live, Body, Slots, Table, IsChain;
    var d' := d[lba := s];
    forall k | k in t.ents && !IsDir(t.ents[k].slot)
        ensures Body(g, d', t.ents[k].chain) == Body(g, d, t.ents[k].chain) {
      if t.ents[k].chain == [] { EmptyBody(g, d, lba, s); } else { SecsKept(g, d, lba, s, t.ents[k].chain); }
    }
    forall x | x in t.dirs ensures SlotsBut(Slots(g, d, t.dirs[x]), Slots(g, d', t.dirs[x]), x, {}) {
      SecsKept(g, d, lba, s, t.dirs[x]);
    }
    ChangeNone(t);
    SafeStep(g, d, t, d', t, {});
  }

  lemma ChangeNone(t: Tree)
    requires Shape(t)
    ensures Change(t, t, {})
  {
    forall k | k in t.ents ensures k.0 in t.dirs { assert EntShape(t, k); }
    forall x | x in t.dirs && x != 0 ensures x in t.par { assert DirShape(t, x); }
  }

  lemma TreeMissesFree(g: Geo, d: Disk, t: Tree, c: nat, k: nat)
    requires SafeWith(g, d, t) && Clus(g, c) && k < g.spc && !Owned(t, c)
    ensures var lba := DataLba(g, c, k);
            && g.RootStart() <= lba < |d|
            && (forall x {:trigger t.dirs[x]} :: x in t.dirs ==> Misses(g, t.dirs[x], lba))
            && (forall k {:trigger t.ents[k]} :: k in t.ents ==> Misses(g, t.ents[k].chain, lba))
  {
    hide Misses, DataLba, Live, Slots, Body, IsChain;
    DataMisses(g, d, [], c, k);
    forall x | x in t.dirs ensures Misses(g, t.dirs[x], DataLba(g, c, k)) {
      assert DirShape(t, x);
      DataMisses(g, d, t.dirs[x], c, k);
    }
    forall q | q in t.ents ensures Misses(g, t.ents[q].chain, DataLba(g, c, k)) {
      DataMisses(g, d, t.ents[q].chain, c, k);
    }
  }

  lemma ChainsKept(g: Geo, d: Disk, t: Tree, d': Disk)
    requires SafeWith(g, d, t) && g.Fits(d') && forall c: nat {:trigger Owned(t, c)} ::
             c < g.Count() && Owned(t, c) ==> Table(g, d', 0)[c] == Table(g, d, 0)[c]
    ensures forall k {:trigger t.ents[k]} :: k in t.ents ==> IsChain(Table(g, d', 0), t.ents[k].chain)
  {
    hide Shape, Live, Slots, Body, Table, IsChain;
    forall k | k in t.ents ensures IsChain(Table(g, d', 0), t.ents[k].chain) {
      assert IsChain(Table(g, d, 0), t.ents[k].chain);
      assert forall c :: c in t.ents[k].chain ==> Owned(t, c);
      ChainFrame(Table(g, d, 0), Table(g, d', 0), t.ents[k].chain);
    }
  }

  /** Data written to a cluster nothing owns. */
  lemma SafeDataWrite(g: Geo, d: Disk, t: Tree, c: nat, k: nat, s: Sector)
    requires SafeWith(g, d, t) && Clus(g, c) && k < g.spc && !Owned(t, c)
    ensures g.RootStart() <= DataLba(g, c, k) < |d| && SafeWith(g, d[DataLba(g, c, k) := s], t)
  {
    hide Misses, DataLba, Shape, OnDisk, Table, IsChain, Owned;
    TreeMissesFree(g, d, t, c, k);
    var lba := DataLba(g, c, k);
    TableKept(g, d, lba, s, 0);
    ChainsKept(g, d, t, d[lba := s]);
    SafeSecWrite(g, d, t, lba, s);
  }

  /** A table entry of a cluster nothing owns, or of a copy nobody reads. */
  lemma SafeFatWrite(g: Geo, d: Disk, t: Tree, f: nat, c: nat, v: nat)
    requires SafeWith(g, d, t) && f < g.nfats && c < g.Count() && v < 0x10000 && (f != 0 || !Owned(t, c))
    ensures FatLba(g, f, c / 256) < |d| && SafeWith(g, PutFat(g, d, f, c, v), t)
  {
    hide Misses, FatLba, Shape, OnDisk, Table, IsChain, Owned, PutFat;
    FatIn(g, d, f, c);
    PutFatIs(g, d, f, c, v);
    TablePut(g, d, f, c, v, 0);
    var lba := FatLba(g, f, c / 256);
    var s := FatSector(g, d, f, c, v);
    ChainsKept(g, d, t, d[lba := s]);
    TreeMissesFat(g, d, t, lba);
    SafeSecWrite(g, d, t, lba, s);
  }

  lemma TreeMissesFat(g: Geo, d: Disk, t: Tree, lba: nat)
    requires SafeWith(g, d, t) && lba < g.RootStart()
    ensures forall x {:trigger t.dirs[x]} :: x in t.dirs ==> Misses(g, t.dirs[x], lba)
    ensures forall k {:trigger t.ents[k]} :: k in t.ents ==> Misses(g, t.ents[k].chain, lba)
  {
    hide Misses, Live, Slots, Body, IsChain, Shape;
    forall x | x in t.dirs ensures Misses(g, t.dirs[x], lba) {
      FatMisses(g, d, t.dirs[x], lba);
    }
    forall q | q in t.ents ensures Misses(g, t.ents[q].chain, lba) {
      FatMisses(g, d, t.ents[q].chain, lba);
    }
  }
}
