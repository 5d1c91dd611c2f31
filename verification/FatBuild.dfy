/** Building the chain of a file before anything points at it. */
module FatBuild {
  import opened Common
  import opened FatDisk
  import opened FatTree
  import opened FatSteps
  import opened FatFull

  /** Only sectors of cluster c differ. */
  ghost predicate OnlyCluster(g: Geo, d: Disk, d': Disk, c: nat)
    requires 2 <= c
  {
    |d'| == |d| && forall lba {:trigger d'[lba]} :: 0 <= lba < |d| && !InCluster(g, c, lba) ==> d'[lba] == d[lba]
  }

  ghost predicate InCluster(g: Geo, c: nat, lba: nat)
    requires 2 <= c
  {
    DataLba(g, c, 0) <= lba < DataLba(g, c, g.spc)
  }

  lemma InClusterAt(g: Geo, c: nat, k: nat)
    requires 2 <= c && k < g.spc
    ensures InCluster(g, c, DataLba(g, c, k))
  {
  }

  lemma ClusterMisses(g: Geo, d: Disk, ch: seq<nat>, c: nat, n: nat)
    requires g.Fits(d) && ChainIn(g, ch) && Clus(g, c) && c !in ch && n < Secs(g, ch)
    ensures SecLba(g, ch, n) < |d| && !InCluster(g, c, SecLba(g, ch, n))
  {
    hide SecLba, Secs;
    SecPlace(g, d, ch, n);
    var lba := SecLba(g, ch, n);
    if InCluster(g, c, lba) {
      var k := lba - DataLba(g, c, 0);
      assert lba == DataLba(g, c, k);
      DataMisses(g, d, ch, c, k);
    }
  }

  lemma OnlyKept(g: Geo, d: Disk, d': Disk, c: nat, ch: seq<nat>)
    requires g.Fits(d) && ChainIn(g, ch) && Clus(g, c) && c !in ch && OnlyCluster(g, d, d', c)
    ensures g.Fits(d') && Slots(g, d', ch) == Slots(g, d, ch) && Body(g, d', ch) == Body(g, d, ch)
  {
    hide InCluster;
    forall n | 0 <= n < Secs(g, ch) ensures SecLba(g, ch, n) < |d| && d'[SecLba(g, ch, n)] == d[SecLba(g, ch, n)] {
      ClusterMisses(g, d, ch, c, n);
    }
    SlotsFrame(g, d, d', ch);
    BodyFrame(g, d, d', ch);
  }

  lemma OnlyTable(g: Geo, d: Disk, d': Disk, c: nat, f: nat)
    requires g.Fits(d) && Clus(g, c) && OnlyCluster(g, d, d', c) && f < g.nfats
    ensures g.Fits(d') && Table(g, d', f) == Table(g, d, f)
  {
    hide FatAt, FatLba;
    DataPlace(g, d, c, 0);
    forall b | 0 <= b < g.Count() ensures Table(g, d', f)[b] == Table(g, d, f)[b] {
      TableAt(g, d, f, b);
      TableAt(g, d', f, b);
      FatIn(g, d, f, b);
      SameFat(g, d, d', f, b);
    }
  }

  lemma SameFat(g: Geo, d: Disk, d': Disk, f: nat, b: nat)
    requires FatLba(g, f, b / 256) < |d| && |d'| == |d| && d'[FatLba(g, f, b / 256)] == d[FatLba(g, f, b / 256)]
    ensures FatAt(g, d', f, b) == FatAt(g, d, f, b)
  {
  }

  ghost predicate SlotsKept(g: Geo, d: Disk, d': Disk, t: Tree)
    requires g.Fits(d) && g.Fits(d') && ChainsIn(g, t)
  {
    forall y {:trigger t.dirs[y]} :: y in t.dirs ==> Slots(g, d', t.dirs[y]) == Slots(g, d, t.dirs[y])
  }

  lemma DirLacks(t: Tree, x: nat, c: nat)
    requires Shape(t) && x in t.dirs && !Owned(t, c)
    ensures c !in t.dirs[x]
  {
    assert DirShape(t, x);
  }

  /** The new chain nc is linked in every copy and holds the first clusters of data. */
  ghost predicate Building(g: Geo, d0: Disk, d: Disk, t: Tree, nc: seq<nat>, data: seq<byte>)
    requires g.Fits(d0) && ChainsIn(g, t)
  {
    && g.Fits(d) && ChainIn(g, nc) && SlotsKept(g, d0, d, t)
    && (forall f {:trigger Table(g, d, f)} :: 0 <= f < g.nfats ==> Linked(Table(g, d0, f), Table(g, d, f), nc))
    && Body(g, d, nc) == Chunks(data, |nc| * g.spc)
  }

  lemma BuildStart(g: Geo, d: Disk, t: Tree, data: seq<byte>)
    requires g.Fits(d) && ChainsIn(g, t)
    ensures Building(g, d, d, t, [], data)
  {
    assert Chunks(data, 0) == [];
  }

  /** The table half of one round: the cluster marked, then linked to its predecessor. */
  ghost predicate TableStep(g: Geo, d: Disk, d': Disk, nc: seq<nat>, c: nat)
    requires g.Fits(d) && Clus(g, c) && ChainIn(g, nc)
  {
    && DataKept(g, d, d') && g.Fits(d')
    && forall f {:trigger Table(g, d', f)} :: 0 <= f < g.nfats ==>
         Table(g, d', f) == if nc == [] then Table(g, d, f)[c := FAT_EOC]
             else Table(g, d, f)[c := FAT_EOC][nc[|nc| - 1] := c]
  }

  lemma BuildNext(g: Geo, d0: Disk, d: Disk, d1: Disk, d2: Disk, t: Tree, nc: seq<nat>, c: nat, data: seq<byte>)
    requires g.Fits(d0) && Shape(t) && ChainsIn(g, t) && Building(g, d0, d, t, nc, data) && Clus(g, c) && !Owned(t, c)
    requires forall f {:trigger Table(g, d, f)} :: 0 <= f < g.nfats ==> Table(g, d, f)[c] == FAT_FREE
    requires TableStep(g, d, d1, nc, c) && OnlyCluster(g, d1, d2, c)
    requires forall k {:trigger DataLba(g, c, k)} ::
             0 <= k < g.spc ==> DataLba(g, c, k) < |d2| && d2[DataLba(g, c, k)] == Chunk(data, |nc| * g.spc + k)
    ensures Building(g, d0, d2, t, nc + [c], data)
  {
    hide Slots, Table, Body, Linked, Shape, Owned, OnlyCluster, DataKept, Chunk, Distinct, DataLba;
    assert Table(g, d, 0)[c] == FAT_FREE;
    LinkStep(Table(g, d0, 0), Table(g, d, 0), nc, c);
    assert c !in nc;
    OnlyTable(g, d1, d2, c, 0);
    forall f | 0 <= f < g.nfats ensures Linked(Table(g, d0, f), Table(g, d2, f), nc + [c]) {
      assert Linked(Table(g, d0, f), Table(g, d, f), nc) && Table(g, d, f)[c] == FAT_FREE;
      LinkStep(Table(g, d0, f), Table(g, d, f), nc, c);
      OnlyTable(g, d1, d2, c, f);
      assert Table(g, d1, f) == Table(g, d1, f);
    }
    forall y | y in t.dirs ensures Slots(g, d2, t.dirs[y]) == Slots(g, d0, t.dirs[y]) {
      DirLacks(t, y, c);
      KeptChain(g, d, d1, t.dirs[y]);
      OnlyKept(g, d1, d2, c, t.dirs[y]);
    }
    KeptChain(g, d, d1, nc);
    OnlyKept(g, d1, d2, c, nc);
    BodySnoc(g, d2, nc, c, data);
  }

  lemma BodyAt(g: Geo, d: Disk, ch: seq<nat>, n: nat)
    requires g.Fits(d) && ChainIn(g, ch) && n < |ch| * g.spc
    ensures n / g.spc < |ch| && DataLba(g, ch[n / g.spc], n % g.spc) < |d|
            && Body(g, d, ch)[n] == d[DataLba(g, ch[n / g.spc], n % g.spc)]
  {
    hide DataLba;
    assert ch == [] ==> |ch| * g.spc == 0;
    SecPlace(g, d, ch, n);
  }

  lemma DivInside(a: nat, k: nat, m: nat)
    requires k < m
    ensures (a * m + k) / m == a && (a * m + k) % m == k
  {
    var n := a * m + k;
    assert n == m * (n / m) + n % m;
    if n / m < a { MulStep(n / m, a, m); }
    if a < n / m { MulStep(a, n / m, m); }
  }

  lemma BodySnoc(g: Geo, d: Disk, nc: seq<nat>, c: nat, data: seq<byte>)
    requires g.Fits(d) && ChainIn(g, nc) && Clus(g, c) && Body(g, d, nc) == Chunks(data, |nc| * g.spc)
    requires forall k {:trigger DataLba(g, c, k)} ::
             0 <= k < g.spc ==> DataLba(g, c, k) < |d| && d[DataLba(g, c, k)] == Chunk(data, |nc| * g.spc + k)
    ensures ChainIn(g, nc + [c]) && Body(g, d, nc + [c]) == Chunks(data, |nc + [c]| * g.spc)
  {
    hide Body, DataLba, Chunk;
    var ch := nc + [c];
    assert |ch| * g.spc == |nc| * g.spc + g.spc;
    forall n | 0 <= n < |ch| * g.spc ensures Body(g, d, ch)[n] == Chunks(data, |ch| * g.spc)[n] {
      BodyAt(g, d, ch, n);
      if n < |nc| * g.spc {
        BodyAt(g, d, nc, n);
        assert Body(g, d, nc)[n] == Chunks(data, |nc| * g.spc)[n];
      } else {
        var k := n - |nc| * g.spc;
        DivInside(|nc|, k, g.spc);
      }
    }
  }

  /** The chain given up: the tables are what they were. */
  lemma BuildUndo(g: Geo, d0: Disk, d: Disk, t: Tree, nc: seq<nat>, data: seq<byte>, f: nat)
    requires g.Fits(d0) && ChainsIn(g, t) && Building(g, d0, d, t, nc, data) && f < g.nfats
    ensures FreedTab(Table(g, d, f), nc) == Table(g, d0, f)
  {
    hide Slots, Body, Table, Linked;
    assert Linked(Table(g, d0, f), Table(g, d, f), nc);
    LinkUndo(Table(g, d0, f), Table(g, d, f), nc);
  }
}
