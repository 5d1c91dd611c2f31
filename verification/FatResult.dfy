/** Whole operations put together: the volume is sound again after each. */
module FatResult {
  import opened Common
  import opened Utf
  import opened FatNames
  import opened FatScan
  import opened FatDisk
  import opened FatTree
  import opened FatCommit
  import opened FatFull
  import opened FatCreate
  import opened FatBuild

  // ---- names after an operation

  /** Every name but leaf still leads to the slot it led to. */
  ghost predicate NamesKept(s: seq<Slot>, s': seq<Slot>, leaf: seq<byte>) {
    forall n {:trigger Lookup(s', n)} :: !NameEq(n, leaf) ==>
      (Lookup(s', n).Some? <==> Lookup(s, n).Some?)
          && (Lookup(s, n).Some? ==> Lookup(s', n).value.idx == Lookup(s, n).value.idx)
  }

  lemma FindInsert(pre: seq<Item>, x: Item, post: seq<Item>, n: seq<byte>)
    ensures Find(pre + [x] + post, n) == if Find(pre, n).Some? then Find(pre, n)
            else if NameEq(x.name, n) then Some(x) else Find(post, n)
  {
    FindConcat(pre + [x], post, n);
    FindConcat(pre, [x], n);
  }

  lemma LookupUpdate(s: seq<Slot>, x: Item, e: Slot, leaf: seq<byte>)
    requires Tidy(s) && Lookup(s, leaf) == Some(x) && e[..26] == x.ent[..26]
    ensures x.idx < |s| && Lookup(s[x.idx := e], leaf) == Some(x.(ent := e)) && NamesKept(s, s[x.idx := e], leaf)
    ensures Undotted(Listing(s[x.idx := e])) <==> Undotted(Listing(s))
  {
    hide Tidy, Listing, Find;
    LookupIn(s, leaf);
    var pre, post := UpdateList(s, x, e);
    forall n ensures Lookup(s, n) ==
        (if Find(pre, n).Some? then Find(pre, n) else if NameEq(x.name, n) then Some(x) else Find(post, n))
                  && Lookup(s[x.idx := e], n) ==
                      (if Find(pre, n).Some? then Find(pre, n) else if NameEq(x.name, n) then Some(x.(ent := e))
                      else Find(post, n)) {
      FindInsert(pre, x, post, n);
      FindInsert(pre, x.(ent := e), post, n);
    }
    FirstFound(pre, x, post, leaf, s);
    UndottedAt(pre, x, post);
    UndottedAt(pre, x.(ent := e), post);
  }

  lemma UndottedAt(pre: seq<Item>, x: Item, post: seq<Item>)
    ensures Undotted(pre + [x] + post) <==> Undotted(pre + post) && (x.idx < 2 || !IsDots(x.name))
  {
    assert forall y :: y in pre + [x] + post <==> y in pre + post || y == x;
  }

  lemma LookupIn(s: seq<Slot>, n: seq<byte>)
    ensures Lookup(s, n).Some? ==> Lookup(s, n).value in Listing(s) && NameEq(Lookup(s, n).value.name, n)
  {
  }

  /** Slots are listed once each, so the entry found is not among those before it. */
  lemma FirstFound(pre: seq<Item>, x: Item, post: seq<Item>, leaf: seq<byte>, s: seq<Slot>)
    requires Listing(s) == pre + [x] + post && Lookup(s, leaf) == Some(x)
    ensures Find(pre, leaf).None?
  {
    FindInsert(pre, x, post, leaf);
    if Find(pre, leaf).Some? {
      var j :| 0 <= j < |pre| && pre[j] == x;
      ListedOnce(s, j, |pre|);
    }
  }

  lemma {:induction false} ItemsSorted(s: seq<Slot>, b: nat, i: nat, j: nat)
    requires b <= |s| && i < j < |ItemsFrom(s, 0, b)|
    ensures ItemsFrom(s, 0, b)[i].idx < ItemsFrom(s, 0, b)[j].idx < b
    decreases b
  {
    var l := ItemsFrom(s, 0, b - 1);
    if j < |l| {
      ItemsSorted(s, b - 1, i, j);
    } else {
      ItemsIn(s, 0, b - 1, l[i]);
    }
  }

  lemma ListedOnce(s: seq<Slot>, i: nat, j: nat)
    requires i < j < |Listing(s)|
    ensures Listing(s)[i].idx < Listing(s)[j].idx
  {
    ItemsSorted(s, EndOf(s), i, j);
  }

  /** dir_create: the new name leads to the new entry, unless it led somewhere already,
      and no other name leads anywhere else. */
  lemma LookupCreate(s: seq<Slot>, start: nat, units: seq<nat>, sh: Slot)
    requires Tidy(s) && Text(units) && Short(sh) && FreeRun(s, start, LongCount(units) + 1)
    ensures var s', n := Placed(s, start, EntrySlots(units, sh)), NewName(units, sh);
            && NamesKept(s, s', n)
            && (Lookup(s, n).None? ==> Lookup(s', n) == Some(Item(start + LongCount(units), start, n, sh)))
            && (Undotted(Listing(s')) <==> Undotted(Listing(s)) && (start + LongCount(units) < 2 || !IsDots(n)))
  {
    hide Tidy, Listing, Find, Placed, EntrySlots, NewName, Bytes;
    var pre, post := CreateList(s, start, units, sh);
    var x := Item(start + LongCount(units), start, NewName(units, sh), sh);
    forall n ensures Lookup(s, n) == (if Find(pre, n).Some? then Find(pre, n) else Find(post, n))
                  && Lookup(Placed(s, start, EntrySlots(units, sh)), n) ==
                      (if Find(pre, n).Some? then Find(pre, n) else if NameEq(x.name, n) then Some(x)
                      else Find(post, n)) {
      FindConcat(pre, post, n);
      FindInsert(pre, x, post, n);
    }
    UndottedAt(pre, x, post);
  }

  /** At most one entry goes by the name n. */
  ghost predicate Sole(items: seq<Item>, n: seq<byte>) {
    forall y, y' :: y in items && y' in items && NameEq(y.name, n) && NameEq(y'.name, n) ==> y' == y
  }

  lemma LookupErase(s: seq<Slot>, x: Item, leaf: seq<byte>)
    requires Tidy(s) && Lookup(s, leaf) == Some(x)
    ensures NamesKept(s, Erased(s, x.chain, x.idx), leaf)
    ensures Sole(Listing(s), leaf) ==> Lookup(Erased(s, x.chain, x.idx), leaf).None?
  {
    hide Tidy, Listing, Find, Erased;
    LookupIn(s, leaf);
    var pre, post := EraseList(s, x);
    forall n ensures Lookup(s, n) ==
        (if Find(pre, n).Some? then Find(pre, n) else if NameEq(x.name, n) then Some(x) else Find(post, n))
                  && Lookup(Erased(s, x.chain, x.idx), n) ==
                      (if Find(pre, n).Some? then Find(pre, n) else Find(post, n)) {
      FindConcat(pre, post, n);
      FindInsert(pre, x, post, n);
    }    if Sole(Listing(s), leaf) { SoleErased(s, pre, x, post, leaf); }
  }

  lemma SoleErased(s: seq<Slot>, pre: seq<Item>, x: Item, post: seq<Item>, leaf: seq<byte>)
    requires Listing(s) == pre + [x] + post && NameEq(x.name, leaf) && Sole(Listing(s), leaf)
    ensures Find(pre, leaf).None? && Find(post, leaf).None?
  {
    hide Listing;
    var l := Listing(s);
    assert l[|pre|] == x && x in l;
    if Find(pre, leaf).Some? {
      var j :| 0 <= j < |pre| && pre[j] == Find(pre, leaf).value;
      assert l[j] == pre[j] && l[j] in l;
      ListedOnce(s, j, |pre|);
    }
    if Find(post, leaf).Some? {
      var j :| 0 <= j < |post| && post[j] == Find(post, leaf).value;
      assert l[|pre| + 1 + j] == post[j] && l[|pre| + 1 + j] in l;
      ListedOnce(s, |pre|, |pre| + 1 + j);
    }
  }

  // ---- whole operations

  /** Nothing but free clusters changed. */
  lemma FullSame(g: Geo, d: Disk, t: Tree, d': Disk)
    requires Full(g, d, t) && SafeWith(g, d', t) && ChainsIn(g, t) && g.Fits(d) && g.Fits(d') && SlotsKept(g, d, d', t)
    requires forall f {:trigger Table(g, d', f)} :: 0 <= f < g.nfats ==> Table(g, d', f) == Table(g, d, f)
    ensures Full(g, d', t)
  {
    hide SafeWith, Slots, Table, Tidy, Exact, Sized;
    forall f | 0 <= f < g.nfats ensures Table(g, d', f) == Table(g, d', 0) {
      assert Table(g, d, f) == Table(g, d, 0);
    }
    assert Table(g, d', 0) == Table(g, d, 0);
    forall y | y in t.dirs ensures TidyAt(g, d', t, y) { assert TidyAt(g, d, t, y); }
  }

  lemma BuiltCopies(g: Geo, d0: Disk, d: Disk, t: Tree, nc: seq<nat>, data: seq<byte>, f: nat)
    requires Full(g, d0, t) && g.Fits(d0) && ChainsIn(g, t) && Building(g, d0, d, t, nc, data) && f < g.nfats
    ensures Table(g, d, f) == Table(g, d, 0) && Linked(Table(g, d0, 0), Table(g, d, 0), nc)
  {
    hide SafeWith, Slots, Table, Body, Linked, SlotsKept;
    assert Table(g, d0, f) == Table(g, d0, 0);
    assert Linked(Table(g, d0, f), Table(g, d, f), nc) && Linked(Table(g, d0, 0), Table(g, d, 0), nc);
    LinkedSame(Table(g, d0, 0), Table(g, d, f), Table(g, d, 0), nc);
  }

  lemma SetSized(g: Geo, d: Disk, t: Tree, k: Key, en: Entry)
    requires Full(g, d, t) && Sized(g, en)
    ensures forall q {:trigger SetEnt(t, k, en).ents[q]} ::
            q in SetEnt(t, k, en).ents ==> Sized(g, SetEnt(t, k, en).ents[q])
  {
    forall q | q in SetEnt(t, k, en).ents ensures Sized(g, SetEnt(t, k, en).ents[q]) {
      if q != k { assert Sized(g, t.ents[q]); }
    }
  }

  /** fat16_write over an existing file: d1 has the new chain, d3 the new entry and the
      old chain freed. */
  lemma FullUpdate(g: Geo, d0: Disk, d1: Disk, d3: Disk, t: Tree, x: nat, y: Item, e: Slot, nc: seq<nat>,
      data: seq<byte>)
    requires Full(g, d0, t) && g.Fits(d0) && ChainsIn(g, t) && Building(g, d0, d1, t, nc, data) && x in t.dirs
    requires var en := Entry(e, nc, Chunks(data, |nc| * g.spc));
             (x, y.idx) in t.ents && Sized(g, en) && SafeWith(g, d3, SetEnt(t, (x, y.idx), en))
    requires y in Listing(Slots(g, d0, t.dirs[x])) && e[..26] == y.ent[..26] && y.idx < |Slots(g, d0, t.dirs[x])|
    requires g.Fits(d3) && Slots(g, d3, t.dirs[x]) == Slots(g, d0, t.dirs[x])[y.idx := e]
    requires forall z {:trigger t.dirs[z]} ::
             z in t.dirs && z != x ==> Slots(g, d3, t.dirs[z]) == Slots(g, d1, t.dirs[z])
    requires forall f {:trigger Table(g, d3, f)} ::
             0 <= f < g.nfats ==> Table(g, d3, f) == FreedTab(Table(g, d1, f), t.ents[(x, y.idx)].chain)
    ensures Full(g, d3, SetEnt(t, (x, y.idx), Entry(e, nc, Chunks(data, |nc| * g.spc))))
  {
    hide SafeWith, Slots, Table, Body, Linked, Tidy, Exact, Sized, FreedTab, Shape, Listing, Chunks;
    var k, en := (x, y.idx), Entry(e, nc, Chunks(data, |nc| * g.spc));
    var t' := SetEnt(t, k, en);
    TreeFits(g, d0, t);
    forall f | 0 <= f < g.nfats ensures Table(g, d3, f) == Table(g, d3, 0) {
      BuiltCopies(g, d0, d1, t, nc, data, f);
      assert Table(g, d3, f) == FreedTab(Table(g, d1, f), t.ents[k].chain);
    }
    BuiltCopies(g, d0, d1, t, nc, data, 0);
    ExactSet(Table(g, d0, 0), Table(g, d1, 0), t, k, en);
    SetSized(g, d0, t, k, en);
    assert TidyAt(g, d0, t, x);
    var pre, post := UpdateList(Slots(g, d0, t.dirs[x]), y, e);
    FullNext(g, d0, t, d3, t', x);
  }

  /** fat16_write of a new file. */
  lemma FullCreate(g: Geo, d0: Disk, d1: Disk, d2: Disk, t: Tree, x: nat, i: nat, e: Slot, nc: seq<nat>,
      data: seq<byte>)
    requires Full(g, d0, t) && g.Fits(d0) && ChainsIn(g, t) && Building(g, d0, d1, t, nc, data) && x in t.dirs
             && (x, i) !in t.ents
    requires var en := Entry(e, nc, Chunks(data, |nc| * g.spc)); Sized(g, en) && SafeWith(g, d2, SetEnt(t, (x, i), en))
    requires Elsewhere(g, d1, d2, t, x, nc) && Tidy(Slots(g, d2, t.dirs[x]))
    ensures Full(g, d2, SetEnt(t, (x, i), Entry(e, nc, Chunks(data, |nc| * g.spc))))
  {
    hide SafeWith, Slots, Table, Body, Linked, Tidy, Exact, Sized, Shape, Chunks;
    var k, en := (x, i), Entry(e, nc, Chunks(data, |nc| * g.spc));
    var t' := SetEnt(t, k, en);
    TreeFits(g, d0, t);
    forall f | 0 <= f < g.nfats ensures Table(g, d2, f) == Table(g, d2, 0) {
      BuiltCopies(g, d0, d1, t, nc, data, f);
      assert Table(g, d2, f) == Table(g, d1, f);
    }
    BuiltCopies(g, d0, d1, t, nc, data, 0);
    ExactSet(Table(g, d0, 0), Table(g, d1, 0), t, k, en);
    FreedAll(Table(g, d1, 0), []);
    SetSized(g, d0, t, k, en);
    FullNext(g, d0, t, d2, t', x);
  }

  /** fat16_mkdir: d1 has the new directory's cluster, d2 its entry too. */
  lemma FullMkdir(g: Geo, d0: Disk, d1: Disk, d2: Disk, t: Tree, x: nat, i: nat, e: Slot, c: nat)
    requires Full(g, d0, t) && g.Fits(d0) && g.Fits(d1) && ChainsIn(g, t) && SlotsKept(g, d0, d1, t) && x in t.dirs
             && x in t.depth && (x, i) !in t.ents && Clus(g, c)
    requires forall f {:trigger Table(g, d1, f)} ::
             0 <= f < g.nfats ==> Table(g, d1, f) == Table(g, d0, f)[c := FAT_EOC]
    requires Table(g, d0, 0)[c] == FAT_FREE && IsDir(e) && c !in t.dirs
    requires SafeWith(g, d2, AddDir(t, (x, i), Entry(e, [c], [])))
    requires ChainIn(g, [c]) && Elsewhere(g, d1, d2, t, x, [c]) && Tidy(Slots(g, d2, t.dirs[x]))
             && Tidy(Slots(g, d1, [c]))
    ensures Full(g, d2, AddDir(t, (x, i), Entry(e, [c], [])))
  {
    hide SafeWith, Slots, Table, Body, Tidy, Exact, Shape, IsDir;
    var k, en := (x, i), Entry(e, [c], []);
    var t' := AddDir(t, k, en);
    TreeFits(g, d0, t);
    assert Table(g, d2, 0) == Table(g, d1, 0) == Table(g, d0, 0)[c := FAT_EOC];
    forall f | 0 <= f < g.nfats ensures Table(g, d2, f) == Table(g, d2, 0) {
      assert Table(g, d2, f) == Table(g, d1, f) == Table(g, d0, f)[c := FAT_EOC];
      assert Table(g, d0, f) == Table(g, d0, 0);
    }
    LinkOne(Table(g, d0, 0), c);
    ExactAdd(Table(g, d0, 0), Table(g, d2, 0), t, k, en);
    forall q | q in t'.ents ensures Sized(g, t'.ents[q]) { if q != k { assert Sized(g, t.ents[q]); } }
    FullNext(g, d0, t, d2, t', x);
  }

  lemma LinkOne(tab: seq<nat>, c: nat)
    requires 2 <= c < |tab| && tab[c] == FAT_FREE
    ensures Linked(tab, tab[c := FAT_EOC], [c])
  {
    assert LinkOk(tab[c := FAT_EOC], [c], 0);
  }
}
