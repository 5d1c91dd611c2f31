/** Slot by slot: what the writes of dir_create and dir_erase leave behind. */
module FatCreate {
  import opened FatNames
  import opened FatScan
  import opened FatDisk
  import opened FatTree
  import opened FatSteps
  import opened FatCommit

  /** Apart from the slots of directory x, nothing of t or of the chain ch changed. */
  ghost predicate Elsewhere(g: Geo, d: Disk, d': Disk, t: Tree, x: nat, ch: seq<nat>)
    requires g.Fits(d) && ChainsIn(g, t) && ChainIn(g, ch)
  {
    && g.Fits(d')
    && (forall f {:trigger Table(g, d', f)} :: 0 <= f < g.nfats ==> Table(g, d', f) == Table(g, d, f))
    && (forall y {:trigger t.dirs[y]} :: y in t.dirs && y != x ==> Slots(g, d', t.dirs[y]) == Slots(g, d, t.dirs[y]))
    && Body(g, d', ch) == Body(g, d, ch) && (ch != [] ==> Slots(g, d', ch) == Slots(g, d, ch))
  }

  lemma ElsewhereTwice(g: Geo, d: Disk, d1: Disk, d2: Disk, t: Tree, x: nat, ch: seq<nat>)
    requires g.Fits(d) && ChainsIn(g, t) && ChainIn(g, ch) && Elsewhere(g, d, d1, t, x, ch)
             && Elsewhere(g, d1, d2, t, x, ch)
    ensures Elsewhere(g, d, d2, t, x, ch)
  {
    hide Table, Slots, Body;
    forall f | 0 <= f < g.nfats ensures Table(g, d2, f) == Table(g, d, f) {
      assert Table(g, d1, f) == Table(g, d, f);
    }
  }

  lemma PutElsewhere(g: Geo, d: Disk, t: Tree, x: nat, i: nat, e: Slot, ch: seq<nat>)
    requires SafeWith(g, d, t) && x in t.dirs && i < |Slots(g, d, t.dirs[x])| && ChainIn(g, ch) && Fresh(t, ch)
    ensures SecLba(g, t.dirs[x], i / SLOTS_PER_SEC) < |d|
    ensures Elsewhere(g, d, PutSlot(g, d, t.dirs[x], i, e), t, x, ch)
    ensures Slots(g, PutSlot(g, d, t.dirs[x], i, e), t.dirs[x]) == Slots(g, d, t.dirs[x])[i := e]
  {
    hide Shape, Live, Slots, Body, Table, IsChain, Apart, Distinct, Misses, SlotSet, SecLba, EntOn, Fresh;
    DirFacts(g, d, t, x);
    var dch := t.dirs[x];
    SlotsLen(g, d, dch, i);
    SecPlace(g, d, dch, i / SLOTS_PER_SEC);
    var d' := PutSlot(g, d, dch, i, e);
    PutSlotHere(g, d, dch, i, e);
    FreshBody(g, d, t, x, i, e, ch);
    forall f | 0 <= f < g.nfats ensures Table(g, d', f) == Table(g, d, f) {
      var lba := SecLba(g, dch, i / SLOTS_PER_SEC);
      TableKept(g, d, lba, SlotSet(d[lba], i % SLOTS_PER_SEC, e), f);
    }
    forall y | y in t.dirs && y != x ensures Slots(g, d', t.dirs[y]) == Slots(g, d, t.dirs[y]) {
      DirsApart(t, x, y);
      PutSlotThere(g, d, dch, i, e, t.dirs[y]);
    }
  }

  // ---- filling a free run

  ghost predicate Filling(s0: seq<Slot>, s: seq<Slot>, start: nat, es: seq<Slot>, k: nat) {
    && k <= |es| && start + |es| <= |s0| && s == Placed(s0, start, es[..k])
    && start + k <= EndOf(s) && ZeroTail(s) && forall i :: start <= i < start + |es| ==> Free(s0[i])
  }

  lemma FillStart(s0: seq<Slot>, start: nat, es: seq<Slot>)
    requires Tidy(s0) && FreeRun(s0, start, |es|)
    ensures Filling(s0, s0, start, es, 0)
  {
    assert es[..0] == [] && s0 == Placed(s0, start, []);
    assert start > 0 ==> s0[start - 1][0] != 0;
  }

  lemma FillNext(s0: seq<Slot>, s: seq<Slot>, start: nat, es: seq<Slot>, k: nat, x: nat)
    requires Filling(s0, s, start, es, k) && k < |es| && es[k][0] != 0
    ensures start + k < |s| && Free(s[start + k]) && Filling(s0, s[start + k := es[k]], start, es, k + 1)
    ensures var s' := s[start + k := es[k]];
            && SlotsBut(s, s', x, {(x, start + k)}) && (Live(s', start + k) <==> Short(es[k]))
            && (!Short(es[k]) ==> SlotsBut(s, s', x, {}))
  {
    hide Short, EndOf, Tidy;
    assert es[..k + 1] == es[..k] + [es[k]];
    LiveFill(s, x, start + k, es[k]);
    assert s[start + k := es[k]] == Placed(s0, start, es[..k + 1]);
  }

  /** A long entry goes in: no tree notices. */
  lemma FillLong(g: Geo, d: Disk, t: Tree, x: nat, s0: seq<Slot>, start: nat, es: seq<Slot>, k: nat, ch: seq<nat>)
    requires SafeWith(g, d, t) && x in t.dirs && ChainIn(g, t.dirs[x]) && ChainIn(g, ch) && Fresh(t, ch)
    requires Filling(s0, Slots(g, d, t.dirs[x]), start, es, k) && k < |es| && es[k][0] != 0 && !Short(es[k])
    ensures start + k < |Slots(g, d, t.dirs[x])| && (start + k) / SLOTS_PER_SEC < Secs(g, t.dirs[x])
    ensures SecLba(g, t.dirs[x], (start + k) / SLOTS_PER_SEC) < |d|
    ensures var d' := PutSlot(g, d, t.dirs[x], start + k, es[k]);
            SafeWith(g, d', t) && Elsewhere(g, d, d', t, x, ch)
                && Filling(s0, Slots(g, d', t.dirs[x]), start, es, k + 1)
  {
    hide SafeWith, Slots, Filling, SlotsBut, PutSlot, Elsewhere, SecLba, Secs, Short, Fresh;
    TreeFits(g, d, t);
    FillNext(s0, Slots(g, d, t.dirs[x]), start, es, k, x);
    SlotsLen(g, d, t.dirs[x], start + k);
    SafeHidden(g, d, t, x, start + k, es[k]);
    PutElsewhere(g, d, t, x, start + k, es[k], ch);
  }

  lemma TreeFits(g: Geo, d: Disk, t: Tree)
    requires SafeWith(g, d, t)
    ensures g.Fits(d) && ChainsIn(g, t) && Shape(t)
  {
  }

  /** A free slot is nobody's entry, and not one of the two a directory keeps. */
  lemma FreeNobody(g: Geo, d: Disk, t: Tree, x: nat, i: nat)
    requires SafeWith(g, d, t) && x in t.dirs && ChainIn(g, t.dirs[x]) && i < |Slots(g, d, t.dirs[x])|
             && Free(Slots(g, d, t.dirs[x])[i])
    ensures (x, i) !in t.ents && !Self((x, i))
  {
    hide Slots, Shape, IsChain, Body, Table;
    DirFacts(g, d, t, x);
    if (x, i) in t.ents { KeyFacts(g, d, t, (x, i)); }
  }

  // ---- erasing

  ghost predicate Erasing(s0: seq<Slot>, s: seq<Slot>, a: nat, b: nat, i: nat) {
    && a <= i <= b + 1 && b < |s0| && EndOf(s) == EndOf(s0) && b < EndOf(s0)
    && s == Erased2(s0, a, i)
  }

  /** dir_erase has reached slot i. */
  function Erased2(s: seq<Slot>, a: nat, i: nat): (r: seq<Slot>)
    ensures |r| == |s|
  {
    seq(|s|, j requires 0 <= j < |s| => if a <= j < i then s[j][0 := 0xE5] else s[j])
  }

  lemma EraseNext(s0: seq<Slot>, s: seq<Slot>, a: nat, b: nat, i: nat, x: nat)
    requires Erasing(s0, s, a, b, i) && i <= b
    ensures i < |s| && s[i] == s0[i]
    ensures var e := s[i][0 := 0xE5]; var s' := s[i := e];
            && Erasing(s0, s', a, b, i + 1)
            && SlotsBut(s, s', x, {(x, i)}) && !Live(s', i) && (!Short(s0[i]) ==> SlotsBut(s, s', x, {}))
  {
    hide EndOf;
    var e: Slot := s[i][0 := 0xE5];
    LiveRewrite(s, x, i, e);
    assert s[i := e] == Erased2(s0, a, i + 1);
  }

  lemma EraseDone(s0: seq<Slot>, a: nat, b: nat)
    ensures Erased2(s0, a, b + 1) == Erased(s0, a, b) && Erased2(s0, a, a) == s0
  {
  }
}
