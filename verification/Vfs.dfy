/** Namespaces of src/vfs.c: the table rewritten in place, the pool they come from, and the
    sweep that takes them back. */
module Vfs {
  import opened Common
  import opened VfsTable

  const NNS: nat := 24

  /** What the pool sees of a task: in use or being built, and which namespace it looks at;
      none is the root. */
  datatype Slot = Slot(used: bool, pt: bool, ns: NameSpace?)

  predicate Live(s: Slot) { s.used || s.pt }

  ghost predicate Held(ts: seq<Slot>, ns: NameSpace?) { exists t :: 0 <= t < |ts| && Live(ts[t]) && ts[t].ns == ns }

  lemma InPut(p: seq<NameSpace?>, i: nat, s: NameSpace?, x: NameSpace?)
    requires i < |p| && x in p && x != p[i]
    ensures x in p[i := s]
  {
    var k :| 0 <= k < |p| && p[k] == x;
    assert p[i := s][k] == x;
  }

  /** Structure assignment of a whole namespace. */
  method Copy(from: NameSpace, to: NameSpace)
    requires from.Valid() && to.Valid() && from.mnt != to.mnt && from != to
    modifies to`n, to.mnt
    ensures to.Valid() && to.Table() == old(from.Table())
  {
    var i := 0;
    while i < NMOUNT
      invariant i <= NMOUNT && to.Valid() && forall k :: 0 <= k < i ==> to.mnt[k] == from.mnt[k]
    {
      to.mnt[i] := from.mnt[i];
      i := i + 1;
    }
    to.n := from.n;
  }

  // ---- taking a name back

  /** The first i entries of u are those of t that stay, of t's first i + gone. */
  ghost predicate TakenTo(t: seq<Mount>, u: seq<Mount>, name: Name, i: nat, gone: nat) {
    && i + gone <= |t| && i <= |u| && u[i..] == t[i + gone..] && u[..i] == Without(t[..i + gone], name)
    && (gone == 0 <==> Absent(t[..i + gone], name))
  }

  lemma SplitStart(t: seq<Mount>, name: Name)
    ensures TakenTo(t, t, name, 0, 0)
  {
  }

  lemma TakenStep(t: seq<Mount>, u: seq<Mount>, name: Name, i: nat, gone: nat)
    requires TakenTo(t, u, name, i, gone) && i < |u|
    ensures if u[i].prefix == name then TakenTo(t, u[..i] + u[i + 1..], name, i, gone + 1)
            else TakenTo(t, u, name, i + 1, gone)
  {
    hide Without;
    var j := i + gone;
    assert u[i] == u[i..][0] == t[j];
    assert t[..j + 1] == t[..j] + [t[j]];
    WithoutCat(t[..j], [t[j]], name);
    WithoutOne(t[j], name);
    if u[i].prefix == name {
      var v := u[..i] + u[i + 1..];
      assert v[i..] == u[i..][1..] == t[j + 1..];
      assert v[..i] == u[..i];
      assert t[..j + 1][j] == t[j];
    } else {
      assert u[i + 1..] == u[i..][1..] == t[j + 1..];
      assert u[..i + 1] == u[..i] + [u[i]];
    }
  }

  lemma WithoutOne(m: Mount, name: Name)
    ensures Without([m], name) == if m.prefix == name then [] else [m]
  {
  }

  lemma TakenAll(t: seq<Mount>, u: seq<Mount>, name: Name, gone: nat)
    requires TakenTo(t, u, name, |u|, gone) && gone + |u| == |t|
    ensures u == Without(t, name) && (gone == 0 <==> Absent(t, name))
  {
    hide Without;
    assert t[..|t|] == t && u[..|u|] == u;
  }

  // ---- inserting

  /** A table is full after the sweep of MREPL only if it was full without the name. */
  lemma Cleared(t: seq<Mount>, u: seq<Mount>, name: Name, flags: int)
    requires |t| <= NMOUNT && u == if flags == MREPL then Without(t, name) else t
    ensures |u| >= NMOUNT <==> !(|t| < NMOUNT || (flags == MREPL && !Absent(t, name)))
    ensures |u| >= NMOUNT ==> u == t
    ensures flags == MREPL ==> Absent(u, name)
  {
    hide Without, Absent, Union;
    WithoutUnion(t, name, name);
    UnionNone(Without(t, name), name);
  }

  lemma Inserted(t: seq<Mount>, u: seq<Mount>, m: Mount, flags: int, at: nat)
    requires u == (if flags == MREPL then Without(t, m.prefix) else t) && GoesAt(u, m.prefix, flags, at)
             && (flags == MREPL ==> Absent(u, m.prefix))
    ensures forall x :: Union(Put(u, at, m), x) == if x == m.prefix then Joined(Union(t, x), m, flags) else Union(t, x)
  {
    hide Without, Absent, Union, Put;
    forall x ensures Union(Put(u, at, m), x) == if x == m.prefix then Joined(Union(t, x), m, flags) else Union(t, x) {
      PutUnion(u, m, flags, at, x);
      if flags == MREPL { WithoutUnion(t, m.prefix, x); }
    }
  }

  // ---- looking up

  lemma {:induction false} TiedPrefix(t: seq<Mount>, path: Name, len: nat, i: nat)
    requires i <= |t|
    ensures Tied(t[..i], path, len) <= Tied(t, path, len)
    decreases |t|
  {
    hide Covers;
    if i < |t| {
      var n := |t| - 1;
      TiedPrefix(t[..n], path, len, i);
      assert t[..n][..i] == t[..i];
    } else {
      assert t[..i] == t;
    }
  }

  class NameSpace {
    const mnt: array<Mount>
    var n: nat

    ghost predicate Valid()
      reads this
    {
      mnt.Length == NMOUNT && n <= NMOUNT
    }

    ghost function Table(): seq<Mount>
      requires Valid()
      reads this, mnt
    {
      mnt[..n]
    }

    constructor ()
      ensures Valid() && fresh(mnt) && Table() == []
    {
      mnt := new Mount[NMOUNT](_ => Server([], 0));
      n := 0;
    }

    /** Entry i goes; those behind it move up one. */
    method Shift(i: nat)
      requires Valid() && i < n
      modifies this`n, mnt
      ensures Valid() && Table() == old(Table())[..i] + old(Table())[i + 1..]
    {
      var k := i;
      while k + 1 < n
        invariant i <= k < n && n == old(n)
                  && forall j :: 0 <= j < n ==> mnt[j] == if i <= j < k then old(mnt[j + 1]) else old(mnt[j])
      {
        mnt[k] := mnt[k + 1];
        k := k + 1;
      }
      n := n - 1;
    }

    /** The loop insert_at and vfs_unmount share. */
    method TakeBack(name: Name) returns (found: bool)
      requires Valid()
      modifies this`n, mnt
      ensures Valid() && Table() == Without(old(Table()), name) && (found <==> !Absent(old(Table()), name))
    {
      hide Without, Absent;
      ghost var t := Table();
      var i := 0;
      found := false;
      ghost var gone := 0;
      SplitStart(t, name);
      while i < n
        invariant Valid() && i <= n && gone + n == |t| && TakenTo(t, Table(), name, i, gone) && (found <==> gone > 0)
        decreases n - i
      {
        ghost var u := Table();
        TakenStep(t, u, name, i, gone);
        if mnt[i].prefix == name {
          Shift(i);
          found := true;
          gone := gone + 1;
        } else {
          i := i + 1;
        }
      }
      TakenAll(t, Table(), name, gone);
    }

    method FindLast(name: Name) returns (at: nat)
      requires Valid()
      ensures at <= n && Absent(Table()[at..], name) && (at == n || (at > 0 && Table()[at - 1].prefix == name))
    {
      at := n;
      var i := n;
      while i > 0
        invariant 0 <= i <= n && at == n && forall j :: i <= j < n ==> mnt[j].prefix != name
      {
        if mnt[i - 1].prefix == name {
          assert Absent(Table()[i..], name);
          return i;
        }
        i := i - 1;
      }
    }

    method FindFirst(name: Name) returns (at: nat)
      requires Valid()
      ensures at <= n && Absent(Table()[..at], name) && (at == n || Table()[at].prefix == name)
    {
      at := 0;
      while at < n
        invariant at <= n && forall j :: 0 <= j < at ==> mnt[j].prefix != name
      {
        if mnt[at].prefix == name { return; }
        at := at + 1;
      }
    }

    /** A hole at at, filled with m. */
    method Open(at: nat, m: Mount)
      requires Valid() && n < NMOUNT && at <= n
      modifies this`n, mnt
      ensures Valid() && Table() == Put(old(Table()), at, m)
    {
      var k := n;
      while k > at
        invariant at <= k <= n == old(n)
                  && forall j :: 0 <= j <= n ==> mnt[j] == if k < j then old(mnt[j - 1]) else old(mnt[j])
      {
        mnt[k] := mnt[k - 1];
        k := k - 1;
      }
      n := n + 1;
      mnt[at] := m;
    }

    /** insert_at, and the entry its caller fills in. A full table is left as it was;
        otherwise the union at the name is joined as asked and no other one changes. */
    method Insert(m: Mount, flags: int) returns (ok: bool)
      requires Valid()
      modifies this`n, mnt
      ensures Valid() && (!ok ==> Table() == old(Table()))
      ensures ok <==> old(n) < NMOUNT || (flags == MREPL && !Absent(old(Table()), m.prefix))
      ensures ok ==>
              forall x :: Union(Table(), x) == if x == m.prefix then Joined(old(Union(Table(), x)), m, flags)
              else old(Union(Table(), x))
    {
      hide Union, Without, Absent, Joined, Put;
      ghost var t := Table();
      if flags == MREPL { var _ := TakeBack(m.prefix); }
      ghost var u := Table();
      Cleared(t, u, m.prefix, flags);
      if n >= NMOUNT { return false; }
      var at := n;
      if flags == MAFTER { at := FindLast(m.prefix); } else if flags == MBEFORE { at := FindFirst(m.prefix); }
      Open(at, m);
      Inserted(t, u, m, flags, at);
      ok := true;
    }

    /** vfs_mount. */
    method Mount(prefix: Name, server: int, flags: int) returns (r: int)
      requires Valid()
      modifies this`n, mnt
      ensures Valid() && (r == 0 || r == -1) && (r == -1 ==> Table() == old(Table()))
      ensures r == 0 <==> old(n) < NMOUNT || (flags == MREPL && !Absent(old(Table()), prefix))
      ensures r == 0 ==>
              forall x :: Union(Table(), x) == if x == prefix
              then Joined(old(Union(Table(), x)), Server(prefix, server), flags) else old(Union(Table(), x))
    {
      var ok := Insert(Server(prefix, server), flags);
      r := if ok then 0 else -1;
    }

    /** vfs_bind: name now means what target means. */
    method Bind(target: Name, name: Name, flags: int) returns (r: int)
      requires Valid()
      modifies this`n, mnt
      ensures Valid() && (r == 0 || r == -1) && (r == -1 ==> Table() == old(Table()))
      ensures r == 0 <==> old(n) < NMOUNT || (flags == MREPL && !Absent(old(Table()), name))
      ensures r == 0 ==>
              forall x :: Union(Table(), x) == if x == name
              then Joined(old(Union(Table(), x)), VfsTable.Mount.Bind(name, target), flags)
              else old(Union(Table(), x))
    {
      var ok := Insert(VfsTable.Mount.Bind(name, target), flags);
      r := if ok then 0 else -1;
    }

    /** vfs_unmount: all of a name's union, and only that. */
    method Unmount(name: Name) returns (r: int)
      requires Valid()
      modifies this`n, mnt
      ensures Valid() && r == (if old(Union(Table(), name)) == [] then -1 else 0)
              && (r == -1 ==> Table() == old(Table()))
      ensures forall x :: Union(Table(), x) == if x == name then [] else old(Union(Table(), x))
    {
      hide Union, Without, Absent;
      ghost var t := Table();
      var found := TakeBack(name);
      UnionNone(t, name);
      forall x ensures Union(Table(), x) == if x == name then [] else Union(t, x) { WithoutUnion(t, name, x); }
      WithoutUnion(t, name, name);
      r := if found then 0 else -1;
    }

    /** The first pass of nth_match. */
    method Longest(path: Name) returns (b: Option<nat>)
      requires Valid()
      ensures b == BestLen(Table(), path)
    {
      hide Covers;
      b := None;
      ghost var t := Table();
      var i := 0;
      while i < n
        invariant i <= n && b == BestLen(t[..i], path)
      {
        assert t[..i + 1][..i] == t[..i];
        if Covers(path, mnt[i].prefix) && (b.None? || |mnt[i].prefix| > b.value) { b := Some(|mnt[i].prefix|); }
        i := i + 1;
      }
      assert t[..n] == t;
    }

    /** nth_match. */
    method NthMatch(path: Name, nth: int) returns (m: Option<Mount>)
      requires Valid()
      ensures m == Pick(Table(), path, nth)
    {
      hide Covers;
      var b := Longest(path);
      if b.None? { return None; }
      ghost var t := Table();
      var i, k := 0, 0;
      while i < n
        invariant i <= n && k == |Tied(t[..i], path, b.value)| && (nth < 0 || k <= nth)
      {
        assert t[..i + 1][..i] == t[..i];
        if Covers(path, mnt[i].prefix) && |mnt[i].prefix| == b.value {
          if k == nth {
            TiedPrefix(t, path, b.value, i + 1);
            return Some(mnt[i]);
          }
          k := k + 1;
        }
        i := i + 1;
      }
      assert t[..n] == t;
      m := None;
    }

    /** vfs_resolve: the server and the name to ask it about. */
    method Resolve(path: Name, nth: int) returns (r: Answer)
      requires Valid()
      ensures r == Resolved(Table(), Cut(path, PATH_MAX - 1), nth, HOPS)
    {
      hide Pick, Covers, Rewrite;
      var buf, hop := Cut(path, PATH_MAX - 1), 0;
      ghost var t := Table();
      while hop < HOPS
        invariant hop <= HOPS && Resolved(t, Cut(path, PATH_MAX - 1), nth, HOPS) ==
                  Resolved(t, buf, if hop == 0 then nth else 0, HOPS - hop)
      {
        var m := NthMatch(buf, if hop == 0 then nth else 0);
        if m.None? { return Nobody; }
        if m.value.Server? { return Asks(m.value.server, buf); }
        if |m.value.prefix| > |buf| { return Astray; }
        buf := Rewrite(buf, m.value.prefix, m.value.target);
        hop := hop + 1;
      }
      r := Nobody;
    }
  }

  class Pool {
    const pool: array<NameSpace?>
    var tasks: seq<Slot>

    ghost function Spaces(): set<NameSpace?>
      reads this, pool
    {
      set s | s in pool[..]
    }

    /** Namespaces do not share storage, and whatever a live task looks at is in the pool. */
    ghost predicate Valid()
      reads this, pool, Spaces()
    {
      && pool.Length == NNS && pool[0] != null
      && (forall i :: 0 <= i < NNS && pool[i] != null ==> pool[i].Valid())
      && (forall i, j :: 0 <= i < j < NNS && pool[i] != null && pool[j] != null ==>
          pool[i] != pool[j] && pool[i].mnt != pool[j].mnt)
      && (forall t {:trigger tasks[t]} ::
          0 <= t < |tasks| && Live(tasks[t]) && tasks[t].ns != null ==> tasks[t].ns in pool[..])
    }

    constructor (n: nat)
      ensures Valid() && fresh(pool) && fresh(pool[0]) && fresh(pool[0].mnt) && |tasks| == n
              && (forall t :: 0 <= t < n ==> !Live(tasks[t])) && pool[0].Table() == []
      ensures forall i :: 1 <= i < NNS ==> pool[i] == null
    {
      var root := new NameSpace();
      pool := new NameSpace?[NNS](_ => null);
      tasks := seq(n, _ => Slot(false, false, null));
      new;
      pool[0] := root;
    }

    /** cur_ns. */
    function Current(cur: nat): (s: NameSpace?)
      requires cur < |tasks| && pool.Length == NNS
      reads this, pool
    {
      if tasks[cur].ns != null then tasks[cur].ns else pool[0]
    }

    /** vfs_ns_clone: a private copy, equal now and separate from here on. */
    method Clone(cur: nat, room: bool) returns (r: int)
      requires Valid() && cur < |tasks| && Live(tasks[cur])
      modifies this`tasks, pool
      ensures Valid() && |tasks| == |old(tasks)| && (r == 0 || r == -1)
              && (r == 0 <==> room && exists i :: 1 <= i < NNS && old(pool[i]) == null)
      ensures r == -1 ==> pool[..] == old(pool[..]) && tasks == old(tasks)
      ensures r == 0 ==>
              tasks[cur].ns != null && fresh(tasks[cur].ns) && fresh(tasks[cur].ns.mnt)
              && tasks == old(tasks)[cur := old(tasks)[cur].(ns := tasks[cur].ns)]
      ensures r == 0 ==>
              exists i {:trigger pool[i]} ::
              1 <= i < NNS && old(pool[i]) == null && pool[..] == old(pool[..])[i := tasks[cur].ns]
      ensures r == 0 ==>
              old(Current(cur)) != null && old(Current(cur)).Valid() && tasks[cur].ns.Valid()
              && tasks[cur].ns.Table() == old(Current(cur).Table())
    {
      var mine := Current(cur);
      var i := 1;
      while i < NNS
        invariant 1 <= i <= NNS && pool[..] == old(pool[..]) && tasks == old(tasks)
                  && forall k :: 1 <= k < i ==> pool[k] != null
      {
        if pool[i] == null {
          if !room { return -1; }
          var s := new NameSpace();
          Copy(mine, s);
          ghost var p, ts := pool[..], tasks;
          pool[i] := s;
          assert pool[..] == p[i := s];
          tasks := tasks[cur := tasks[cur].(ns := s)];
          forall t | 0 <= t < |tasks| && Live(tasks[t]) && tasks[t].ns != null ensures tasks[t].ns in pool[..] {
            if t == cur { assert pool[..][i] == s; } else { InPut(p, i, s, ts[t].ns); }
          }
          return 0;
        }
        i := i + 1;
      }
      r := -1;
    }

    /** One slot of the sweep: does any live task look at it? */
    method Looked(s: NameSpace) returns (live: bool)
      ensures live <==> Held(tasks, s)
    {
      live := false;
      var t := 0;
      while t < |tasks| && !live
        invariant 0 <= t <= |tasks| && (live ==> Held(tasks, s))
                  && (!live ==> forall k :: 0 <= k < t ==> !(Live(tasks[k]) && tasks[k].ns == s))
      {
        if Live(tasks[t]) && tasks[t].ns == s { live := true; }
        t := t + 1;
      }
    }

    /** vfs_ns_gc: a private namespace goes exactly when no live task looks at it. */
    method Sweep()
      requires Valid()
      modifies pool
      ensures Valid() && pool[0] == old(pool[0])
      ensures forall i :: 1 <= i < NNS ==>
              pool[i] == if old(pool[i]) != null && Held(tasks, old(pool[i])) then old(pool[i]) else null
    {
      ghost var p := pool[..];
      var i := 1;
      while i < NNS
        invariant 1 <= i <= NNS && pool[0] == p[0]
        invariant forall k :: 1 <= k < i ==> pool[k] == if p[k] != null && Held(tasks, p[k]) then p[k] else null
        invariant forall k :: i <= k < NNS ==> pool[k] == p[k]
      {
        var s := pool[i];
        if s != null {
          var live := Looked(s);
          if !live { pool[i] := null; }
        }
        i := i + 1;
      }
      forall t | 0 <= t < |tasks| && Live(tasks[t]) && tasks[t].ns != null ensures tasks[t].ns in pool[..] {
        var k :| 0 <= k < NNS && p[k] == tasks[t].ns;
        assert Held(tasks, p[k]);
        assert pool[..][k] == p[k];
      }
    }

    /** Task t is retired: what it alone was looking at goes with it. */
    method Retire(t: nat)
      requires Valid() && t < |tasks|
      modifies this`tasks, pool
      ensures Valid() && |tasks| == |old(tasks)| && !Live(tasks[t])
              && (forall k :: 0 <= k < |tasks| && k != t ==> tasks[k] == old(tasks)[k]) && pool[0] == old(pool[0])
      ensures forall i :: 1 <= i < NNS ==>
              pool[i] == if old(pool[i]) != null && Held(tasks, old(pool[i])) then old(pool[i]) else null
    {
      tasks := tasks[t := tasks[t].(used := false, pt := false)];
      Sweep();
    }

    /** A new task sees what its parent sees. */
    method Inherit(t: nat, parent: nat)
      requires Valid() && t < |tasks| && parent < |tasks| && !Live(tasks[t]) && Live(tasks[parent])
      modifies this`tasks
      ensures Valid() && tasks == old(tasks)[t := Slot(false, true, old(tasks)[parent].ns)]
              && Current(t) == old(Current(parent))
    {
      tasks := tasks[t := Slot(false, true, tasks[parent].ns)];
    }

    lemma CurrentIn(cur: nat)
      requires Valid() && cur < |tasks| && Live(tasks[cur])
      ensures Current(cur) != null && Current(cur) in pool[..] && Current(cur).Valid()
      ensures forall i :: 0 <= i < NNS && pool[i] != null && pool[i] != Current(cur) ==> pool[i].mnt != Current(cur).mnt
    {
      assert pool[..][0] == pool[0];
      var k :| 0 <= k < NNS && pool[..][k] == Current(cur);
      assert pool[k] == Current(cur);
    }

    /** vfs_mount in a task's namespace: one union of one namespace is joined, and nothing
        shows anywhere else. */
    method MountIn(cur: nat, prefix: Name, server: int, flags: int) returns (r: int)
      requires Valid() && cur < |tasks| && Live(tasks[cur]) && Current(cur) != null
      modifies Current(cur)`n, Current(cur).mnt
      ensures Valid() && (r == -1 || r == 0)
      ensures forall i, x {:trigger Union(pool[i].Table(), x)} :: 0 <= i < NNS && pool[i] != null ==>
                Union(pool[i].Table(), x) == if r == 0 && pool[i] == Current(cur)
                    && x == prefix then Joined(old(Union(pool[i].Table(), x)), Server(prefix, server), flags)
                    else old(Union(pool[i].Table(), x))
    {
      hide Union, Joined, Absent;
      CurrentIn(cur);
      var s := Current(cur);
      r := s.Mount(prefix, server, flags);
    }

    /** vfs_bind in a task's namespace. */
    method BindIn(cur: nat, target: Name, name: Name, flags: int) returns (r: int)
      requires Valid() && cur < |tasks| && Live(tasks[cur]) && Current(cur) != null
      modifies Current(cur)`n, Current(cur).mnt
      ensures Valid() && (r == -1 || r == 0)
      ensures forall i, x {:trigger Union(pool[i].Table(), x)} :: 0 <= i < NNS && pool[i] != null ==>
                Union(pool[i].Table(), x) == if r == 0 && pool[i] == Current(cur)
                    && x == name then Joined(old(Union(pool[i].Table(), x)), VfsTable.Mount.Bind(name, target), flags)
                    else old(Union(pool[i].Table(), x))
    {
      hide Union, Joined, Absent;
      CurrentIn(cur);
      var s := Current(cur);
      r := s.Bind(target, name, flags);
    }

    /** vfs_unmount in a task's namespace. */
    method UnmountIn(cur: nat, name: Name) returns (r: int)
      requires Valid() && cur < |tasks| && Live(tasks[cur]) && Current(cur) != null
      modifies Current(cur)`n, Current(cur).mnt
      ensures Valid() && (r == -1 || r == 0)
      ensures forall i, x {:trigger Union(pool[i].Table(), x)} :: 0 <= i < NNS && pool[i] != null ==>
                Union(pool[i].Table(), x) == if pool[i] == Current(cur) && x == name then []
                    else old(Union(pool[i].Table(), x))
    {
      hide Union, Absent;
      CurrentIn(cur);
      var s := Current(cur);
      r := s.Unmount(name);
    }
  }

  /** bind /b /a/, and then /a is asked for: where that leads there is no telling. */
  method BindSlash() returns (ns: NameSpace, r: Answer)
    ensures ns.Valid() && ns.Table() == [VfsTable.Mount.Bind("/a/", "/b")] && r == Astray
  {
    ns := new NameSpace();
    var b := ns.Bind("/b", "/a/", MREPL);
    OneBind(ns.Table(), "/a/", "/b");
    r := ns.Resolve("/a", 0);
    SlashMet();
  }

  lemma OneBind(t: seq<Mount>, name: Name, target: Name)
    requires Union(t, name) == [VfsTable.Mount.Bind(name, target)] && forall x :: x != name ==> Union(t, x) == []
    ensures t == [VfsTable.Mount.Bind(name, target)]
  {
    forall i | 0 <= i < |t| ensures t[i].prefix == name {
      UnionNone(t, t[i].prefix);
      assert !Absent(t, t[i].prefix);
    }
    UnionAll(t, name);
  }

  lemma {:induction false} UnionAll(t: seq<Mount>, name: Name)
    requires forall i :: 0 <= i < |t| ==> t[i].prefix == name
    ensures Union(t, name) == t
  {
    if t != [] { UnionAll(t[1..], name); }
  }

  lemma OnePick(m: Mount, path: Name)
    requires Covers(path, m.prefix)
    ensures Pick([m], path, 0) == Some(m)
  {
    hide Covers;
    var t := [m];
    assert t[..0] == [];
    assert BestLen(t[..0], path) == None && Tied(t[..0], path, |m.prefix|) == [];
  }

  lemma SlashMet()
    ensures Resolved([VfsTable.Mount.Bind("/a/", "/b")], Cut("/a", PATH_MAX - 1), 0, HOPS) == Astray
  {
    hide Pick, Covers;
    assert Covers("/a", "/a/") by { SlashCovers(); }
    OnePick(VfsTable.Mount.Bind("/a/", "/b"), "/a");
  }

  lemma SlashCovers()
    ensures Covers("/a", "/a/")
  {
    assert "/a" <= "/a/";
  }
}
