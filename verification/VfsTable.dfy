/** The mount table of src/vfs.c as values: unions, longest-prefix lookup, and the rewriting
    of a path through binds. */
module VfsTable {
  import opened Common

  type Name = string

  const PATH_MAX: nat := 128
  const NMOUNT: nat := 8
  const HOPS: nat := 4

  const MREPL := 0
  const MBEFORE := 1
  const MAFTER := 2

  datatype Mount = Server(prefix: Name, server: int) | Bind(prefix: Name, target: Name)

  // ---- unions

  /** The members joined at a name, in the order they are searched. */
  function Union(t: seq<Mount>, name: Name): seq<Mount> {
    if t == [] then [] else (if t[0].prefix == name then [t[0]] else []) + Union(t[1..], name)
  }

  /** The table once a name is taken back. */
  function Without(t: seq<Mount>, name: Name): seq<Mount> {
    if t == [] then [] else (if t[0].prefix == name then [] else [t[0]]) + Without(t[1..], name)
  }

  ghost predicate Absent(t: seq<Mount>, name: Name) { forall i :: 0 <= i < |t| ==> t[i].prefix != name }

  lemma UnionStep(t: seq<Mount>, name: Name)
    requires t != []
    ensures Union(t, name) == (if t[0].prefix == name then [t[0]] else []) + Union(t[1..], name)
  {
  }

  lemma {:induction false} UnionCat(a: seq<Mount>, b: seq<Mount>, name: Name)
    ensures Union(a + b, name) == Union(a, name) + Union(b, name)
  {
    hide Union;
    if a == [] {
      UnionEmpty(name);
      assert a + b == b;
    } else {
      UnionCat(a[1..], b, name);
      assert (a + b)[1..] == a[1..] + b;
      UnionStep(a + b, name);
      UnionStep(a, name);
    }
  }

  lemma {:induction false} UnionNone(t: seq<Mount>, name: Name)
    ensures Union(t, name) == [] <==> Absent(t, name)
  {
    if t != [] {
      UnionNone(t[1..], name);
      assert t[0].prefix == name || (Absent(t, name) <==> Absent(t[1..], name)) by {
        if t[0].prefix != name && Absent(t[1..], name) {
          forall i | 0 <= i < |t| ensures t[i].prefix != name { assert i > 0 ==> t[i] == t[1..][i - 1]; }
        }
      }
    }
  }

  lemma {:induction false} WithoutCat(a: seq<Mount>, b: seq<Mount>, name: Name)
    ensures Without(a + b, name) == Without(a, name) + Without(b, name)
  {
    if a == [] {
      assert a + b == b;
    } else {
      assert (a + b)[1..] == a[1..] + b;
      WithoutCat(a[1..], b, name);
    }
  }

  /** Taking a name back empties its union and leaves every other one. */
  lemma {:induction false} WithoutUnion(t: seq<Mount>, name: Name, x: Name)
    ensures Union(Without(t, name), x) == if x == name then [] else Union(t, x)
    ensures |Without(t, name)| <= |t| && (Without(t, name) == t <==> Absent(t, name))
            && (Absent(t, name) || |Without(t, name)| < |t|)
  {
    if t != [] {
      var rest := t[1..];
      WithoutUnion(rest, name, x);
      assert t == [t[0]] + rest;
      if t[0].prefix == name {
        assert Without(t, name) == Without(rest, name);
      } else {
        UnionCat([t[0]], Without(rest, name), x);
        assert Without(t, name) == [t[0]] + Without(rest, name);
        AbsentTail(t, name);
      }
    }
  }

  lemma AbsentTail(t: seq<Mount>, name: Name)
    requires t != [] && t[0].prefix != name
    ensures Absent(t, name) <==> Absent(t[1..], name)
  {
    if Absent(t[1..], name) {
      forall i | 0 <= i < |t| ensures t[i].prefix != name { assert i > 0 ==> t[i] == t[1..][i - 1]; }
    }
  }

  function Put(t: seq<Mount>, at: nat, m: Mount): seq<Mount>
    requires at <= |t|
  {
    t[..at] + [m] + t[at..]
  }

  /** What joining m under these flags makes of a union. */
  function Joined(u: seq<Mount>, m: Mount, flags: int): seq<Mount> {
    if flags == MREPL then [m] else if flags == MBEFORE then [m] + u else u + [m]
  }

  /** Where insert_at puts a new member, in a table the name may already be in. */
  ghost predicate GoesAt(t: seq<Mount>, name: Name, flags: int, at: nat) {
    && at <= |t|
    && (flags == MBEFORE ==> Absent(t[..at], name))
    && (flags == MAFTER ==> Absent(t[at..], name))
    && (flags != MBEFORE && flags != MAFTER ==> at == |t|)
  }

  /** The union at the name is joined as asked, and no other union is disturbed. */
  lemma PutUnion(t: seq<Mount>, m: Mount, flags: int, at: nat, x: Name)
    requires GoesAt(t, m.prefix, flags, at) && (flags == MREPL ==> Absent(t, m.prefix))
    ensures Union(Put(t, at, m), x) == if x == m.prefix then Joined(Union(t, x), m, flags) else Union(t, x)
  {
    hide Union, Absent, Put;
    PutPieces(t, at, m, x);
    UnionOne(m, x);
    if x == m.prefix {
      UnionNone(t[..at], x);
      UnionNone(t[at..], x);
      UnionNone(t, x);
      if at == |t| {
        assert t[at..] == [];
        UnionEmpty(x);
      }
    }
  }

  lemma PutPieces(t: seq<Mount>, at: nat, m: Mount, x: Name)
    requires at <= |t|
    ensures Union(t, x) == Union(t[..at], x) + Union(t[at..], x)
    ensures Union(Put(t, at, m), x) == Union(t[..at], x) + Union([m], x) + Union(t[at..], x)
  {
    hide Union;
    var a, b := t[..at], t[at..];
    assert t == a + b;
    UnionCat(a, b, x);
    UnionCat(a + [m], b, x);
    UnionCat(a, [m], x);
  }

  lemma UnionOne(m: Mount, x: Name)
    ensures Union([m], x) == if x == m.prefix then [m] else []
  {
  }

  lemma UnionEmpty(x: Name)
    ensures Union([], x) == []
  {
  }

  // ---- lookup

  /** prefix_matches: a prefix ends where a component ends. */
  predicate Covers(path: Name, prefix: Name) {
    var l := |prefix|;
    && l > 0
    && ((prefix[l - 1] == '/' && |path| == l - 1 && path <= prefix)
        || (prefix <= path && (prefix[l - 1] == '/' || |path| == l || path[l] == '/')))
  }

  /** Prefixes of one length that both match are one name. */
  lemma OneName(path: Name, p: Name, q: Name)
    requires Covers(path, p) && Covers(path, q) && |p| == |q|
    ensures p == q
  {
    var l := |p|;
    if |path| == l - 1 {
      assert p == path + [p[l - 1]] && q == path + [q[l - 1]];
    } else {
      assert p == path[..l] && q == path[..l];
    }
  }

  /** The length of the longest prefix that matches. */
  function BestLen(t: seq<Mount>, path: Name): Option<nat> {
    if t == [] then None else
    var n, b := |t| - 1, BestLen(t[..|t| - 1], path);
    if Covers(path, t[n].prefix) && (b.None? || |t[n].prefix| > b.value) then Some(|t[n].prefix|) else b
  }

  /** The entries that match with that length, in order. */
  function Tied(t: seq<Mount>, path: Name, len: nat): seq<Mount> {
    if t == [] then [] else
    var n := |t| - 1;
    Tied(t[..n], path, len) + if Covers(path, t[n].prefix) && |t[n].prefix| == len then [t[n]] else []
  }

  /** The nth answer for a path. */
  function Pick(t: seq<Mount>, path: Name, nth: int): Option<Mount> {
    var b := BestLen(t, path);
    if b.None? then None else
    var u := Tied(t, path, b.value);
    if 0 <= nth < |u| then Some(u[nth]) else None
  }

  /** The name is in the table, matches, and nothing longer does. */
  ghost predicate Best(t: seq<Mount>, path: Name, name: Name) {
    && (exists i :: 0 <= i < |t| && t[i].prefix == name) && Covers(path, name)
    && forall i :: 0 <= i < |t| && Covers(path, t[i].prefix) ==> |t[i].prefix| <= |name|
  }

  lemma {:induction false} BestLenIs(t: seq<Mount>, path: Name)
    ensures BestLen(t, path).None? <==> forall i :: 0 <= i < |t| ==> !Covers(path, t[i].prefix)
    ensures BestLen(t, path).Some? ==>
            exists i :: 0 <= i < |t| && Covers(path, t[i].prefix) && |t[i].prefix| == BestLen(t, path).value
    ensures forall i :: 0 <= i < |t| && Covers(path, t[i].prefix) ==>
            BestLen(t, path).Some? && |t[i].prefix| <= BestLen(t, path).value
  {
    hide Covers;
    if t != [] {
      var n := |t| - 1;
      var r := t[..n];
      BestLenIs(r, path);
      forall i | 0 <= i < |t| && Covers(path, t[i].prefix)
          ensures BestLen(t, path).Some? && |t[i].prefix| <= BestLen(t, path).value {
        if i < n { assert r[i] == t[i]; }
      }
      if BestLen(t, path).Some? {
        if BestLen(t, path) == BestLen(r, path) && BestLen(r, path).Some? {
          var i :| 0 <= i < |r| && Covers(path, r[i].prefix) && |r[i].prefix| == BestLen(r, path).value;
          assert t[i] == r[i];
        } else {
          assert Covers(path, t[n].prefix) && |t[n].prefix| == BestLen(t, path).value;
        }
      }
    }
  }

  lemma {:induction false} TiedUnion(t: seq<Mount>, path: Name, name: Name)
    requires Covers(path, name)
    ensures Tied(t, path, |name|) == Union(t, name)
  {
    if t != [] {
      var n := |t| - 1;
      TiedUnion(t[..n], path, name);
      assert t == t[..n] + [t[n]];
      UnionCat(t[..n], [t[n]], name);
      assert Union([t[n]], name) == if t[n].prefix == name then [t[n]] else [];
      if Covers(path, t[n].prefix) && |t[n].prefix| == |name| { OneName(path, t[n].prefix, name); }
    }
  }

  /** The nth answer is the nth member of the longest name's union; and there is a longest
      name unless nothing matches. */
  lemma PickIs(t: seq<Mount>, path: Name, nth: int)
    ensures forall name :: Best(t, path, name) ==>
            Pick(t, path, nth) == if 0 <= nth < |Union(t, name)| then Some(Union(t, name)[nth]) else None
    ensures (forall i :: 0 <= i < |t| ==> !Covers(path, t[i].prefix)) ==> Pick(t, path, nth) == None
    ensures (exists i :: 0 <= i < |t| && Covers(path, t[i].prefix)) ==>
            exists i :: 0 <= i < |t| && Best(t, path, t[i].prefix)
  {
    hide Covers;
    BestLenIs(t, path);
    forall name | Best(t, path, name)
        ensures Pick(t, path, nth) == if 0 <= nth < |Union(t, name)| then Some(Union(t, name)[nth]) else None {
      var i :| 0 <= i < |t| && t[i].prefix == name;
      assert Covers(path, t[i].prefix);
      assert BestLen(t, path) == Some(|name|);
      TiedUnion(t, path, name);
    }
    if BestLen(t, path).Some? {
      var i :| 0 <= i < |t| && Covers(path, t[i].prefix) && |t[i].prefix| == BestLen(t, path).value;
      assert Best(t, path, t[i].prefix);
    }
  }

  // ---- binds

  function Cut(s: Name, n: nat): Name { if |s| <= n then s else s[..n] }

  /** Two pieces of a path; a slash is not doubled. */
  function Join(head: Name, rest: Name): Name {
    head + if head != [] && head[|head| - 1] == '/' && rest != [] && rest[0] == '/' then rest[1..] else rest
  }

  /** The path with the bound name swapped for what it stands for. */
  function Rewrite(path: Name, prefix: Name, target: Name): Name
    requires |prefix| <= |path|
  {
    Cut(Join(Cut(target, PATH_MAX - 1), path[|prefix|..]), PATH_MAX - 1)
  }

  lemma PickIn(t: seq<Mount>, path: Name, nth: int)
    ensures Pick(t, path, nth).Some? ==> Pick(t, path, nth).value in t && Covers(path, Pick(t, path, nth).value.prefix)
  {
    hide Covers;
    if BestLen(t, path).Some? { TiedIn(t, path, BestLen(t, path).value); }
  }

  lemma {:induction false} TiedIn(t: seq<Mount>, path: Name, len: nat)
    ensures forall k :: 0 <= k < |Tied(t, path, len)| ==>
            Tied(t, path, len)[k] in t && Covers(path, Tied(t, path, len)[k].prefix)
  {
    hide Covers;
    if t != [] {
      var n := |t| - 1;
      TiedIn(t[..n], path, len);
      assert forall m :: m in t[..n] ==> m in t;
    }
  }

  /** Who answers for a path, and for which name: nobody, a server, or no telling, the
      code having read past the end of the path. */
  datatype Answer = Nobody | Asks(server: int, name: Name) | Astray

  /** vfs_resolve from a given path, with hops steps left. */
  function Resolved(t: seq<Mount>, path: Name, nth: int, hops: nat): Answer
    decreases hops
  {
    if hops == 0 then Nobody else
    var m := Pick(t, path, nth);
    if m.None? then Nobody
    else if m.value.Server? then Asks(m.value.server, path)
    else if |m.value.prefix| > |path| then Astray
    else Resolved(t, Rewrite(path, m.value.prefix, m.value.target), 0, hops - 1)
  }

  /** The path after k binds have been followed. */
  function Trail(t: seq<Mount>, path: Name, nth: int, k: nat): Option<Name>
    decreases k
  {
    if k == 0 then Some(path) else
    var m := Pick(t, path, nth);
    if m.Some? && m.value.Bind?
        && |m.value.prefix| <= |path| then Trail(t, Rewrite(path, m.value.prefix, m.value.target), 0, k - 1) else None
  }

  /** A bind made with a slash at the end, met by its name without one. */
  ghost predicate Overshoots(t: seq<Mount>, path: Name, nth: int) {
    var m := Pick(t, path, nth);
    m.Some? && m.value.Bind? && m.value.prefix == path + "/"
  }

  /** One is met after k others. */
  ghost predicate MetAt(t: seq<Mount>, path: Name, nth: int, k: nat) {
    Trail(t, path, nth, k).Some? && Overshoots(t, Trail(t, path, nth, k).value, if k == 0 then nth else 0)
  }

  /** There is no telling exactly if one is met on the way. */
  lemma {:induction false} AstrayIs(t: seq<Mount>, path: Name, nth: int, hops: nat)
    ensures Resolved(t, path, nth, hops) == Astray <==> exists k: nat :: k < hops && MetAt(t, path, nth, k)
    decreases hops
  {
    hide Pick, Rewrite, Overshoots;
    if hops > 0 {
      var m := Pick(t, path, nth);
      OvershootIs(t, path, nth);
      assert MetAt(t, path, nth, 0) <==> Overshoots(t, path, nth);
      if m.Some? && m.value.Bind? && |m.value.prefix| <= |path| {
        var p := Rewrite(path, m.value.prefix, m.value.target);
        AstrayIs(t, p, 0, hops - 1);
        forall k: nat ensures MetAt(t, path, nth, k + 1) <==> MetAt(t, p, 0, k) { }
        assert forall k: nat :: k > 0 && MetAt(t, path, nth, k) ==> MetAt(t, p, 0, k - 1);
      }
    }
  }

  lemma OvershootIs(t: seq<Mount>, path: Name, nth: int)
    ensures var m := Pick(t, path, nth);
            Overshoots(t, path, nth) <==> m.Some? && m.value.Bind? && |m.value.prefix| > |path|
  {
    PickIn(t, path, nth);
  }

  /** bind(old, name): a path under the name means what the same path under old means. */
  lemma BindMeans(t: seq<Mount>, name: Name, target: Name, rest: Name, hops: nat)
    requires Union(t, name) == [Bind(name, target)] && Best(t, name + rest, name) && |target| + |rest| < PATH_MAX
    ensures Resolved(t, name + rest, 0, hops + 1) == Resolved(t, Join(target, rest), 0, hops)
  {
    hide Best, Pick, Resolved, Covers;
    PickIs(t, name + rest, 0);
    assert (name + rest)[|name|..] == rest;
    ResolvedStep(t, name + rest, Bind(name, target), hops);
  }

  lemma ResolvedStep(t: seq<Mount>, path: Name, m: Mount, hops: nat)
    requires Pick(t, path, 0) == Some(m) && m.Bind? && |m.prefix| <= |path|
    ensures Resolved(t, path, 0, hops + 1) == Resolved(t, Rewrite(path, m.prefix, m.target), 0, hops)
  {
  }

  /** Fewer hops find the same answer or none. */
  lemma {:induction false} MoreHops(t: seq<Mount>, path: Name, nth: int, hops: nat)
    ensures Resolved(t, path, nth, hops) != Nobody ==> Resolved(t, path, nth, hops + 1) == Resolved(t, path, nth, hops)
    decreases hops
  {
    hide Pick, Rewrite;
    if hops > 0 {
      var m := Pick(t, path, nth);
      if m.Some? && m.value.Bind? && |m.value.prefix| <= |path| {
        MoreHops(t, Rewrite(path, m.value.prefix, m.value.target), 0, hops - 1);
      }
    }
  }

  /** A name bound to itself answers nobody. */
  lemma {:induction false} BindLoop(t: seq<Mount>, a: Name, b: Name, hops: nat)
    requires Pick(t, a, 0) == Some(Bind(a, b)) && Pick(t, b, 0) == Some(Bind(b, a)) && |a| < PATH_MAX && |b| < PATH_MAX
    ensures Resolved(t, a, 0, hops) == Nobody
    decreases hops
  {
    hide Pick;
    if hops > 0 {
      assert a[|a|..] == [] && b + [] == b;
      assert Rewrite(a, a, b) == b;
      BindLoop(t, b, a, hops - 1);
    }
  }
}
