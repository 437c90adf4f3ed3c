/**
  Flattening image layers with whiteouts.

  `WhiteoutsResolve` is the loop as coded: it prunes members of lower layers
  whose path has a whiteout's prefix, then every surviving member is extracted in
  order. The reference is the OCI Image Format Specification, "Image Layer
  Filesystem Changeset": apply the layers one at a time, each first deleting what
  its whiteouts name. `FlattenIsSequential` says both give the same filesystem.
 */
module Whiteouts {

  type Name = string
  type Path = seq<Name>
  type Bytes = seq<bv8>

  /** Contents of a filesystem or of a tar member; `meta` is mode, owner, times. */
  datatype File = Dir(meta: nat) | Reg(meta: nat, content: Bytes) | Sym(target: string)

  /** A tar member. `id` is the identity of the object: sets of members compare it. */
  datatype Member = Member(id: nat, path: Path, file: File)

  type Fs = map<Path, File>

  // ---------------------------------------------------------------------------
  // Names as strings

  /** The member's name: components separated by slashes, "." for the root. */
  function Join(p: Path): string {
    if p == [] then "." else if |p| == 1 then p[0] else Join(p[..|p| - 1]) + "/" + p[|p| - 1]
  }

  /** prefix_path() as coded, on strings. */
  predicate PrefixPath(prefix: string, path: string) {
    prefix == path || (|prefix| < |path| && path[..|prefix| + 1] == prefix + "/")
  }

  predicate PlainName(n: Name) { n != "" && n != "." && n != ".." && '/' !in n }

  predicate PlainPath(p: Path) { forall i :: 0 <= i < |p| ==> PlainName(p[i]) }

  lemma EndsInSlash(s: string, t: string)
    ensures |s| < |t| && t[..|s| + 1] == s + "/" ==> t[|s|] == '/' && '/' in t
  {
    if |s| < |t| && t[..|s| + 1] == s + "/" {
      assert t[|s|] == t[..|s| + 1][|s|] == (s + "/")[|s|];
    }
  }

  lemma Tail(a: string, n: Name, k: nat)
    ensures |a| < k < |a + "/" + n| ==> (a + "/" + n)[k] in n
  {
    if |a| < k < |a + "/" + n| { assert (a + "/" + n)[k] == n[k - |a| - 1]; }
  }

  lemma PrefixOfSnoc(s: string, a: string, n: Name)
    requires '/' !in n
    ensures PrefixPath(s, a + "/" + n) <==> s == a + "/" + n || PrefixPath(s, a)
  {
    var t := a + "/" + n;
    EndsInSlash(s, t);
    Tail(a, n, |s|);
    if PrefixPath(s, t) && s != t {
      if |s| < |a| {
        assert t[..|s| + 1] == a[..|s| + 1];
      } else {
        assert t[..|s| + 1][..|s|] == a && (s + "/")[..|s|] == s;
      }
    }
    if PrefixPath(s, a) { assert t[..|s| + 1] == if s == a then a + "/" else a[..|s| + 1]; }
  }

  lemma PrefixSnoc(p: Path, q: Path)
    requires q != []
    ensures p <= q <==> p == q || p <= q[..|q| - 1]
  {
    if p <= q && |p| == |q| { assert p == q; }
  }

  /** On normalised names the string test is the test on components. */
  lemma {:induction false} PrefixPathIsPrefix(p: Path, q: Path)
    requires PlainPath(p) && PlainPath(q) && p != [] && q != []
    ensures PrefixPath(Join(p), Join(q)) <==> p <= q
    decreases |q|
  {
    var s, t := Join(p), Join(q);
    PrefixSnoc(p, q);
    if s == t { JoinInjective(p, q); }
    if |q| == 1 {
      JoinSlashes(q);
      EndsInSlash(s, t);
    } else {
      PrefixPathIsPrefix(p, q[..|q| - 1]);
      PrefixOfSnoc(s, Join(q[..|q| - 1]), q[|q| - 1]);
    }
  }

  lemma {:induction false} JoinSlashes(p: Path)
    requires PlainPath(p) && p != []
    ensures '/' in Join(p) <==> |p| > 1
  {
    if |p| > 1 { assert Join(p)[|Join(p[..|p| - 1])|] == '/'; }
  }

  lemma {:induction false} JoinInjective(p: Path, q: Path)
    requires PlainPath(p) && PlainPath(q) && p != [] && q != [] && Join(p) == Join(q)
    ensures p == q
    decreases |p|
  {
    JoinSlashes(p);
    JoinSlashes(q);
    if |p| > 1 {
      var a, b, m, n := Join(p[..|p| - 1]), Join(q[..|q| - 1]), p[|p| - 1], q[|q| - 1];
      LastSlash(a, m, b, n);
      JoinInjective(p[..|p| - 1], q[..|q| - 1]);
      assert p == p[..|p| - 1] + [m] && q == q[..|q| - 1] + [n];
    }
  }

  lemma LastSlash(a: string, m: Name, b: string, n: Name)
    requires a + "/" + m == b + "/" + n && '/' !in m && '/' !in n
    ensures a == b && m == n
  {
    var s, t := a + "/" + m, b + "/" + n;
    assert s[|a|] == '/' && t[|b|] == '/';
    Tail(a, m, |b|);
    Tail(b, n, |a|);
    assert s[..|a|] == a && t[..|b|] == b && s[|a| + 1..] == m && t[|b| + 1..] == n;
  }

  // ---------------------------------------------------------------------------
  // Whiteouts

  const OPAQUE: Name := ".wh..wh..opq"

  predicate IsWhiteout(m: Member) { m.path != [] && ".wh." <= Base(m.path) }

  predicate IsOpaque(m: Member) { m.path != [] && Base(m.path) == OPAQUE }

  function Base(p: Path): Name requires p != [] { p[|p| - 1] }

  function Parent(p: Path): Path requires p != [] { p[..|p| - 1] }

  /** The path that a whiteout is about: a directory to be emptied, or a file or
      directory to be removed. */
  function Target(w: Member): Path
    requires IsWhiteout(w)
  {
    if IsOpaque(w) then Parent(w.path) else Parent(w.path) + [Base(w.path)[4..]]
  }

  /** The prefix that the code computes: normpath of the directory name, or of the
      directory name, a slash and the rest of the file name. At the image root the
      directory name is the empty string. */
  function Prefix(w: Member): string
    requires IsWhiteout(w)
  {
    if |w.path| > 1 then Join(Target(w))
    else if IsOpaque(w) then "."
    else "/" + Base(w.path)[4..]
  }

  /** Spelled out for names: what a whiteout beside or inside a directory is about, and
      the prefix as a string. */
  lemma WhiteoutNames(id: nat, d: Path, n: Name, file: File)
    requires n != ".wh..opq" && d != []
    ensures var w := Member(id, d + [".wh." + n], file);
            IsWhiteout(w) && !IsOpaque(w) && Target(w) == d + [n] && Prefix(w) == Join(d) + "/" + n
    ensures var w := Member(id, d + [".wh..wh..opq"], file);
            IsWhiteout(w) && IsOpaque(w) && Target(w) == d && Prefix(w) == Join(d)
    ensures var w := Member(id, [".wh." + n], file); Target(w) == [n] && Prefix(w) == "/" + n
  {
    assert (".wh." + n)[4..] == n && ".wh..wh..opq"[4..] == ".wh..opq";
    assert (d + [n])[..|d|] == d && (d + [".wh." + n])[..|d|] == d && (d + [".wh..wh..opq"])[..|d|] == d;
    assert ".wh..wh..opq"[..4] == ".wh.";
  }

  predicate Matches(w: Member, m: Member)
    requires IsWhiteout(w)
  {
    PrefixPath(Prefix(w), Join(m.path))
  }

  // ---------------------------------------------------------------------------
  // Pruning, as a filter

  function Filter(keep: Member -> bool, ms: seq<Member>): seq<Member> {
    if ms == [] then []
    else
      var n := |ms| - 1;
      Filter(keep, ms[..n]) + (if keep(ms[n]) then [ms[n]] else [])
  }

  /** The members that do not have a prefix. */
  function Outside(prefix: string): Member -> bool { (m: Member) => !PrefixPath(prefix, Join(m.path)) }

  /** The members of a lower layer that a whiteout spares. */
  function Prune(ms: seq<Member>, w: Member): seq<Member>
    requires IsWhiteout(w)
  {
    Filter(Outside(Prefix(w)), ms)
  }

  predicate AllWhiteouts(ws: seq<Member>) { forall i :: 0 <= i < |ws| ==> IsWhiteout(ws[i]) }

  function PruneAll(ms: seq<Member>, ws: seq<Member>): seq<Member>
    requires AllWhiteouts(ws)
  {
    if ws == [] then ms else Prune(PruneAll(ms, ws[..|ws| - 1]), ws[|ws| - 1])
  }

  function WhiteoutsOf(ms: seq<Member>): (r: seq<Member>)
    ensures AllWhiteouts(r)
  {
    FilterHolds(IsWhiteout, ms);
    Filter(IsWhiteout, ms)
  }

  predicate Stays(m: Member) { !IsWhiteout(m) }

  function MembersOf(ms: seq<Member>): seq<Member> { Filter(Stays, ms) }

  predicate DistinctIds(ms: seq<Member>) {
    forall i, j :: 0 <= i < j < |ms| ==> ms[i].id != ms[j].id
  }

  ghost predicate AllIn(a: seq<Member>, b: seq<Member>) {
    forall i :: 0 <= i < |a| ==> a[i] in b
  }

  lemma {:induction false} FilterHolds(keep: Member -> bool, ms: seq<Member>)
    ensures forall i :: 0 <= i < |Filter(keep, ms)| ==> keep(Filter(keep, ms)[i])
  {
    if ms != [] { FilterHolds(keep, ms[..|ms| - 1]); }
  }

  lemma FilterLast(keep: Member -> bool, ms: seq<Member>)
    requires ms != []
    ensures var n := |ms| - 1;
            Filter(keep, ms) == if keep(ms[n]) then Filter(keep, ms[..n]) + [ms[n]] else Filter(keep, ms[..n])
  {
  }

  lemma FilterSnoc(keep: Member -> bool, ms: seq<Member>, k: nat)
    requires k < |ms|
    ensures Filter(keep, ms[..k + 1]) == Filter(keep, ms[..k]) + (if keep(ms[k]) then [ms[k]] else [])
    ensures Filter(keep, ms[..k]) + ms[k..] == Filter(keep, ms[..k]) + [ms[k]] + ms[k + 1..]
  {
    assert ms[..k + 1][..k] == ms[..k];
    assert ms[k..] == [ms[k]] + ms[k + 1..];
  }

  lemma {:induction false} FilterFrom(keep: Member -> bool, ms: seq<Member>)
    ensures AllIn(Filter(keep, ms), ms)
    ensures DistinctIds(ms) ==> DistinctIds(Filter(keep, ms))
  {
    if ms != [] {
      var n := |ms| - 1;
      var a, r := Filter(keep, ms[..n]), Filter(keep, ms);
      FilterFrom(keep, ms[..n]);
      forall i | 0 <= i < |r| ensures r[i] in ms {
        if i < |a| {
          var j :| 0 <= j < n && a[i] == ms[..n][j];
          assert ms[j] == a[i];
        } else {
          assert r[i] == ms[n];
        }
      }
      if DistinctIds(ms) { NotEarlier(keep, ms, n); }
    }
  }

  lemma NotEarlier(keep: Member -> bool, ms: seq<Member>, k: nat)
    requires DistinctIds(ms) && k < |ms| && AllIn(Filter(keep, ms[..k]), ms[..k])
    ensures forall i :: 0 <= i < |Filter(keep, ms[..k])| ==> Filter(keep, ms[..k])[i].id != ms[k].id
  {
    var kept := Filter(keep, ms[..k]);
    forall i | 0 <= i < |kept| ensures kept[i].id != ms[k].id {
      var j :| 0 <= j < k && kept[i] == ms[..k][j];
      assert ms[j].id != ms[k].id;
    }
  }

  /** Members that pass stay. */
  lemma {:induction false} FilterKeeps(keep: Member -> bool, ms: seq<Member>, k: nat)
    requires k < |ms| && keep(ms[k])
    ensures ms[k] in Filter(keep, ms)
  {
    var n := |ms| - 1;
    if k == n {
      assert Filter(keep, ms)[|Filter(keep, ms[..n])|] == ms[k];
    } else {
      FilterKeeps(keep, ms[..n], k);
      assert ms[..n][k] == ms[k];
    }
  }

  lemma {:induction false} FilterAll(keep: Member -> bool, ms: seq<Member>)
    requires forall i :: 0 <= i < |ms| ==> keep(ms[i])
    ensures Filter(keep, ms) == ms
  {
    if ms != [] {
      var a, m := ms[..|ms| - 1], ms[|ms| - 1];
      FilterAll(keep, a);
      FilterLast(keep, ms);
      assert ms == a + [m];
    }
  }

  // ---------------------------------------------------------------------------
  // The loops

  /** OrderedSet.remove */
  function Remove(ms: seq<Member>, m: Member): seq<Member> {
    if ms == [] then [] else if ms[0].id == m.id then ms[1..] else [ms[0]] + Remove(ms[1..], m)
  }

  lemma {:induction false} RemoveAt(a: seq<Member>, m: Member, b: seq<Member>)
    requires forall i :: 0 <= i < |a| ==> a[i].id != m.id
    ensures Remove(a + [m] + b, m) == a + b
  {
    if a == [] {
      assert a + [m] + b == [m] + b;
    } else {
      var s := a + [m] + b;
      assert s[1..] == a[1..] + [m] + b;
      RemoveAt(a[1..], m, b);
      assert a + b == [a[0]] + (a[1..] + b);
    }
  }

  /** `cur` is `ms` after the first `k` members are filtered in place. */
  ghost predicate HalfFiltered(keep: Member -> bool, ms: seq<Member>, k: nat, cur: seq<Member>)
    requires k <= |ms|
  {
    cur == Filter(keep, ms[..k]) + ms[k..]
  }

  lemma FilterStep(keep: Member -> bool, ms: seq<Member>, k: nat, cur: seq<Member>)
    requires DistinctIds(ms) && k < |ms| && HalfFiltered(keep, ms, k, cur)
    ensures HalfFiltered(keep, ms, k + 1, if keep(ms[k]) then cur else Remove(cur, ms[k]))
    ensures !keep(ms[k]) ==> |Remove(cur, ms[k])| == |cur| - 1
  {
    FilterSnoc(keep, ms, k);
    FilterFrom(keep, ms[..k]);
    NotEarlier(keep, ms, k);
    if !keep(ms[k]) { RemoveAt(Filter(keep, ms[..k]), ms[k], ms[k + 1..]); }
  }

  lemma FilterEnd(keep: Member -> bool, ms: seq<Member>, cur: seq<Member>)
    requires HalfFiltered(keep, ms, |ms|, cur)
    ensures cur == Filter(keep, ms)
  {
    assert ms[..|ms|] == ms;
  }

  ghost predicate AllDistinct(layers: seq<seq<Member>>) {
    forall i :: 0 <= i < |layers| ==> DistinctIds(layers[i])
  }

  /** How many members of the first `n` layers have a prefix. */
  function Ignored(layers: seq<seq<Member>>, prefix: string, n: nat): int
    requires n <= |layers|
  {
    if n == 0 then 0
    else Ignored(layers, prefix, n - 1) + |layers[n - 1]| - |Filter(Outside(prefix), layers[n - 1])|
  }

  /** A layer `ms` after the first `k` of its members are looked at. */
  function RemoveLoop(keep: Member -> bool, ms: seq<Member>, k: nat): seq<Member>
    requires k <= |ms|
  {
    if k == 0 then ms
    else
      var cur := RemoveLoop(keep, ms, k - 1);
      if keep(ms[k - 1]) then cur else Remove(cur, ms[k - 1])
  }

  lemma {:induction false} RemoveLoopAt(keep: Member -> bool, ms: seq<Member>, k: nat)
    requires k <= |ms| && DistinctIds(ms)
    ensures HalfFiltered(keep, ms, k, RemoveLoop(keep, ms, k))
    ensures k > 0 && !keep(ms[k - 1]) ==> |RemoveLoop(keep, ms, k)| == |RemoveLoop(keep, ms, k - 1)| - 1
  {
    if k > 0 {
      RemoveLoopAt(keep, ms, k - 1);
      FilterStep(keep, ms, k - 1, RemoveLoop(keep, ms, k - 1));
    }
  }

  lemma RemovedAll(keep: Member -> bool, ms: seq<Member>)
    requires DistinctIds(ms)
    ensures RemoveLoop(keep, ms, |ms|) == Filter(keep, ms)
  {
    RemoveLoopAt(keep, ms, |ms|);
    FilterEnd(keep, ms, RemoveLoop(keep, ms, |ms|));
  }

  lemma RemovedOne(keep: Member -> bool, ms: seq<Member>, k: nat)
    requires k < |ms| && DistinctIds(ms)
    ensures !keep(ms[k]) ==> |RemoveLoop(keep, ms, k + 1)| == |RemoveLoop(keep, ms, k)| - 1
  {
    RemoveLoopAt(keep, ms, k + 1);
  }

  /** The inner loop of whiteout_rm_prefix: remove matching members of one layer
      while going through a copy of it. */
  method PruneLayer(layers: array<seq<Member>>, i: nat, prefix: string) returns (ignored: nat)
    requires i < layers.Length && DistinctIds(layers[i])
    modifies layers
    ensures layers[..] == old(layers[..])[i := Filter(Outside(prefix), old(layers[i]))]
    ensures ignored == |old(layers[i])| - |Filter(Outside(prefix), old(layers[i]))|
  {
    var members2 := layers[i];
    ignored := 0;
    var k := 0;
    while k < |members2|
      invariant 0 <= k <= |members2|
      invariant forall j :: 0 <= j < layers.Length && j != i ==> layers[j] == old(layers[j])
      invariant layers[i] == RemoveLoop(Outside(prefix), members2, k)
      invariant ignored + |RemoveLoop(Outside(prefix), members2, k)| == |members2|
    {
      var m := members2[k];
      RemovedOne(Outside(prefix), members2, k);
      if PrefixPath(prefix, Join(m.path)) {
        ignored := ignored + 1;
        layers[i] := Remove(layers[i], m);
      }
      k := k + 1;
    }
    RemovedAll(Outside(prefix), members2);
  }

  /** The layers with the first `n` of them filtered. */
  function PruneBelow(layers: seq<seq<Member>>, keep: Member -> bool, n: nat): (r: seq<seq<Member>>)
    requires n <= |layers|
    ensures |r| == |layers|
  {
    if n == 0 then layers else PruneBelow(layers, keep, n - 1)[n - 1 := Filter(keep, layers[n - 1])]
  }

  lemma {:induction false} PruneBelowAt(layers: seq<seq<Member>>, keep: Member -> bool, n: nat, j: nat)
    requires n <= |layers| && j < |layers|
    ensures PruneBelow(layers, keep, n)[j] == if j < n then Filter(keep, layers[j]) else layers[j]
  {
    if n > 0 { PruneBelowAt(layers, keep, n - 1, j); }
  }

  lemma PruneBelowDistinct(layers: seq<seq<Member>>, keep: Member -> bool, n: nat)
    requires n <= |layers| && AllDistinct(layers)
    ensures AllDistinct(PruneBelow(layers, keep, n))
  {
    forall j | 0 <= j < |layers| ensures DistinctIds(PruneBelow(layers, keep, n)[j]) {
      PruneBelowAt(layers, keep, n, j);
      FilterFrom(keep, layers[j]);
    }
  }

  /** whiteout_rm_prefix: ignore members of the layers below `maxI` that have the
      prefix, already normalised; return how many. */
  method WhiteoutRmPrefix(layers: array<seq<Member>>, maxI: nat, prefix: string) returns (ignored: int)
    requires maxI <= layers.Length && AllDistinct(layers[..])
    modifies layers
    ensures layers[..] == PruneBelow(old(layers[..]), Outside(prefix), maxI)
    ensures ignored == Ignored(old(layers[..]), prefix, maxI)
  {
    ignored := 0;
    var i := 0;
    while i < maxI
      invariant 0 <= i <= maxI
      invariant layers[..] == PruneBelow(old(layers[..]), Outside(prefix), i)
      invariant ignored == Ignored(old(layers[..]), prefix, i)
    {
      PruneBelowAt(old(layers[..]), Outside(prefix), i, i);
      assert layers[i] == layers[..][i] == old(layers[..])[i];
      var ct := PruneLayer(layers, i, prefix);
      ignored := ignored + ct;
      i := i + 1;
    }
  }

  /** The layers after the first `k` members of a copy `ms` of layer `i`. */
  function ResolveMembers(layers: seq<seq<Member>>, i: nat, ms: seq<Member>, k: nat): (r: seq<seq<Member>>)
    requires i < |layers| && k <= |ms|
    ensures |r| == |layers|
  {
    if k == 0 then layers
    else
      var r, m := ResolveMembers(layers, i, ms, k - 1), ms[k - 1];
      if IsWhiteout(m) then PruneBelow(r[i := Remove(r[i], m)], Outside(Prefix(m)), i) else r
  }

  /** The layers after the whiteouts of the first `n` layers. */
  function ResolveLayers(layers: seq<seq<Member>>, n: nat): (r: seq<seq<Member>>)
    requires n <= |layers|
    ensures |r| == |layers|
  {
    if n == 0 then layers
    else
      var r := ResolveLayers(layers, n - 1);
      ResolveMembers(r, n - 1, r[n - 1], |r[n - 1]|)
  }

  /** One round of whiteouts_resolve: the whiteouts of layer `i`. */
  method ResolveLayer(layers: array<seq<Member>>, i: nat)
    requires i < layers.Length && AllDistinct(layers[..])
    modifies layers
    ensures layers[..] == ResolveMembers(old(layers[..]), i, old(layers[i]), |old(layers[i])|)
    ensures AllDistinct(layers[..])
  {
    var members2 := layers[i];
    var k := 0;
    while k < |members2|
      invariant 0 <= k <= |members2|
      invariant layers[..] == ResolveMembers(old(layers[..]), i, members2, k)
      invariant AllDistinct(layers[..])
    {
      var m := members2[k];
      if IsWhiteout(m) { ObeyWhiteout(layers, i, m); }
      k := k + 1;
    }
  }

  /** One whiteout: it leaves its layer, and what it hides leaves the layers below. */
  method ObeyWhiteout(layers: array<seq<Member>>, i: nat, m: Member)
    requires i < layers.Length && IsWhiteout(m) && AllDistinct(layers[..])
    modifies layers
    ensures layers[..] == PruneBelow(old(layers[..])[i := Remove(old(layers[i]), m)], Outside(Prefix(m)), i)
    ensures AllDistinct(layers[..])
  {
    RemoveMember(layers, i, m);
    PruneLower(layers, i, m);
  }

  method PruneLower(layers: array<seq<Member>>, i: nat, m: Member)
    requires i < layers.Length && IsWhiteout(m) && AllDistinct(layers[..])
    modifies layers
    ensures layers[..] == PruneBelow(old(layers[..]), Outside(Prefix(m)), i)
    ensures AllDistinct(layers[..])
  {
    ghost var mid := layers[..];
    var ct := WhiteoutRmPrefix(layers, i, Prefix(m));
    PruneBelowDistinct(mid, Outside(Prefix(m)), i);
  }

  /** members.remove(m) on one layer. */
  method RemoveMember(layers: array<seq<Member>>, i: nat, m: Member)
    requires i < layers.Length && AllDistinct(layers[..])
    modifies layers
    ensures layers[..] == old(layers[..])[i := Remove(old(layers[i]), m)]
    ensures AllDistinct(layers[..])
  {
    RemoveDistinct(layers[i], m);
    layers[i] := Remove(layers[i], m);
  }

  /** whiteouts_resolve */
  method WhiteoutsResolve(layers: array<seq<Member>>)
    requires AllDistinct(layers[..])
    modifies layers
    ensures layers[..] == ResolveLayers(old(layers[..]), layers.Length)
  {
    var i := 0;
    while i < layers.Length
      invariant 0 <= i <= layers.Length
      invariant AllDistinct(layers[..])
      invariant layers[..] == ResolveLayers(old(layers[..]), i)
    {
      ResolveLayer(layers, i);
      i := i + 1;
    }
  }

  lemma {:induction false} RemoveDistinct(ms: seq<Member>, m: Member)
    requires DistinctIds(ms)
    ensures DistinctIds(Remove(ms, m))
    ensures AllIn(Remove(ms, m), ms)
  {
    if ms != [] {
      RemoveDistinct(ms[1..], m);
      var r := Remove(ms, m);
      forall i | 0 <= i < |r| ensures r[i] in ms {
        if ms[0].id == m.id {
          assert r[i] == ms[i + 1];
        } else if i > 0 {
          var j :| 0 <= j < |ms[1..]| && Remove(ms[1..], m)[i - 1] == ms[1..][j];
          assert r[i] == ms[j + 1];
        } else {
          assert r[0] == ms[0];
        }
      }
      if ms[0].id != m.id {
        var t := Remove(ms[1..], m);
        forall i | 0 <= i < |t| ensures t[i].id != ms[0].id {
          var j :| 0 <= j < |ms[1..]| && t[i] == ms[1..][j];
          assert ms[j + 1].id != ms[0].id;
        }
      }
    }
  }

  /** Layers below `i` pruned by `ws`, and the layers above as they were. */
  ghost predicate PrunedBy(layers: seq<seq<Member>>, r: seq<seq<Member>>, i: nat, ws: seq<Member>)
    requires |r| == |layers| && AllWhiteouts(ws)
  {
    forall j :: 0 <= j < |layers| && j != i ==> PrunedAt(layers, r, i, ws, j)
  }

  ghost predicate PrunedAt(layers: seq<seq<Member>>, r: seq<seq<Member>>, i: nat, ws: seq<Member>, j: nat)
    requires |r| == |layers| && AllWhiteouts(ws) && j < |layers|
  {
    r[j] == if j < i then PruneAll(layers[j], ws) else layers[j]
  }

  lemma PrunedByStep(layers: seq<seq<Member>>, r: seq<seq<Member>>, i: nat, ws: seq<Member>, m: Member, x: seq<Member>)
    requires |r| == |layers| && i < |r| && AllWhiteouts(ws) && IsWhiteout(m) && PrunedBy(layers, r, i, ws)
    ensures AllWhiteouts(ws + [m]) && PrunedBy(layers, PruneBelow(r[i := x], Outside(Prefix(m)), i), i, ws + [m])
    ensures PruneBelow(r[i := x], Outside(Prefix(m)), i)[i] == x
  {
    assert (ws + [m])[..|ws|] == ws;
    var t := r[i := x];
    forall j | 0 <= j < |layers| && j != i ensures PrunedAt(layers, PruneBelow(t, Outside(Prefix(m)), i), i, ws + [m], j) {
      assert PrunedAt(layers, r, i, ws, j);
      PruneBelowAt(t, Outside(Prefix(m)), i, j);
    }
    PruneBelowAt(t, Outside(Prefix(m)), i, i);
  }

  /** What one layer's whiteouts do: hide members of the layers below, and go. */
  lemma {:induction false} ResolveMembersAt(layers: seq<seq<Member>>, i: nat, ms: seq<Member>, k: nat)
    requires i < |layers| && ms == layers[i] && k <= |ms| && DistinctIds(ms)
    ensures HalfFiltered(Stays, ms, k, ResolveMembers(layers, i, ms, k)[i])
    ensures PrunedBy(layers, ResolveMembers(layers, i, ms, k), i, WhiteoutsOf(ms[..k]))
  {
    if k == 0 {
      forall j | 0 <= j < |layers| && j != i ensures PrunedAt(layers, layers, i, [], j) {}
    } else {
      ResolveMembersAt(layers, i, ms, k - 1);
      var r, m := ResolveMembers(layers, i, ms, k - 1), ms[k - 1];
      FilterSnoc(IsWhiteout, ms, k - 1);
      FilterStep(Stays, ms, k - 1, r[i]);
      assert ms[..k] == ms[..k - 1 + 1];
      if IsWhiteout(m) {
        PrunedByStep(layers, r, i, WhiteoutsOf(ms[..k - 1]), m, Remove(r[i], m));
        assert WhiteoutsOf(ms[..k]) == WhiteoutsOf(ms[..k - 1]) + [m];
      } else {
        assert WhiteoutsOf(ms[..k]) == WhiteoutsOf(ms[..k - 1]);
      }
    }
  }

  /** One whole round. */
  lemma ResolveRound(layers: seq<seq<Member>>, i: nat)
    requires i < |layers| && DistinctIds(layers[i])
    ensures ResolveMembers(layers, i, layers[i], |layers[i]|)[i] == MembersOf(layers[i])
    ensures PrunedBy(layers, ResolveMembers(layers, i, layers[i], |layers[i]|), i, WhiteoutsOf(layers[i]))
  {
    var ms := layers[i];
    ResolveMembersAt(layers, i, ms, |ms|);
    assert ms[..|ms|] == ms;
    FilterEnd(Stays, ms, ResolveMembers(layers, i, ms, |ms|)[i]);
  }

  /** Layers that no round has reached are as they were. */
  lemma {:induction false} NotReached(layers: seq<seq<Member>>, n: nat, j: nat)
    requires n <= j < |layers| && AllDistinct(layers)
    ensures ResolveLayers(layers, n)[j] == layers[j]
  {
    if n > 0 {
      var r := ResolveLayers(layers, n - 1);
      NotReached(layers, n - 1, j);
      NotReached(layers, n - 1, n - 1);
      assert DistinctIds(layers[n - 1]);
      ResolveRound(r, n - 1);
      assert PrunedAt(r, ResolveLayers(layers, n), n - 1, WhiteoutsOf(r[n - 1]), j);
    }
  }

  /** What a round does: the layer keeps its own members, and the layers below are
      pruned by its whiteouts. */
  lemma RoundDoes(layers: seq<seq<Member>>, n: nat)
    requires n < |layers| && AllDistinct(layers)
    ensures ResolveLayers(layers, n)[n] == layers[n]
    ensures ResolveLayers(layers, n + 1)[n] == MembersOf(layers[n])
    ensures PrunedBy(ResolveLayers(layers, n), ResolveLayers(layers, n + 1), n, WhiteoutsOf(layers[n]))
  {
    NotReached(layers, n, n);
    assert DistinctIds(layers[n]);
    ResolveRound(ResolveLayers(layers, n), n);
  }

  // ---------------------------------------------------------------------------
  // Extraction

  function Del(fs: Fs, p: Path): Fs { map k | k in fs && !(p <= k) :: fs[k] }

  /** TarFile.clobber: get out of the way what the kind of member cannot replace. */
  function Clobber(fs: Fs, p: Path, regulars: bool, symlinks: bool, dirs: bool): Fs {
    if p !in fs then fs
    else match fs[p]
      case Reg(_, _) => if regulars then fs - {p} else fs
      case Sym(_) => if symlinks then fs - {p} else fs
      case Dir(_) => if dirs then Del(fs, p) else fs
  }

  /** makedir, makefile and makelink. */
  function Apply(fs: Fs, m: Member): Fs {
    match m.file
    case Dir(_) => Clobber(fs, m.path, true, true, false)[m.path := m.file]
    case Reg(_, _) => Clobber(fs, m.path, false, true, true)[m.path := m.file]
    case Sym(_) => Clobber(fs, m.path, true, true, true)[m.path := m.file]
  }

  /** extractall */
  function Extract(fs: Fs, ms: seq<Member>): Fs {
    if ms == [] then fs else Apply(Extract(fs, ms[..|ms| - 1]), ms[|ms| - 1])
  }

  const ROOT: Fs := map[[] := Dir(0)]

  /** unpack_layers after the whiteouts are resolved: extract the first `k` layers. */
  function ExtractLayers(rs: seq<seq<Member>>, k: nat): Fs
    requires k <= |rs|
  {
    if k == 0 then ROOT else Extract(ExtractLayers(rs, k - 1), rs[k - 1])
  }

  // ---------------------------------------------------------------------------
  // The reference: one layer at a time

  /** What a whiteout does to the layers below: the named file or directory goes,
      or the directory's content but not the directory. */
  function Hide(fs: Fs, w: Member): Fs
    requires IsWhiteout(w)
  {
    if IsOpaque(w) then map k | k in fs && !(Target(w) < k) :: fs[k] else Del(fs, Target(w))
  }

  function HideAll(fs: Fs, ws: seq<Member>): Fs
    requires AllWhiteouts(ws)
  {
    if ws == [] then fs else Hide(HideAll(fs, ws[..|ws| - 1]), ws[|ws| - 1])
  }

  function Sequential(layers: seq<seq<Member>>, n: nat): Fs
    requires n <= |layers|
  {
    if n == 0 then ROOT
    else Extract(HideAll(Sequential(layers, n - 1), WhiteoutsOf(layers[n - 1])), MembersOf(layers[n - 1]))
  }

  // ---------------------------------------------------------------------------
  // Pruning members is deleting paths

  /** A whiteout on which the prefix test does what the specification asks: below
      the image root, with plain names. */
  predicate Sound(w: Member) {
    IsWhiteout(w) && |w.path| >= 2 && PlainPath(w.path) && PlainPath(Target(w))
  }

  predicate AllSound(ws: seq<Member>) { forall i :: 0 <= i < |ws| ==> Sound(ws[i]) }

  predicate PlainLayer(ms: seq<Member>) { forall i :: 0 <= i < |ms| ==> PlainPath(ms[i].path) }

  lemma MatchesIsPrefix(w: Member, m: Member)
    requires Sound(w) && PlainPath(m.path)
    ensures Matches(w, m) <==> Target(w) <= m.path
  {
    if m.path == [] {
      JoinSlashes(Target(w));
    } else {
      PrefixPathIsPrefix(Target(w), m.path);
    }
  }

  lemma DelApply(fs: Fs, m: Member, p: Path)
    ensures p <= m.path ==> Del(Apply(fs, m), p) == Del(fs, p)
    ensures !(p <= m.path) ==> Del(Apply(fs, m), p) == Apply(Del(fs, p), m)
  {
  }

  lemma ExtractSnoc(fs: Fs, ms: seq<Member>, m: Member)
    ensures Extract(fs, ms + [m]) == Apply(Extract(fs, ms), m)
  {
    assert (ms + [m])[..|ms|] == ms;
  }

  lemma DelLast(f: Fs, m: Member, fs: Fs, a: seq<Member>, t: Path)
    requires Extract(Del(fs, t), a) == Del(f, t)
    ensures t <= m.path ==> Del(Apply(f, m), t) == Extract(Del(fs, t), a)
    ensures !(t <= m.path) ==> Del(Apply(f, m), t) == Extract(Del(fs, t), a + [m])
  {
    DelApply(f, m, t);
    ExtractSnoc(Del(fs, t), a, m);
  }

  /** Extracting what is not under a path is extracting everything and then deleting. */
  lemma {:induction false} DelExtract(fs: Fs, ms: seq<Member>, keep: Member -> bool, t: Path)
    requires forall i :: 0 <= i < |ms| ==> (keep(ms[i]) <==> !(t <= ms[i].path))
    ensures Del(Extract(fs, ms), t) == Extract(Del(fs, t), Filter(keep, ms))
  {
    if ms != [] {
      var a, m := ms[..|ms| - 1], ms[|ms| - 1];
      DelExtract(fs, a, keep, t);
      FilterLast(keep, ms);
      DelLast(Extract(fs, a), m, fs, Filter(keep, a), t);
    }
  }

  /** What the pruning amounts to for a list of whiteouts. */
  function DelAll(fs: Fs, ws: seq<Member>): Fs
    requires AllWhiteouts(ws)
  {
    if ws == [] then fs else Del(DelAll(fs, ws[..|ws| - 1]), Target(ws[|ws| - 1]))
  }

  lemma PrunePlain(ms: seq<Member>, w: Member)
    requires IsWhiteout(w) && PlainLayer(ms)
    ensures PlainLayer(Prune(ms, w))
  {
    FilterFrom(Outside(Prefix(w)), ms);
    FromPlain(Prune(ms, w), ms);
  }

  lemma FromPlain(a: seq<Member>, b: seq<Member>)
    requires AllIn(a, b) && PlainLayer(b)
    ensures PlainLayer(a)
  {
    forall i | 0 <= i < |a| ensures PlainPath(a[i].path) {
      var j :| 0 <= j < |b| && a[i] == b[j];
    }
  }

  lemma {:induction false} PruneAllPlain(ms: seq<Member>, ws: seq<Member>)
    requires AllWhiteouts(ws) && PlainLayer(ms)
    ensures PlainLayer(PruneAll(ms, ws))
  {
    if ws != [] {
      PruneAllPlain(ms, ws[..|ws| - 1]);
      PrunePlain(PruneAll(ms, ws[..|ws| - 1]), ws[|ws| - 1]);
    }
  }

  lemma SoundAgrees(ms: seq<Member>, w: Member, keep: Member -> bool)
    requires Sound(w) && PlainLayer(ms) && keep == Outside(Prefix(w))
    ensures forall i :: 0 <= i < |ms| ==> (keep(ms[i]) <==> !(Target(w) <= ms[i].path))
  {
    forall i | 0 <= i < |ms| ensures keep(ms[i]) <==> !(Target(w) <= ms[i].path) {
      assert PlainPath(ms[i].path);
      MatchesIsPrefix(w, ms[i]);
    }
  }

  lemma {:induction false} DelAllExtract(fs: Fs, ms: seq<Member>, ws: seq<Member>)
    requires AllWhiteouts(ws) && AllSound(ws) && PlainLayer(ms)
    ensures DelAll(Extract(fs, ms), ws) == Extract(DelAll(fs, ws), PruneAll(ms, ws))
  {
    if ws != [] {
      var n := |ws| - 1;
      var a, w := PruneAll(ms, ws[..n]), ws[n];
      DelAllExtract(fs, ms, ws[..n]);
      PruneAllPlain(ms, ws[..n]);
      SoundAgrees(a, w, Outside(Prefix(w)));
      DelExtract(DelAll(fs, ws[..n]), a, Outside(Prefix(w)), Target(w));
    }
  }

  ghost predicate AllPlain(layers: seq<seq<Member>>) {
    forall i :: 0 <= i < |layers| ==> PlainLayer(layers[i])
  }

  lemma MembersPlain(ms: seq<Member>)
    requires PlainLayer(ms)
    ensures PlainLayer(MembersOf(ms))
  {
    FilterFrom(Stays, ms);
    FromPlain(MembersOf(ms), ms);
  }

  lemma {:induction false} DelAllRoot(ws: seq<Member>)
    requires AllWhiteouts(ws) && AllSound(ws)
    ensures DelAll(ROOT, ws) == ROOT
  {
    if ws != [] {
      DelAllRoot(ws[..|ws| - 1]);
      assert !(Target(ws[|ws| - 1]) <= []);
    }
  }

  /** One more round of whiteouts deletes from what the layers below amount to. */
  lemma {:induction false} ExtractMore(rs: seq<seq<Member>>, r2: seq<seq<Member>>, n: nat, ws: seq<Member>, k: nat)
    requires |rs| == |r2| && k <= n < |rs| && AllWhiteouts(ws) && AllSound(ws)
    requires PrunedBy(rs, r2, n, ws) && AllPlain(rs)
    ensures ExtractLayers(r2, k) == DelAll(ExtractLayers(rs, k), ws)
  {
    if k == 0 {
      DelAllRoot(ws);
    } else {
      ExtractMore(rs, r2, n, ws, k - 1);
      assert PrunedAt(rs, r2, n, ws, k - 1);
      DelAllExtract(ExtractLayers(rs, k - 1), rs[k - 1], ws);
    }
  }

  // ---------------------------------------------------------------------------
  // Opaque whiteouts: the pruned directory comes back

  ghost predicate SameExcept(a: Fs, b: Fs, d: set<Path>) {
    forall k :: k !in d ==> SameAt(a, b, k)
  }

  ghost predicate SameAt(a: Fs, b: Fs, k: Path) {
    (k in a <==> k in b) && (k in a && k in b ==> a[k] == b[k])
  }

  function OpaqueDirs(ws: seq<Member>): set<Path>
    requires AllWhiteouts(ws)
  {
    if ws == [] then {}
    else
      var n := |ws| - 1;
      OpaqueDirs(ws[..n]) + (if IsOpaque(ws[n]) then {Target(ws[n])} else {})
  }

  lemma HideDel(a: Fs, b: Fs, d: set<Path>, w: Member)
    requires IsWhiteout(w) && SameExcept(a, b, d)
    ensures SameExcept(Del(a, Target(w)), Hide(b, w), d + (if IsOpaque(w) then {Target(w)} else {}))
  {
    var t, e := Target(w), d + (if IsOpaque(w) then {Target(w)} else {});
    forall k | k !in e ensures SameAt(Del(a, t), Hide(b, w), k) {
      assert SameAt(a, b, k);
      if t <= k && |t| == |k| { assert t == k; }
    }
  }

  lemma {:induction false} HideAllDelAll(fs: Fs, ws: seq<Member>)
    requires AllWhiteouts(ws)
    ensures SameExcept(DelAll(fs, ws), HideAll(fs, ws), OpaqueDirs(ws))
  {
    if ws != [] {
      var n := |ws| - 1;
      HideAllDelAll(fs, ws[..n]);
      HideDel(DelAll(fs, ws[..n]), HideAll(fs, ws[..n]), OpaqueDirs(ws[..n]), ws[n]);
    }
  }

  function LeftOver(d: set<Path>, ms: seq<Member>): set<Path> {
    if ms == [] then d else LeftOver(d, ms[..|ms| - 1]) - {ms[|ms| - 1].path}
  }

  /** Nothing is below these directories. */
  ghost predicate Bare(fs: Fs, d: set<Path>) {
    forall p, k :: p in d && k in fs ==> !(p < k)
  }

  lemma {:induction false} HiddenBare(fs: Fs, ws: seq<Member>)
    requires AllWhiteouts(ws)
    ensures Bare(HideAll(fs, ws), OpaqueDirs(ws)) && Bare(DelAll(fs, ws), OpaqueDirs(ws))
  {
    if ws != [] { HiddenBare(fs, ws[..|ws| - 1]); }
  }

  /** The first member for an opaque directory, of whatever kind, makes both sides agree
      there, because nothing has been extracted below it yet. */
  lemma ApplySame(a: Fs, b: Fs, d: set<Path>, m: Member)
    requires SameExcept(a, b, d) && Bare(a, d) && Bare(b, d)
    requires forall p :: p in d ==> !(p < m.path)
    ensures SameExcept(Apply(a, m), Apply(b, m), d - {m.path})
    ensures Bare(Apply(a, m), d - {m.path}) && Bare(Apply(b, m), d - {m.path})
  {
    assert m.path !in d ==> SameAt(a, b, m.path);
    forall k | k !in d - {m.path} ensures SameAt(Apply(a, m), Apply(b, m), k) {
      assert k != m.path && k !in d ==> SameAt(a, b, k);
    }
  }

  lemma {:induction false} ExtractSame(a: Fs, b: Fs, d: set<Path>, ms: seq<Member>)
    requires SameExcept(a, b, d) && Bare(a, d) && Bare(b, d) && ParentsFirst(ms) && [] !in d
    ensures SameExcept(Extract(a, ms), Extract(b, ms), LeftOver(d, ms))
    ensures Bare(Extract(a, ms), LeftOver(d, ms)) && Bare(Extract(b, ms), LeftOver(d, ms))
  {
    if ms != [] {
      var init, m := ms[..|ms| - 1], ms[|ms| - 1];
      ExtractSame(a, b, d, init);
      forall p | p in LeftOver(d, init) ensures !(p < m.path) { NotYet(d, init, m, p); }
      ApplySame(Extract(a, init), Extract(b, init), LeftOver(d, init), m);
    }
  }

  /** What is below a directory comes after the directory. */
  lemma NotYet(d: set<Path>, init: seq<Member>, m: Member, p: Path)
    requires AllListed(init, m) && [] !in d && p in LeftOver(d, init)
    ensures !(p < m.path)
  {
    LeftOverIn(d, init, p);
    if p < m.path {
      assert m.path[..|p|] == p && Listed(init, m.path[..|p|]);
      ListedAt(init, p);
    }
  }

  lemma {:induction false} LeftOverIn(d: set<Path>, ms: seq<Member>, p: Path)
    ensures p in LeftOver(d, ms) <==> p in d && forall i :: 0 <= i < |ms| ==> ms[i].path != p
  {
    if ms != [] {
      var n := |ms| - 1;
      LeftOverIn(d, ms[..n], p);
      assert forall i :: 0 <= i < n ==> ms[..n][i] == ms[i];
    }
  }

  /** Where there is a directory at `p`, this leaves one. */
  predicate Leaves(m: Member, p: Path) { m.path <= p ==> m.file.Dir? }

  /** The last thing that the list has to say about `p` is that it is a directory: it is
      listed as one, and afterwards neither it nor a directory above it is listed as
      anything else. */
  predicate Listed(ms: seq<Member>, p: Path) {
    ms != [] &&
    var m := ms[|ms| - 1];
    || (m.path == p && m.file.Dir? && !IsWhiteout(m))
    || (Leaves(m, p) && Listed(ms[..|ms| - 1], p))
  }

  /** Every directory on the way to `m` is, at the end of the list, one. */
  ghost predicate AllListed(ms: seq<Member>, m: Member) {
    forall l :: 0 < l < |m.path| ==> Listed(ms, m.path[..l])
  }

  /** So it is before each member and whiteout. */
  ghost predicate ParentsFirst(ms: seq<Member>) {
    ms == [] || (ParentsFirst(ms[..|ms| - 1]) && AllListed(ms[..|ms| - 1], ms[|ms| - 1]))
  }

  lemma {:induction false} ListedAt(ms: seq<Member>, p: Path)
    requires Listed(ms, p)
    ensures exists j :: 0 <= j < |ms| && ms[j].path == p && ms[j].file.Dir? && !IsWhiteout(ms[j])
  {
    var n := |ms| - 1;
    if ms[n].path == p && ms[n].file.Dir? && !IsWhiteout(ms[n]) {
    } else {
      ListedAt(ms[..n], p);
      var j :| 0 <= j < n && ms[..n][j].path == p && ms[..n][j].file.Dir? && !IsWhiteout(ms[..n][j]);
      assert ms[j] == ms[..n][j];
    }
  }

  lemma {:induction false} ParentsAt(ms: seq<Member>, k: nat)
    requires ParentsFirst(ms) && k < |ms|
    ensures ParentsFirst(ms[..k]) && AllListed(ms[..k], ms[k])
  {
    var n := |ms| - 1;
    if k < n {
      ParentsAt(ms[..n], k);
      assert ms[..n][..k] == ms[..k] && ms[..n][k] == ms[k];
    }
  }

  /** Root members are directories. */
  ghost predicate RootIsDir(ms: seq<Member>) {
    forall k :: 0 <= k < |ms| && ms[k].path == [] ==> ms[k].file.Dir?
  }

  /** A layer may list a path several times, but what it lists below a directory it lists
      while that is a directory. */
  ghost predicate ValidLayer(ms: seq<Member>) {
    DistinctIds(ms) && PlainLayer(ms) && ParentsFirst(ms) && RootIsDir(ms) && AllSound(WhiteoutsOf(ms))
  }

  ghost predicate ValidLayers(layers: seq<seq<Member>>) {
    forall i :: 0 <= i < |layers| ==> ValidLayer(layers[i])
  }

  lemma {:induction false} OpaqueDirsFrom(ws: seq<Member>, p: Path)
    requires AllWhiteouts(ws) && p in OpaqueDirs(ws)
    ensures exists i :: 0 <= i < |ws| && IsOpaque(ws[i]) && Target(ws[i]) == p
  {
    var n := |ws| - 1;
    if p in OpaqueDirs(ws[..n]) {
      OpaqueDirsFrom(ws[..n], p);
      var i :| 0 <= i < n && IsOpaque(ws[..n][i]) && Target(ws[..n][i]) == p;
      assert ws[i] == ws[..n][i];
    } else {
      assert IsOpaque(ws[n]) && Target(ws[n]) == p;
    }
  }

  /** An opaque whiteout comes after its directory. */
  lemma OpaqueParent(ms: seq<Member>, k: nat)
    requires ParentsFirst(ms) && k < |ms| && IsWhiteout(ms[k]) && IsOpaque(ms[k]) && |ms[k].path| >= 2
    ensures exists j :: 0 <= j < |ms| && ms[j].path == Target(ms[k]) && !IsWhiteout(ms[j])
  {
    var p := Target(ms[k]);
    ParentsAt(ms, k);
    assert Listed(ms[..k], ms[k].path[..|ms[k].path| - 1]);
    ListedAt(ms[..k], p);
    var j :| 0 <= j < k && ms[..k][j].path == p && !IsWhiteout(ms[..k][j]);
    assert ms[j] == ms[..k][j];
  }

  /** An opaque directory is a listed directory of its layer. */
  lemma OpaqueListed(ms: seq<Member>, ws: seq<Member>, p: Path)
    requires ParentsFirst(ms) && ws == WhiteoutsOf(ms) && AllWhiteouts(ws) && AllSound(ws) && p in OpaqueDirs(ws)
    ensures p != [] && exists j :: 0 <= j < |ms| && ms[j].path == p && !IsWhiteout(ms[j])
  {
    OpaqueDirsFrom(ws, p);
    var i :| 0 <= i < |ws| && IsOpaque(ws[i]) && Target(ws[i]) == p;
    FilterFrom(IsWhiteout, ms);
    var k :| 0 <= k < |ms| && ws[i] == ms[k];
    assert Sound(ws[i]);
    OpaqueParent(ms, k);
  }

  /** Members other than whiteouts that are listed are what is extracted. */
  lemma ListedMember(ms: seq<Member>, p: Path)
    requires exists j :: 0 <= j < |ms| && ms[j].path == p && !IsWhiteout(ms[j])
    ensures exists i :: 0 <= i < |MembersOf(ms)| && MembersOf(ms)[i].path == p
  {
    var j :| 0 <= j < |ms| && ms[j].path == p && !IsWhiteout(ms[j]);
    FilterKeeps(Stays, ms, j);
    var i :| 0 <= i < |MembersOf(ms)| && MembersOf(ms)[i] == ms[j];
  }

  lemma {:induction false} ResolvePlain(layers: seq<seq<Member>>, n: nat)
    requires n <= |layers| && AllDistinct(layers) && AllPlain(layers)
    ensures AllPlain(ResolveLayers(layers, n))
  {
    if n > 0 {
      ResolvePlain(layers, n - 1);
      NextPlain(layers, n - 1, ResolveLayers(layers, n - 1), ResolveLayers(layers, n));
    }
  }

  lemma NextPlain(layers: seq<seq<Member>>, n: nat, rs: seq<seq<Member>>, r2: seq<seq<Member>>)
    requires n < |layers| && AllDistinct(layers) && AllPlain(rs)
    requires rs == ResolveLayers(layers, n) && r2 == ResolveLayers(layers, n + 1)
    ensures AllPlain(r2)
  {
    RoundDoes(layers, n);
    RoundPlain(rs, r2, n);
  }

  lemma RoundPlain(rs: seq<seq<Member>>, r2: seq<seq<Member>>, i: nat)
    requires |rs| == |r2| && i < |rs| && AllPlain(rs) && r2[i] == MembersOf(rs[i])
    requires PrunedBy(rs, r2, i, WhiteoutsOf(rs[i]))
    ensures AllPlain(r2)
  {
    forall j | 0 <= j < |r2| ensures PlainLayer(r2[j]) {
      assert PlainLayer(rs[j]);
      if j == i {
        MembersPlain(rs[i]);
      } else {
        assert PrunedAt(rs, r2, i, WhiteoutsOf(rs[i]), j);
        PruneAllPlain(rs[j], WhiteoutsOf(rs[i]));
      }
    }
  }

  /** What an opaque whiteout's pruning took too much is put back by its own layer. */
  lemma LayerPutsBack(fs: Fs, ms: seq<Member>, ws: seq<Member>)
    requires ValidLayer(ms) && ws == WhiteoutsOf(ms)
    ensures Extract(DelAll(fs, ws), MembersOf(ms)) == Extract(HideAll(fs, ws), MembersOf(ms))
  {
    var d := OpaqueDirs(ws);
    HideAllDelAll(fs, ws);
    HiddenBare(fs, ws);
    OpaqueComeBack(ms, ws);
    MembersParents(ms);
    ExtractSame(DelAll(fs, ws), HideAll(fs, ws), d, MembersOf(ms));
    SameExceptNothing(Extract(DelAll(fs, ws), MembersOf(ms)), Extract(HideAll(fs, ws), MembersOf(ms)));
  }

  lemma SameExceptNothing(a: Fs, b: Fs)
    requires SameExcept(a, b, {})
    ensures a == b
  {
    assert forall k :: k in a ==> SameAt(a, b, k);
    assert forall k :: k in b ==> SameAt(a, b, k);
  }

  lemma OpaqueComeBack(ms: seq<Member>, ws: seq<Member>)
    requires ValidLayer(ms) && ws == WhiteoutsOf(ms)
    ensures LeftOver(OpaqueDirs(ws), MembersOf(ms)) == {} && [] !in OpaqueDirs(ws)
  {
    var d, xs := OpaqueDirs(ws), MembersOf(ms);
    forall p | p in d ensures p != [] && p !in LeftOver(d, xs) {
      OpaqueListed(ms, ws, p);
      LeftOverIn(d, xs, p);
      ListedMember(ms, p);
    }
    forall p ensures p !in LeftOver(d, xs) { LeftOverIn(d, xs, p); }
  }

  lemma ValidParts(layers: seq<seq<Member>>)
    requires ValidLayers(layers)
    ensures AllDistinct(layers) && AllPlain(layers)
  {
    forall i | 0 <= i < |layers| ensures DistinctIds(layers[i]) && PlainLayer(layers[i]) {
      assert ValidLayer(layers[i]);
    }
  }

  lemma ValidSound(layers: seq<seq<Member>>, i: nat)
    requires ValidLayers(layers) && i < |layers|
    ensures ValidLayer(layers[i]) && AllSound(WhiteoutsOf(layers[i]))
  {
  }

  /** One more layer. */
  lemma FlattenRound(layers: seq<seq<Member>>, n: nat, ws: seq<Member>)
    requires n < |layers| && ValidLayers(layers) && ws == WhiteoutsOf(layers[n])
    ensures AllWhiteouts(ws)
    ensures ExtractLayers(ResolveLayers(layers, n + 1), n + 1) ==
            Extract(HideAll(ExtractLayers(ResolveLayers(layers, n), n), ws), MembersOf(layers[n]))
  {
    ValidParts(layers);
    RoundDoes(layers, n);
    ResolvePlain(layers, n);
    ValidSound(layers, n);
    ExtractRound(ResolveLayers(layers, n), ResolveLayers(layers, n + 1), n, layers[n], ws);
  }

  lemma ExtractRound(rs: seq<seq<Member>>, r2: seq<seq<Member>>, n: nat, ms: seq<Member>, ws: seq<Member>)
    requires |rs| == |r2| && n < |rs| && AllPlain(rs) && ValidLayer(ms) && ws == WhiteoutsOf(ms)
    requires PrunedBy(rs, r2, n, ws) && r2[n] == MembersOf(ms)
    ensures ExtractLayers(r2, n + 1) == Extract(HideAll(ExtractLayers(rs, n), ws), MembersOf(ms))
  {
    ExtractMore(rs, r2, n, ws, n);
    LayerPutsBack(ExtractLayers(rs, n), ms, ws);
  }

  lemma SequentialLast(layers: seq<seq<Member>>, n: nat, ws: seq<Member>)
    requires 0 < n <= |layers| && ws == WhiteoutsOf(layers[n - 1])
    ensures Sequential(layers, n) == Extract(HideAll(Sequential(layers, n - 1), ws), MembersOf(layers[n - 1]))
  {
  }

  /** Pruning and then extracting everything is applying one layer after the other. */
  lemma {:induction false} FlattenIsSequential(layers: seq<seq<Member>>, n: nat)
    requires n <= |layers| && ValidLayers(layers)
    ensures ExtractLayers(ResolveLayers(layers, n), n) == Sequential(layers, n)
  {
    if n > 0 {
      FlattenIsSequential(layers, n - 1);
      FlattenRound(layers, n - 1, WhiteoutsOf(layers[n - 1]));
      SequentialLast(layers, n, WhiteoutsOf(layers[n - 1]));
    }
  }

  // ---------------------------------------------------------------------------
  // What is at each path, said without extracting

  datatype Option<T> = None | Some(value: T)

  function At(fs: Fs, p: Path): Option<File> { if p in fs then Some(fs[p]) else None }

  /** The last component of a whiteout starts with ".wh.". */
  predicate WhiteoutPath(w: Path) { w != [] && ".wh." <= w[|w| - 1] }

  /** A whiteout ".wh.NAME" is about the NAME beside it and what is below; the opaque
      whiteout is about everything below its directory. */
  predicate Whites(w: Path, p: Path) {
    w != [] &&
    var d, n := w[..|w| - 1], w[|w| - 1];
    if n == ".wh..wh..opq" then d < p else ".wh." <= n && d + [n[4..]] <= p
  }

  ghost predicate WhitedOut(ms: seq<Member>, p: Path) {
    exists i :: 0 <= i < |ms| && Whites(ms[i].path, p)
  }

  /** What a list of members leaves at `p` if before there was `below`: the file of the
      last member with that path, unless a later one is something else than a directory
      where there was a directory above `p`. */
  function Left(ms: seq<Member>, p: Path, below: Option<File>): Option<File> {
    if ms == [] then below
    else
      var m, rest := ms[|ms| - 1], ms[..|ms| - 1];
      if WhiteoutPath(m.path) then Left(rest, p, below)
      else if m.path == p then Some(m.file)
      else if m.path < p && !m.file.Dir? then None
      else Left(rest, p, below)
  }

  /** What the first `n` layers leave at `p`: what the topmost one leaves, over what the
      layers below it leave, if it does not white that out. */
  ghost function Topmost(layers: seq<seq<Member>>, n: nat, p: Path): Option<File>
    requires n <= |layers|
  {
    if n == 0 then (if p == [] then Some(Dir(0)) else None)
    else Left(layers[n - 1], p, if WhitedOut(layers[n - 1], p) then None else Topmost(layers, n - 1, p))
  }

  /** Where a filesystem has something below `p`, it has a directory there. */
  lemma BelowDir(fs: Fs, p: Path, q: Path)
    requires Closed(fs) && p < q && q in fs
    ensures DirAt(fs, p)
  {
    AncestorDir(fs, q, p);
  }

  lemma ApplyAt(fs: Fs, m: Member, p: Path)
    requires Closed(fs)
    ensures At(Apply(fs, m), p) ==
              if m.path == p then Some(m.file) else if m.path < p && !m.file.Dir? then None else At(fs, p)
  {
    if m.path < p && p in fs { BelowDir(fs, m.path, p); }
    if m.path <= p && |m.path| == |p| { assert m.path == p; }
  }

  lemma LeftSnoc(ms: seq<Member>, m: Member, p: Path, below: Option<File>)
    requires !IsWhiteout(m)
    ensures Left(ms + [m], p, below) ==
              if m.path == p then Some(m.file) else if m.path < p && !m.file.Dir? then None else Left(ms, p, below)
  {
    assert (ms + [m])[..|ms|] == ms;
  }

  lemma {:induction false} LeftMembers(ms: seq<Member>, p: Path, below: Option<File>)
    ensures Left(MembersOf(ms), p, below) == Left(ms, p, below)
  {
    if ms != [] {
      var a, m := ms[..|ms| - 1], ms[|ms| - 1];
      LeftMembers(a, p, below);
      FilterLast(Stays, ms);
      if !IsWhiteout(m) { LeftSnoc(MembersOf(a), m, p, below); }
    }
  }

  ghost predicate NoWhiteouts(ms: seq<Member>) { forall i :: 0 <= i < |ms| ==> !IsWhiteout(ms[i]) }

  lemma {:induction false} ExtractAt(fs: Fs, ms: seq<Member>, p: Path)
    requires Closed(fs) && Orderly(ms) && NoWhiteouts(ms)
    ensures At(Extract(fs, ms), p) == Left(ms, p, At(fs, p))
  {
    if ms != [] {
      var a, m := ms[..|ms| - 1], ms[|ms| - 1];
      InitOrderly(ms);
      assert forall i :: 0 <= i < |a| ==> a[i] == ms[i];
      ExtractAt(fs, a, p);
      ExtractClosed(fs, a);
      ApplyAt(Extract(fs, a), m, p);
    }
  }

  lemma WhitesHidden(w: Member, p: Path)
    ensures Whites(w.path, p) <==> IsWhiteout(w) && Hidden(w, p)
  {
    assert OPAQUE == ".wh..wh..opq" && OPAQUE[..4] == ".wh.";
  }

  lemma {:induction false} HideAllAt(fs: Fs, ws: seq<Member>, p: Path)
    requires AllWhiteouts(ws)
    ensures At(HideAll(fs, ws), p) == if WhitedOut(ws, p) then None else At(fs, p)
  {
    if ws != [] {
      var a, w := ws[..|ws| - 1], ws[|ws| - 1];
      HideAllAt(fs, a, p);
      WhitesHidden(w, p);
      WhitedSnoc(ws, p);
    }
  }

  lemma WhitedSnoc(ws: seq<Member>, p: Path)
    requires ws != []
    ensures WhitedOut(ws, p) <==> WhitedOut(ws[..|ws| - 1], p) || Whites(ws[|ws| - 1].path, p)
  {
    var a := ws[..|ws| - 1];
    if WhitedOut(a, p) {
      var i :| 0 <= i < |a| && Whites(a[i].path, p);
      assert Whites(ws[i].path, p);
    } else {
      assert forall i :: 0 <= i < |a| ==> a[i] == ws[i] && !Whites(a[i].path, p);
    }
  }

  /** Members other than whiteouts white nothing out. */
  lemma {:induction false} WhitedByWhiteouts(ms: seq<Member>, p: Path)
    ensures WhitedOut(WhiteoutsOf(ms), p) <==> WhitedOut(ms, p)
  {
    if ms != [] {
      var a, m := ms[..|ms| - 1], ms[|ms| - 1];
      WhitedByWhiteouts(a, p);
      FilterLast(IsWhiteout, ms);
      WhitesHidden(m, p);
      WhitedSnoc(ms, p);
      var f := WhiteoutsOf(a);
      if IsWhiteout(m) {
        assert (f + [m])[..|f|] == f;
        WhitedSnoc(f + [m], p);
      }
    }
  }

  /** One layer. */
  lemma LayerAt(fs: Fs, ms: seq<Member>, p: Path)
    requires Closed(fs) && ValidLayer(ms)
    ensures At(Extract(HideAll(fs, WhiteoutsOf(ms)), MembersOf(ms)), p) ==
              Left(ms, p, if WhitedOut(ms, p) then None else At(fs, p))
  {
    var ws, hidden := WhiteoutsOf(ms), HideAll(fs, WhiteoutsOf(ms));
    LayerClosed(fs, ms, ws);
    FilterHolds(Stays, ms);
    HideAllAt(fs, ws, p);
    WhitedByWhiteouts(ms, p);
    ExtractAt(hidden, MembersOf(ms), p);
    LeftMembers(ms, p, At(hidden, p));
  }

  lemma NextAt(layers: seq<seq<Member>>, n: nat, p: Path, fs: Fs, next: Fs)
    requires n < |layers| && ValidLayers(layers) && Closed(fs) && At(fs, p) == Topmost(layers, n, p)
    requires next == Extract(HideAll(fs, WhiteoutsOf(layers[n])), MembersOf(layers[n]))
    ensures At(next, p) == Topmost(layers, n + 1, p)
  {
    ValidSound(layers, n);
    LayerAt(fs, layers[n], p);
  }

  lemma SequentialAtNext(layers: seq<seq<Member>>, n: nat, p: Path)
    requires n < |layers| && ValidLayers(layers) && At(Sequential(layers, n), p) == Topmost(layers, n, p)
    ensures At(Sequential(layers, n + 1), p) == Topmost(layers, n + 1, p)
  {
    SequentialClosed(layers, n);
    var fs, next := Sequential(layers, n), Sequential(layers, n + 1);
    NextAt(layers, n, p, fs, next);
  }

  lemma RootAt(layers: seq<seq<Member>>, p: Path)
    ensures At(Sequential(layers, 0), p) == Topmost(layers, 0, p)
  {
  }

  /** Every path of the flattened image, in terms of the layers as they were. */
  lemma {:induction false} SequentialAt(layers: seq<seq<Member>>, n: nat, p: Path)
    requires n <= |layers| && ValidLayers(layers)
    ensures At(Sequential(layers, n), p) == Topmost(layers, n, p)
  {
    if n == 0 {
      RootAt(layers, p);
    } else {
      SequentialAt(layers, n - 1, p);
      SequentialAtNext(layers, n - 1, p);
    }
  }

  /** The member neither is at `p` nor takes away a directory above it. */
  predicate Spares(m: Member, p: Path) {
    WhiteoutPath(m.path) || (m.path != p && (m.path < p ==> m.file.Dir?))
  }

  ghost predicate AllSpare(ms: seq<Member>, p: Path) { forall i :: 0 <= i < |ms| ==> Spares(ms[i], p) }

  lemma {:induction false} LeftSpared(ms: seq<Member>, p: Path, below: Option<File>)
    requires AllSpare(ms, p)
    ensures Left(ms, p, below) == below
  {
    if ms != [] {
      var a := ms[..|ms| - 1];
      assert Spares(ms[|ms| - 1], p) && forall i :: 0 <= i < |a| ==> a[i] == ms[i];
      LeftSpared(a, p, below);
    }
  }

  lemma {:induction false} LeftLast(ms: seq<Member>, i: nat, below: Option<File>)
    requires i < |ms| && !WhiteoutPath(ms[i].path) && AllSpare(ms[i + 1..], ms[i].path)
    ensures Left(ms, ms[i].path, below) == Some(ms[i].file)
  {
    var n, p := |ms| - 1, ms[i].path;
    if i < n {
      assert ms[i + 1..][n - i - 1] == ms[n] && Spares(ms[n], p);
      var later := ms[..n][i + 1..];
      forall j | 0 <= j < |later| ensures Spares(later[j], p) { assert later[j] == ms[i + 1..][j]; }
      LeftLast(ms[..n], i, below);
    }
  }

  ghost predicate LayerSpares(ms: seq<Member>, p: Path) { AllSpare(ms, p) && !WhitedOut(ms, p) }

  lemma {:induction false} TopmostSpared(layers: seq<seq<Member>>, k: nat, n: nat, p: Path)
    requires k <= n <= |layers| && forall j :: k <= j < n ==> LayerSpares(layers[j], p)
    ensures Topmost(layers, n, p) == Topmost(layers, k, p)
  {
    if k < n {
      assert LayerSpares(layers[n - 1], p);
      LeftSpared(layers[n - 1], p, Topmost(layers, n - 1, p));
      TopmostSpared(layers, k, n - 1, p);
    }
  }

  /** A member is what is at its path, with its type, metadata, content or target, unless
      something later in its layer is at the path or in the place of a directory above it,
      or a layer above has such a member or whites the path out. */
  lemma MemberExtracted(layers: seq<seq<Member>>, k: nat, i: nat)
    requires ValidLayers(layers) && k < |layers| && i < |layers[k]| && !WhiteoutPath(layers[k][i].path)
    requires AllSpare(layers[k][i + 1..], layers[k][i].path)
    requires forall j :: k < j < |layers| ==> LayerSpares(layers[j], layers[k][i].path)
    ensures var p, fs := layers[k][i].path, ExtractLayers(ResolveLayers(layers, |layers|), |layers|);
            p in fs && fs[p] == layers[k][i].file
  {
    var n, p := |layers|, layers[k][i].path;
    FlattenIsSequential(layers, n);
    SequentialAt(layers, n, p);
    TopmostSpared(layers, k + 1, n, p);
    LeftLast(layers[k], i, if WhitedOut(layers[k], p) then None else Topmost(layers, k, p));
  }

  /** Nothing else is there. */
  lemma OnlyMembersExtracted(layers: seq<seq<Member>>, p: Path)
    requires ValidLayers(layers) && p != [] && forall j :: 0 <= j < |layers| ==> NotListed(layers[j], p)
    ensures p !in ExtractLayers(ResolveLayers(layers, |layers|), |layers|)
  {
    FlattenIsSequential(layers, |layers|);
    SequentialAt(layers, |layers|, p);
    NowhereListed(layers, |layers|, p);
  }

  ghost predicate NotListed(ms: seq<Member>, p: Path) {
    forall i :: 0 <= i < |ms| && ms[i].path == p ==> WhiteoutPath(p)
  }

  lemma {:induction false} LeftNone(ms: seq<Member>, p: Path)
    requires NotListed(ms, p)
    ensures Left(ms, p, None) == None
  {
    if ms != [] {
      var a := ms[..|ms| - 1];
      assert forall i :: 0 <= i < |a| ==> a[i] == ms[i];
      LeftNone(a, p);
    }
  }

  lemma {:induction false} NowhereListed(layers: seq<seq<Member>>, n: nat, p: Path)
    requires n <= |layers| && p != [] && forall j :: 0 <= j < n ==> NotListed(layers[j], p)
    ensures Topmost(layers, n, p) == None
  {
    if n > 0 {
      assert NotListed(layers[n - 1], p);
      NowhereListed(layers, n - 1, p);
      LeftNone(layers[n - 1], p);
    }
  }

  /** unpack_layers: resolve, then extract every layer's members in order. */
  method UnpackLayers(layers: array<seq<Member>>) returns (fs: Fs)
    requires ValidLayers(layers[..])
    modifies layers
    ensures fs == Sequential(old(layers[..]), layers.Length)
    ensures forall p :: At(fs, p) == Topmost(old(layers[..]), layers.Length, p)
  {
    ghost var was := layers[..];
    ValidParts(was);
    WhiteoutsResolve(layers);
    fs := ExtractEach(layers);
    FlattenIsSequential(was, |was|);
    forall p ensures At(fs, p) == Topmost(was, |was|, p) { SequentialAt(was, |was|, p); }
  }

  method ExtractEach(layers: array<seq<Member>>) returns (fs: Fs)
    ensures fs == ExtractLayers(layers[..], layers.Length)
  {
    fs := ROOT;
    var i := 0;
    while i < layers.Length
      invariant 0 <= i <= layers.Length
      invariant fs == ExtractLayers(layers[..], i)
    {
      assert layers[i] == layers[..][i];
      fs := ExtractAll(fs, layers[i]);
      i := i + 1;
    }
  }

  method ExtractAll(fs0: Fs, members: seq<Member>) returns (fs: Fs)
    ensures fs == Extract(fs0, members)
  {
    fs := fs0;
    var k := 0;
    while k < |members|
      invariant 0 <= k <= |members|
      invariant fs == Extract(fs0, members[..k])
    {
      ExtractSnoc(fs0, members[..k], members[k]);
      assert members[..k + 1] == members[..k] + [members[k]];
      fs := Apply(fs, members[k]);
      k := k + 1;
    }
    assert members[..|members|] == members;
  }

  // ---------------------------------------------------------------------------
  // Every member finds its parent directory

  ghost predicate DirAt(fs: Fs, p: Path) { p in fs && fs[p].Dir? }

  /** Everything is in a directory: a filesystem, in which no path leads through a link. */
  ghost predicate Closed(fs: Fs) {
    DirAt(fs, []) && forall p {:trigger InDir(fs, p)} :: InDir(fs, p)
  }

  ghost predicate InDir(fs: Fs, p: Path) { p in fs && p != [] ==> DirAt(fs, Parent(p)) }

  lemma LeavesDir(fs: Fs, m: Member, p: Path)
    requires DirAt(fs, p) && Leaves(m, p)
    ensures DirAt(Apply(fs, m), p)
  {
  }

  lemma {:induction false} ListedThere(fs: Fs, ms: seq<Member>, p: Path)
    requires Listed(ms, p)
    ensures DirAt(Extract(fs, ms), p)
  {
    var a, m := ms[..|ms| - 1], ms[|ms| - 1];
    if m.path == p && m.file.Dir? && !IsWhiteout(m) {
    } else {
      ListedThere(fs, a, p);
      LeavesDir(Extract(fs, a), m, p);
    }
  }

  /** What of a valid layer is left to extract. */
  ghost predicate Orderly(ms: seq<Member>) { ParentsFirst(ms) && RootIsDir(ms) }

  lemma {:induction false} RootStays(fs: Fs, ms: seq<Member>)
    requires RootIsDir(ms) && DirAt(fs, [])
    ensures DirAt(Extract(fs, ms), [])
  {
    if ms != [] {
      var a, m := ms[..|ms| - 1], ms[|ms| - 1];
      assert forall k :: 0 <= k < |a| ==> a[k] == ms[k];
      RootStays(fs, a);
      LeavesDir(Extract(fs, a), m, []);
    }
  }

  lemma ParentThere(fs: Fs, ms: seq<Member>, k: nat)
    requires Orderly(ms) && DirAt(fs, []) && k < |ms| && ms[k].path != []
    ensures DirAt(Extract(fs, ms[..k]), Parent(ms[k].path))
  {
    var p := ms[k].path;
    ParentsAt(ms, k);
    if |p| == 1 {
      assert Parent(p) == [];
      RootStays(fs, ms[..k]);
    } else {
      assert Listed(ms[..k], p[..|p| - 1]);
      ListedThere(fs, ms[..k], p[..|p| - 1]);
    }
  }

  lemma {:induction false} AncestorDir(fs: Fs, p: Path, q: Path)
    requires Closed(fs) && p in fs && q <= p && q != p
    ensures DirAt(fs, q)
  {
    assert InDir(fs, p);
    if q == Parent(p) {
    } else {
      assert q <= Parent(p);
      AncestorDir(fs, Parent(p), q);
    }
  }

  /** Extracting into a directory that is there. */
  lemma ApplyClosed(fs: Fs, m: Member)
    requires Closed(fs) && if m.path == [] then m.file.Dir? else DirAt(fs, Parent(m.path))
    ensures Closed(Apply(fs, m))
  {
    var r := Apply(fs, m);
    LeavesDir(fs, m, []);
    forall p ensures InDir(r, p) {
      if p in r && p != [] { ApplyParent(fs, m, p); }
    }
  }

  lemma ApplyParent(fs: Fs, m: Member, p: Path)
    requires Closed(fs) && if m.path == [] then m.file.Dir? else DirAt(fs, Parent(m.path))
    requires p in Apply(fs, m) && p != []
    ensures DirAt(Apply(fs, m), Parent(p))
  {
    if p == m.path {
      LeavesDir(fs, m, Parent(p));
    } else {
      assert InDir(fs, p);
      if m.path <= Parent(p) { AncestorDir(fs, p, m.path); }
      LeavesDir(fs, m, Parent(p));
    }
  }

  lemma {:induction false} ExtractClosed(fs: Fs, ms: seq<Member>)
    requires Orderly(ms) && Closed(fs)
    ensures Closed(Extract(fs, ms))
  {
    if ms != [] {
      var n := |ms| - 1;
      InitOrderly(ms);
      ExtractClosed(fs, ms[..n]);
      if ms[n].path != [] { ParentThere(fs, ms, n); }
      ApplyClosed(Extract(fs, ms[..n]), ms[n]);
    }
  }

  lemma InitOrderly(ms: seq<Member>)
    requires ms != [] && Orderly(ms)
    ensures Orderly(ms[..|ms| - 1])
  {
    assert forall k :: 0 <= k < |ms| - 1 ==> ms[..|ms| - 1][k] == ms[k];
  }

  lemma {:induction false} PrefixOrderly(ms: seq<Member>, k: nat)
    requires Orderly(ms) && k <= |ms|
    ensures Orderly(ms[..k])
  {
    if k == |ms| {
      assert ms[..k] == ms;
    } else {
      ParentsAt(ms, k);
    }
  }

  lemma HideClosed(fs: Fs, w: Member)
    requires Closed(fs) && Sound(w)
    ensures Closed(Hide(fs, w))
  {
    var t, r := Target(w), Hide(fs, w);
    forall p ensures InDir(r, p) {
      assert InDir(fs, p);
      assert p != [] && t <= Parent(p) ==> t <= p && t != p;
    }
  }

  lemma {:induction false} HideAllClosed(fs: Fs, ws: seq<Member>)
    requires Closed(fs) && AllWhiteouts(ws) && AllSound(ws)
    ensures Closed(HideAll(fs, ws))
  {
    if ws != [] {
      HideAllClosed(fs, ws[..|ws| - 1]);
      assert Sound(ws[|ws| - 1]);
      HideClosed(HideAll(fs, ws[..|ws| - 1]), ws[|ws| - 1]);
    }
  }

  lemma FromRoot(a: seq<Member>, b: seq<Member>)
    requires AllIn(a, b) && RootIsDir(b)
    ensures RootIsDir(a)
  {
    forall i | 0 <= i < |a| && a[i].path == [] ensures a[i].file.Dir? {
      var j :| 0 <= j < |b| && a[i] == b[j];
    }
  }

  /** Leaving out members but not the directory. */
  lemma {:induction false} ListedFilter(keep: Member -> bool, ms: seq<Member>, p: Path)
    requires Listed(ms, p) && forall m :: m in ms && m.path == p && !IsWhiteout(m) ==> keep(m)
    ensures Listed(Filter(keep, ms), p)
  {
    var a, m := ms[..|ms| - 1], ms[|ms| - 1];
    FilterLast(keep, ms);
    var f := Filter(keep, a);
    assert (f + [m])[..|f|] == f;
    if m.path == p && m.file.Dir? && !IsWhiteout(m) {
      assert m in ms;
    } else {
      ListedFilter(keep, a, p);
    }
  }

  lemma SnocParents(a: seq<Member>, m: Member)
    requires ParentsFirst(a) && AllListed(a, m)
    ensures ParentsFirst(a + [m])
  {
    assert (a + [m])[..|a|] == a;
  }

  lemma {:induction false} MembersParents(ms: seq<Member>)
    requires ParentsFirst(ms)
    ensures ParentsFirst(MembersOf(ms))
  {
    if ms != [] {
      var b, m := ms[..|ms| - 1], ms[|ms| - 1];
      MembersParents(b);
      FilterLast(Stays, ms);
      if !IsWhiteout(m) {
        forall l | 0 < l < |m.path| ensures Listed(MembersOf(b), m.path[..l]) { ListedFilter(Stays, b, m.path[..l]); }
        SnocParents(MembersOf(b), m);
      }
    }
  }

  lemma MembersOrderly(ms: seq<Member>)
    requires Orderly(ms)
    ensures Orderly(MembersOf(ms))
  {
    MembersParents(ms);
    FilterFrom(Stays, ms);
    FromRoot(MembersOf(ms), ms);
  }

  /** Pruning that spares a member spares the directories on the way to it. */
  lemma ListedSpared(ms: seq<Member>, w: Member, m: Member, l: nat)
    requires Sound(w) && PlainLayer(ms) && PlainPath(m.path) && !Matches(w, m)
    requires l < |m.path| && Listed(ms, m.path[..l])
    ensures Listed(Prune(ms, w), m.path[..l])
  {
    var p := m.path[..l];
    MatchesIsPrefix(w, m);
    SoundAgrees(ms, w, Outside(Prefix(w)));
    forall a | a in ms && a.path == p && !IsWhiteout(a) ensures Outside(Prefix(w))(a) {
      var i :| 0 <= i < |ms| && ms[i] == a;
      assert !(Target(w) <= ms[i].path);
    }
    ListedFilter(Outside(Prefix(w)), ms, p);
  }

  lemma {:induction false} PruneParents(ms: seq<Member>, w: Member)
    requires ParentsFirst(ms) && Sound(w) && PlainLayer(ms)
    ensures ParentsFirst(Prune(ms, w))
  {
    if ms != [] {
      var b, m := ms[..|ms| - 1], ms[|ms| - 1];
      PruneParents(b, w);
      FilterLast(Outside(Prefix(w)), ms);
      if !Matches(w, m) {
        assert PlainPath(m.path);
        forall l | 0 < l < |m.path| ensures Listed(Prune(b, w), m.path[..l]) { ListedSpared(b, w, m, l); }
        SnocParents(Prune(b, w), m);
      }
    }
  }

  lemma PruneOrderly(ms: seq<Member>, w: Member)
    requires Orderly(ms) && Sound(w) && PlainLayer(ms)
    ensures Orderly(Prune(ms, w))
  {
    PruneParents(ms, w);
    FilterFrom(Outside(Prefix(w)), ms);
    FromRoot(Prune(ms, w), ms);
  }

  lemma {:induction false} PruneAllOrderly(ms: seq<Member>, ws: seq<Member>)
    requires Orderly(ms) && AllWhiteouts(ws) && AllSound(ws) && PlainLayer(ms)
    ensures Orderly(PruneAll(ms, ws))
  {
    if ws != [] {
      var n := |ws| - 1;
      PruneAllOrderly(ms, ws[..n]);
      PruneAllPlain(ms, ws[..n]);
      assert Sound(ws[n]);
      PruneOrderly(PruneAll(ms, ws[..n]), ws[n]);
    }
  }

  ghost predicate AllOrderly(rs: seq<seq<Member>>) { forall i :: 0 <= i < |rs| ==> Orderly(rs[i]) }

  lemma RoundOrderly(rs: seq<seq<Member>>, r2: seq<seq<Member>>, i: nat, ws: seq<Member>)
    requires |rs| == |r2| && i < |rs| && AllPlain(rs) && AllOrderly(rs) && AllWhiteouts(ws) && AllSound(ws)
    requires r2[i] == MembersOf(rs[i]) && PrunedBy(rs, r2, i, ws)
    ensures AllOrderly(r2)
  {
    forall j | 0 <= j < |r2| ensures Orderly(r2[j]) {
      assert Orderly(rs[j]) && PlainLayer(rs[j]);
      if j == i {
        MembersOrderly(rs[i]);
      } else {
        assert PrunedAt(rs, r2, i, ws, j);
        PruneAllOrderly(rs[j], ws);
      }
    }
  }

  lemma ValidOrderly(layers: seq<seq<Member>>)
    requires ValidLayers(layers)
    ensures AllOrderly(layers)
  {
    forall i | 0 <= i < |layers| ensures Orderly(layers[i]) { assert ValidLayer(layers[i]); }
  }

  lemma NextOrderly(layers: seq<seq<Member>>, n: nat, rs: seq<seq<Member>>, r2: seq<seq<Member>>)
    requires n < |layers| && ValidLayers(layers) && AllOrderly(rs)
    requires rs == ResolveLayers(layers, n) && r2 == ResolveLayers(layers, n + 1)
    ensures AllOrderly(r2)
  {
    ValidParts(layers);
    RoundDoes(layers, n);
    ResolvePlain(layers, n);
    ValidSound(layers, n);
    RoundOrderly(rs, r2, n, WhiteoutsOf(layers[n]));
  }

  lemma {:induction false} ResolveOrderly(layers: seq<seq<Member>>, n: nat)
    requires n <= |layers| && ValidLayers(layers)
    ensures AllOrderly(ResolveLayers(layers, n))
  {
    if n == 0 {
      ValidOrderly(layers);
    } else {
      ResolveOrderly(layers, n - 1);
      NextOrderly(layers, n - 1, ResolveLayers(layers, n - 1), ResolveLayers(layers, n));
    }
  }

  lemma {:induction false} LayersClosed(rs: seq<seq<Member>>, k: nat)
    requires k <= |rs| && AllOrderly(rs)
    ensures Closed(ExtractLayers(rs, k))
  {
    if k > 0 {
      LayersClosed(rs, k - 1);
      assert Orderly(rs[k - 1]);
      ExtractClosed(ExtractLayers(rs, k - 1), rs[k - 1]);
    }
  }

  lemma MemberPresent(fs: Fs, ms: seq<Member>, i: nat)
    requires Closed(fs) && Orderly(ms) && i < |ms|
    ensures Closed(Extract(fs, ms[..i])) && (ms[i].path != [] ==> DirAt(Extract(fs, ms[..i]), Parent(ms[i].path)))
  {
    PrefixOrderly(ms, i);
    ExtractClosed(fs, ms[..i]);
    if ms[i].path != [] { ParentThere(fs, ms, i); }
  }

  /** Whenever a member is extracted, everything so far is in a directory, and the member's
      parent is there and is a real directory, not a symbolic link: pruning never takes the
      parent of a member that it spares. */
  lemma ParentsPresent(layers: seq<seq<Member>>, n: nat, k: nat, i: nat)
    requires ValidLayers(layers) && n <= |layers| && k < n && i < |ResolveLayers(layers, n)[k]|
    ensures var rs := ResolveLayers(layers, n);
            var fs, p := Extract(ExtractLayers(rs, k), rs[k][..i]), rs[k][i].path;
            Closed(fs) && (p != [] ==> DirAt(fs, Parent(p)))
  {
    var rs := ResolveLayers(layers, n);
    ResolveOrderly(layers, n);
    assert Orderly(rs[k]);
    LayersClosed(rs, k);
    MemberPresent(ExtractLayers(rs, k), rs[k], i);
  }

  /** One layer of the reference. */
  lemma LayerClosed(fs: Fs, ms: seq<Member>, ws: seq<Member>)
    requires Closed(fs) && ValidLayer(ms) && ws == WhiteoutsOf(ms)
    ensures AllWhiteouts(ws) && Closed(HideAll(fs, ws)) && Orderly(MembersOf(ms))
    ensures Closed(Extract(HideAll(fs, ws), MembersOf(ms)))
  {
    HideAllClosed(fs, ws);
    MembersOrderly(ms);
    ExtractClosed(HideAll(fs, ws), MembersOf(ms));
  }

  lemma NextClosed(layers: seq<seq<Member>>, n: nat, fs: Fs, next: Fs)
    requires n < |layers| && ValidLayers(layers) && Closed(fs)
    requires next == Extract(HideAll(fs, WhiteoutsOf(layers[n])), MembersOf(layers[n]))
    ensures Closed(next)
  {
    ValidSound(layers, n);
    LayerClosed(fs, layers[n], WhiteoutsOf(layers[n]));
  }

  lemma SequentialNext(layers: seq<seq<Member>>, n: nat)
    requires n < |layers| && ValidLayers(layers) && Closed(Sequential(layers, n))
    ensures Closed(Sequential(layers, n + 1))
  {
    var fs, next := Sequential(layers, n), Sequential(layers, n + 1);
    NextClosed(layers, n, fs, next);
  }

  lemma RootClosed()
    ensures Closed(ROOT)
  {
  }

  lemma {:induction false} SequentialClosed(layers: seq<seq<Member>>, n: nat)
    requires n <= |layers| && ValidLayers(layers)
    ensures Closed(Sequential(layers, n))
  {
    if n == 0 {
      RootClosed();
    } else {
      SequentialClosed(layers, n - 1);
      SequentialNext(layers, n - 1);
    }
  }

  /** The same of the reference, so both sides of `FlattenIsSequential` are filesystems at
      every step. */
  lemma SequentialPresent(layers: seq<seq<Member>>, n: nat, i: nat)
    requires ValidLayers(layers) && n < |layers| && i < |MembersOf(layers[n])|
    ensures var ms := MembersOf(layers[n]);
            var fs, p := Extract(HideAll(Sequential(layers, n), WhiteoutsOf(layers[n])), ms[..i]), ms[i].path;
            Closed(fs) && (p != [] ==> DirAt(fs, Parent(p)))
  {
    var ws := WhiteoutsOf(layers[n]);
    SequentialClosed(layers, n);
    ValidSound(layers, n);
    LayerClosed(Sequential(layers, n), layers[n], ws);
    MemberPresent(HideAll(Sequential(layers, n), ws), MembersOf(layers[n]), i);
  }

  /** Why a directory must still be one: here it has become a link, and extracting what is
      below goes through the link, where the model has a file below a file. */
  lemma RelistedLink(name: Name, content: Bytes)
    requires PlainName(name) && !(".wh." <= name)
    ensures var ms := [Member(0, [name], Dir(0)), Member(1, [name], Sym("x")), Member(2, [name, name], Reg(0, content))];
            !ValidLayer(ms) && !Closed(Extract(ROOT, ms)) && Closed(Extract(ROOT, ms[..2]))
  {
    var a, b, c := Member(0, [name], Dir(0)), Member(1, [name], Sym("x")), Member(2, [name, name], Reg(0, content));
    var ms := [a, b, c];
    assert ms[..2] == [a, b] && [] + [a] == [a] && [a] + [b] == [a, b] && [a, b] + [c] == ms;
    ExtractSnoc(ROOT, [], a);
    ExtractSnoc(ROOT, [a], b);
    ExtractSnoc(ROOT, [a, b], c);
    ApplyClosed(ROOT, a);
    ApplyClosed(Apply(ROOT, a), b);
    assert Parent(c.path) == [name] && !InDir(Extract(ROOT, ms), c.path);
    assert c.path[..1] == [name] && !Listed([a, b], c.path[..1]);
    assert !AllListed(ms[..2], ms[2]);
  }

  // ---------------------------------------------------------------------------
  // Whiteouts at the image root

  /** The code's pruning by `w` and the specification's deletion agree on `ms`, apart
      from the opaque directory itself. */
  ghost predicate Obeyed(w: Member, ms: seq<Member>)
    requires IsWhiteout(w)
  {
    SameExcept(Extract(ROOT, Prune(ms, w)), Hide(Extract(ROOT, ms), w), if IsOpaque(w) then {Target(w)} else {})
  }

  /** The name starts with the first component, which is not empty. */
  lemma {:induction false} JoinHead(p: Path)
    requires PlainPath(p) && p != []
    ensures |p[0]| <= |Join(p)| && Join(p)[..|p[0]|] == p[0]
    ensures |p| > 1 ==> |p[0]| < |Join(p)| && Join(p)[|p[0]|] == '/'
  {
    if |p| > 1 {
      var q := p[..|p| - 1];
      JoinHead(q);
      assert Join(p)[..|p[0]|] == Join(q)[..|p[0]|];
    }
  }

  /** At the root the prefix is "/name" or ".", which no member below the root has. */
  lemma RootMatchesNothing(w: Member, m: Member)
    requires IsWhiteout(w) && |w.path| == 1 && PlainPath(m.path) && m.path != []
    ensures !Matches(w, m)
  {
    var s, t, h := Prefix(w), Join(m.path), m.path[0];
    JoinHead(m.path);
    assert PlainName(h);
    StartsWith(s, t);
    assert t[0] == h[0] && h[0] != '/';
    if |h| > 1 {
      assert t[1] == t[..|h|][1] == h[1];
    } else {
      assert h == [h[0]] && "." == ['.'];
    }
  }

  lemma StartsWith(s: string, t: string)
    ensures PrefixPath(s, t) && s != "" ==> t != "" && t[0] == s[0]
    ensures PrefixPath(".", t) ==> t == "." || (|t| > 1 && t[0] == '.' && t[1] == '/')
  {
    if PrefixPath(s, t) && s != "" && s != t { assert t[0] == t[..|s| + 1][0] == (s + "/")[0]; }
    if PrefixPath(".", t) && "." != t { assert t[0] == t[..2][0] == "./"[0] && t[1] == t[..2][1] == "./"[1]; }
  }

  lemma RootPrunesNothing(w: Member, ms: seq<Member>)
    requires IsWhiteout(w) && |w.path| == 1 && PlainLayer(ms)
    requires forall i :: 0 <= i < |ms| ==> ms[i].path != []
    ensures Prune(ms, w) == ms
  {
    forall i | 0 <= i < |ms| ensures !Matches(w, ms[i]) {
      assert PlainPath(ms[i].path);
      RootMatchesNothing(w, ms[i]);
    }
    FilterAll(Outside(Prefix(w)), ms);
  }

  predicate Hidden(w: Member, p: Path)
    requires IsWhiteout(w)
  {
    if IsOpaque(w) then Target(w) < p else Target(w) <= p
  }

  /** A whiteout at the image root is obeyed just when it had nothing to hide. */
  lemma RootWhiteout(w: Member, ms: seq<Member>)
    requires IsWhiteout(w) && |w.path| == 1 && PlainLayer(ms)
    requires forall i :: 0 <= i < |ms| ==> ms[i].path != []
    ensures Obeyed(w, ms) <==> forall p :: p in Extract(ROOT, ms) ==> !Hidden(w, p)
  {
    RootPrunesNothing(w, ms);
    HidesNothing(w, Extract(ROOT, ms));
  }

  lemma HidesNothing(w: Member, fs: Fs)
    requires IsWhiteout(w)
    ensures SameExcept(fs, Hide(fs, w), if IsOpaque(w) then {Target(w)} else {}) <==>
              forall p :: p in fs ==> !Hidden(w, p)
  {
    var d := if IsOpaque(w) then {Target(w)} else {};
    if SameExcept(fs, Hide(fs, w), d) {
      forall p | p in fs ensures !Hidden(w, p) {
        if p !in d { assert SameAt(fs, Hide(fs, w), p); }
      }
    } else {
      var p :| p !in d && !SameAt(fs, Hide(fs, w), p);
      assert p in fs && Hidden(w, p);
    }
  }

  lemma SoundObeyed(w: Member, ms: seq<Member>)
    requires Sound(w) && PlainLayer(ms)
    ensures Obeyed(w, ms)
  {
    var t, fs := Target(w), Extract(ROOT, ms);
    SoundAgrees(ms, w, Outside(Prefix(w)));
    DelExtract(ROOT, ms, Outside(Prefix(w)), t);
    assert Del(ROOT, t) == ROOT;
    HideDel(fs, fs, {}, w);
    assert {} + (if IsOpaque(w) then {t} else {}) == if IsOpaque(w) then {t} else {};
  }

  /** Something that a root-level whiteout should hide. */
  lemma RootDisobeyed(w: Member) returns (ms: seq<Member>)
    requires IsWhiteout(w) && |w.path| == 1 && PlainPath(Target(w))
    ensures PlainLayer(ms) && !Obeyed(w, ms)
  {
    var p := if IsOpaque(w) then ["x"] else Target(w);
    var m := Member(0, p, Reg(0, []));
    assert PlainName("x");
    ms := [m];
    ExtractSnoc(ROOT, [], m);
    assert [] + [m] == [m];
    assert p in Extract(ROOT, [m]) && Hidden(w, p);
    RootWhiteout(w, [m]);
  }

  /** Pruning obeys a whiteout whatever is below it exactly when the whiteout is not
      at the image root. */
  lemma ObeyedExactly(w: Member)
    requires IsWhiteout(w) && PlainPath(w.path) && PlainPath(Target(w))
    ensures (forall ms :: PlainLayer(ms) ==> Obeyed(w, ms)) <==> |w.path| >= 2
  {
    if |w.path| >= 2 {
      forall ms | PlainLayer(ms) ensures Obeyed(w, ms) { SoundObeyed(w, ms); }
    } else {
      var ms := RootDisobeyed(w);
    }
  }
}
