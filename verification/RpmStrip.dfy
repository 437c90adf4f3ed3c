/**
  What a full restore gives when the image has RPM database files: the image without them
  (`RpmRestored`). The walk with these files and the walk without them go side by side. They
  differ in link counts only, where a database file is one more name of another file.
 */
module RpmStrip {
  import opened FileMetadata
  import opened RoundTrip
  import opened Records
  import opened GitTree
  import opened RpmFiles

  // ---------------------------------------------------------------------------
  // The tree without RPM database files

  function StripKid(k: Kid, path: Path): seq<Kid>
    decreases k.node, 1
  {
    if RpmDb(path) then []
    else match k.node
      case File(_) => [k]
      case Dir(perm, mtime, kids) => [Kid(k.name, Dir(perm, mtime, Strip(kids, path)))]
  }

  function Strip(kids: seq<Kid>, path: Path): seq<Kid>
    decreases kids, 0
  {
    if kids == [] then []
    else
      var n := |kids| - 1;
      Strip(kids[..n], path) + StripKid(kids[n], path + [kids[n].name])
  }

  /** The names that stay. */
  function PlainOf(v: seq<Leaf>): seq<Leaf> {
    if v == [] then []
    else PlainOf(v[..|v| - 1]) + (if RpmDb(v[|v| - 1].path) then [] else [v[|v| - 1]])
  }

  lemma {:induction false} PlainSplit(a: seq<Leaf>, b: seq<Leaf>)
    ensures PlainOf(a + b) == PlainOf(a) + PlainOf(b)
    decreases |b|
  {
    if b == [] {
      assert a + b == a;
    } else {
      var m := |b| - 1;
      PlainSplit(a, b[..m]);
      assert (a + b)[..|a + b| - 1] == a + b[..m] && (a + b)[|a + b| - 1] == b[m];
    }
  }

  lemma {:induction false} CountSplit(a: seq<Leaf>, b: seq<Leaf>, n: nat)
    ensures Count(a + b, n) == Count(a, n) + Count(b, n)
    decreases |b|
  {
    if b == [] {
      assert a + b == a;
    } else {
      var m := |b| - 1;
      CountSplit(a, b[..m], n);
      assert (a + b)[..|a + b| - 1] == a + b[..m] && (a + b)[|a + b| - 1] == b[m];
    }
  }

  lemma PlainOne(l: Leaf)
    ensures PlainOf([l]) == if RpmDb(l.path) then [] else [l]
  {
    assert [l][..0] == [];
  }

  lemma CountOne(l: Leaf, n: nat)
    ensures Count([l], n) == if l.ino == n then 1 else 0
  {
    assert [l][..0] == [];
  }

  lemma {:induction false} PlainNone(v: seq<Leaf>)
    requires forall i :: 0 <= i < |v| ==> RpmDb(v[i].path)
    ensures PlainOf(v) == []
  {
    if v != [] {
      assert forall i :: 0 <= i < |v| - 1 ==> v[..|v| - 1][i] == v[i];
      PlainNone(v[..|v| - 1]);
    }
  }

  /** Everything below an RPM database path is one. */
  lemma RpmBelow(kid: Kid, path: Path)
    requires RpmDb(path)
    ensures PlainOf(LeavesKid(kid, path)) == []
  {
    var v := LeavesKid(kid, path);
    LeavesKidUnder(kid, path);
    forall i | 0 <= i < |v| ensures RpmDb(v[i].path) { assert path <= v[i].path; }
    PlainNone(v);
  }

  lemma LeavesJoin(a: seq<Kid>, b: seq<Kid>, path: Path)
    requires |b| <= 1
    ensures LeavesKids(a + b, path) == LeavesKids(a, path) + (if b == [] then [] else LeavesKid(b[0], path + [b[0].name]))
  {
    if b == [] {
      assert a + b == a;
    } else {
      assert (a + b)[..|a|] == a && (a + b)[|a|] == b[0];
    }
  }

  lemma {:induction false} StripLeavesKid(k: Kid, path: Path)
    ensures PlainOf(LeavesKid(k, path)) == if RpmDb(path) then [] else LeavesKid(StripKid(k, path)[0], path)
    decreases k.node, 1
  {
    if RpmDb(path) {
      RpmBelow(k, path);
    } else {
      match k.node
      case File(ino) => PlainOne(Leaf(path, ino));
      case Dir(_, _, kids) => StripLeaves(kids, path);
    }
  }

  /** The files of the stripped tree. */
  lemma {:induction false} StripLeaves(kids: seq<Kid>, path: Path)
    ensures LeavesKids(Strip(kids, path), path) == PlainOf(LeavesKids(kids, path))
    decreases kids, 0
  {
    if kids != [] {
      var n := |kids| - 1;
      var own := path + [kids[n].name];
      StripLeaves(kids[..n], path);
      StripLeavesKid(kids[n], own);
      LeavesJoin(Strip(kids[..n], path), StripKid(kids[n], own), path);
      PlainSplit(LeavesKids(kids[..n], path), LeavesKid(kids[n], own));
    }
  }

  /** How many RPM database names of inode `n` come before the last other one. */
  function Ahead(v: seq<Leaf>, n: nat): nat {
    if v == [] then 0
    else (if RpmDb(v[0].path) && v[0].ino == n && Count(PlainOf(v[1..]), n) > 0 then 1 else 0) + Ahead(v[1..], n)
  }

  lemma AheadStep(l: Leaf, v: seq<Leaf>, n: nat)
    ensures Ahead([l] + v, n)
         == (if RpmDb(l.path) && l.ino == n && Count(PlainOf(v), n) > 0 then 1 else 0) + Ahead(v, n)
    ensures Count(PlainOf([l] + v), n) == (if !RpmDb(l.path) && l.ino == n then 1 else 0) + Count(PlainOf(v), n)
  {
    assert ([l] + v)[1..] == v;
    PlainSplit([l], v);
    PlainOne(l);
    CountSplit(PlainOf([l]), PlainOf(v), n);
    CountOne(l, n);
  }

  lemma {:induction false} AheadCounts(v: seq<Leaf>, n: nat)
    ensures Ahead(v, n) + Count(PlainOf(v), n) <= Count(v, n)
    ensures Ahead(v, n) > 0 ==> Count(PlainOf(v), n) > 0
  {
    if v != [] {
      AheadCounts(v[1..], n);
      assert v == [v[0]] + v[1..];
      AheadStep(v[0], v[1..], n);
      CountSplit([v[0]], v[1..], n);
      CountOne(v[0], n);
    }
  }

  // ---------------------------------------------------------------------------
  // The record without them

  function DropFm(fm: Fm, path: Path): seq<Fm>
    decreases fm, 1
  {
    if RpmDb(path) then [] else [fm.(children := DropAll(fm.children, path))]
  }

  function DropAll(fms: seq<Fm>, path: Path): seq<Fm>
    decreases fms, 0
  {
    if fms == [] then []
    else
      var n := |fms| - 1;
      DropAll(fms[..n], path) + DropFm(fms[n], path + [fms[n].name])
  }

  /** The files that are not to be restored are RPM database files. */
  predicate Marked(fm: Fm, path: Path)
    decreases fm, 1
  {
    if fm.kind.FDir? then !fm.dontRestore && fm.hardlinkTo.None? && fm.largeName.None? && AllMarked(fm.children, path)
    else fm.children == [] && (fm.dontRestore <==> RpmDb(path))
  }

  predicate AllMarked(fms: seq<Fm>, path: Path)
    decreases fms, 0
  {
    forall i :: 0 <= i < |fms| ==> Marked(fms[i], path + [fms[i].name])
  }

  lemma {:induction false} MarkedPlain(fm: Fm, path: Path)
    requires Marked(fm, path)
    ensures PlainDirs(fm)
    decreases fm, 1
  {
    if fm.kind.FDir? {
      forall i | 0 <= i < |fm.children| ensures PlainDirs(fm.children[i]) {
        MarkedPlain(fm.children[i], path + [fm.children[i].name]);
      }
    }
  }

  /** Whoever is not in the one list is ignored. */
  ghost predicate Dropped(f: seq<Fm>, g: seq<Fm>) {
    (forall k :: k in g ==> k in f) && forall k :: k in f ==> k.dontRestore || (k in g && !k.dontRestore)
  }

  lemma {:induction false} DropFlatKid(fm: Fm, path: Path)
    requires Marked(fm, path)
    ensures Dropped(FlatFm(fm), Flat(DropFm(fm, path)))
    decreases fm, 1
  {
    if RpmDb(path) {
      RpmMarked(fm, path);
    } else {
      var d := fm.(children := DropAll(fm.children, path));
      assert [d][..0] == [];
      if fm.kind.FDir? { DropFlat(fm.children, path); }
    }
  }

  lemma {:induction false} DropFlat(fms: seq<Fm>, path: Path)
    requires AllMarked(fms, path)
    ensures Dropped(Flat(fms), Flat(DropAll(fms, path)))
    decreases fms, 0
  {
    if fms != [] {
      var n := |fms| - 1;
      DropFlat(fms[..n], path);
      DropFlatKid(fms[n], path + [fms[n].name]);
      FlatJoin(DropAll(fms[..n], path), DropFm(fms[n], path + [fms[n].name]));
    }
  }

  lemma FlatJoin(a: seq<Fm>, b: seq<Fm>)
    requires |b| <= 1
    ensures Flat(a + b) == Flat(a) + Flat(b)
  {
    if b == [] {
      assert a + b == a;
    } else {
      assert b == [b[0]] && b[..0] == [];
      FlatSnoc(a, b[0]);
    }
  }

  lemma {:induction false} RpmMarked(fm: Fm, path: Path)
    requires Marked(fm, path) && RpmDb(path)
    ensures forall k :: k in FlatFm(fm) ==> k.dontRestore
    decreases fm, 1
  {
    if fm.kind.FDir? { RpmAllMarked(fm.children, path); }
  }

  lemma {:induction false} RpmAllMarked(fms: seq<Fm>, path: Path)
    requires AllMarked(fms, path) && RpmDb(path)
    ensures forall k :: k in Flat(fms) ==> k.dontRestore
    decreases fms, 0
  {
    if fms != [] {
      RpmAllMarked(fms[..|fms| - 1], path);
      RpmMarked(fms[|fms| - 1], path + [fms[|fms| - 1].name]);
    }
  }

  lemma {:induction false} DropPlain(fm: Fm, path: Path)
    requires Marked(fm, path)
    ensures PlainDirs(fm.(children := DropAll(fm.children, path)))
    decreases fm, 1
  {
    if fm.kind.FDir? { DropAllPlain(fm.children, path); }
  }

  lemma {:induction false} DropAllPlain(fms: seq<Fm>, path: Path)
    requires AllMarked(fms, path)
    ensures AllPlainDirs(DropAll(fms, path))
    decreases fms, 0
  {
    if fms != [] {
      var n := |fms| - 1;
      DropAllPlain(fms[..n], path);
      DropPlain(fms[n], path + [fms[n].name]);
    }
  }

  /** A directory that is not hollow is recorded as empty exactly if it is without them. */
  lemma EmptyEither(fm: Fm, path: Path)
    requires fm.kind.FDir? && Marked(fm, path) && !Hollow(fm)
    ensures fm.(children := DropAll(fm.children, path)).EmptyDir() <==> fm.EmptyDir()
  {
    var d := fm.(children := DropAll(fm.children, path));
    var f, g := FlatFm(fm), FlatFm(d);
    MarkedPlain(fm, path);
    DropPlain(fm, path);
    EmptyMeans(fm);
    EmptyMeans(d);
    StoresMeans(fm);
    DropFlat(fm.children, path);
    UnstoredEither(f, g);
  }

  lemma UnstoredEither(f: seq<Fm>, g: seq<Fm>)
    requires Dropped(f, g) && (AnyStored(f) || AllUnstored(f))
    ensures AllUnstored(g) <==> AllUnstored(f)
  {
    if AllUnstored(f) {
      forall j | 0 <= j < |g| ensures g[j].Unstored() {
        assert g[j] in f;
        var i :| 0 <= i < |f| && f[i] == g[j];
      }
    } else {
      var i :| 0 <= i < |f| && !f[i].dontRestore && !f[i].Unstored();
      assert f[i] in f && f[i] in g;
      var j :| 0 <= j < |g| && g[j] == f[i];
    }
  }

  // Restoring ignores them.

  lemma RestoreOne(c: RestConfig, fm: Fm, par: Path, disk: seq<Kid>, rs: RestState)
    ensures RestoreKids(c, [fm], par, disk, rs) == RestoreKid(c, fm, par + [fm.name], disk, rs)
  {
    assert [fm][..0] == [];
    var r := RestoreKid(c, fm, par + [fm.name], disk, rs);
    if r.Restored? { assert [] + r.out == r.out; }
  }

  lemma RestoreJoin(c: RestConfig, a: seq<Fm>, b: seq<Fm>, path: Path, disk: seq<Kid>, rs: RestState)
    requires |b| <= 1
    ensures RestoreKids(c, a + b, path, disk, rs) ==
            match RestoreKids(c, a, path, disk, rs)
            case RestErr(e) => RestErr(e)
            case Restored(out, disk, rs) =>
              match RestoreKids(c, b, path, disk, rs)
              case RestErr(e) => RestErr(e)
              case Restored(more, disk, rs) => Restored(out + more, disk, rs)
  {
    if b == [] {
      assert a + b == a;
      var r := RestoreKids(c, a, path, disk, rs);
      if r.Restored? { assert r.out + [] == r.out; }
    } else {
      assert b == [b[0]] && (a + b)[..|a|] == a;
      var r := RestoreKids(c, a, path, disk, rs);
      if r.Restored? { RestoreOne(c, b[0], path, r.disk, r.rs); }
    }
  }

  lemma {:induction false} RestoreDropKid(c: RestConfig, fm: Fm, par: Path, disk: seq<Kid>, rs: RestState)
    requires !c.quick && Marked(fm, par + [fm.name]) && !HasHollow(fm, par + [fm.name])
    ensures RestoreKids(c, DropFm(fm, par + [fm.name]), par, disk, rs) == RestoreKid(c, fm, par + [fm.name], disk, rs)
    decreases fm, 1
  {
    var path := par + [fm.name];
    if !RpmDb(path) {
      var d := fm.(children := DropAll(fm.children, path));
      RestoreOne(c, d, par, disk, rs);
      if fm.kind.FDir? {
        EmptyEither(fm, path);
        var l := Locate(c, fm, disk, rs);
        if l.Found? && l.node.Dir? { RestoreDrop(c, fm.children, path, l.node.kids, l.rs); }
        DirEither(c, fm, d, path, disk, rs);
      } else {
        assert d == fm;
      }
    }
  }

  /** Two records of a directory that say the same of it. */
  lemma DirEither(c: RestConfig, fm: Fm, d: Fm, path: Path, disk: seq<Kid>, rs: RestState)
    requires !c.quick && fm.kind.FDir? && d == fm.(children := d.children) && (d.EmptyDir() <==> fm.EmptyDir())
    requires fm.hardlinkTo.None? && fm.largeName.None? && !fm.dontRestore && !RpmDb(path)
    requires var l := Locate(c, fm, disk, rs);
             l.Found? && l.node.Dir? ==>
               RestoreKids(c, d.children, path, l.node.kids, l.rs) == RestoreKids(c, fm.children, path, l.node.kids, l.rs)
    ensures RestoreKid(c, d, path, disk, rs) == RestoreKid(c, fm, path, disk, rs)
  {
    assert Locate(c, d, disk, rs) == Locate(c, fm, disk, rs);
    var l := Locate(c, fm, disk, rs);
    if !fm.EmptyDir() { assert d.children != [] && fm.children != []; }
  }

  lemma {:induction false} RestoreDrop(c: RestConfig, fms: seq<Fm>, path: Path, disk: seq<Kid>, rs: RestState)
    requires !c.quick && AllMarked(fms, path) && !AnyHollow(fms, path)
    ensures RestoreKids(c, DropAll(fms, path), path, disk, rs) == RestoreKids(c, fms, path, disk, rs)
    decreases fms, 0
  {
    if fms != [] {
      var n := |fms| - 1;
      AnyHollowSnoc(fms, path);
      RestoreDrop(c, fms[..n], path, disk, rs);
      var r := RestoreKids(c, fms[..n], path, disk, rs);
      if r.Restored? { RestoreDropKid(c, fms[n], path, r.disk, r.rs); }
      RestoreJoin(c, DropAll(fms[..n], path), DropFm(fms[n], path + [fms[n].name]), path, disk, rs);
    }
  }

  // ---------------------------------------------------------------------------
  // The two walks

  /** The same files, link counts apart. */
  predicate StoresAlike(a: Store, b: Store) {
    a.Keys == b.Keys && forall ln :: ln in a ==> SameFileIn(a[ln], b[ln])
  }

  predicate SameFileIn(i: Inode, j: Inode) { j == i.(nlink := j.nlink) }

  /** One inode, `v` being still to be walked: as long as it has names to come that stay, the
      link counts differ by the database names before the last of these. */
  ghost predicate AlikeAt(s: PrepState, t: PrepState, v: seq<Leaf>, n: nat) {
    n in s.inodes && n in t.inodes ==>
      var i, j, c := s.inodes[n], t.inodes[n], Count(PlainOf(v), n);
      && j.kind == i.kind && j.mtime == i.mtime && ChmodMin(j).perm == ChmodMin(i).perm
      && (c > 0 ==>
            && c <= j.nlink && i.nlink == j.nlink + Ahead(v, n)
            && (n in s.hardlinks <==> n in t.hardlinks)
            && (n in s.hardlinks ==> t.hardlinks[n] == s.hardlinks[n]))
  }

  ghost predicate Alike(s: PrepState, t: PrepState, v: seq<Leaf>) {
    && s.inodes.Keys == t.inodes.Keys && StoresAlike(s.store, t.store)
    && forall n {:trigger AlikeAt(s, t, v, n)} :: AlikeAt(s, t, v, n)
  }

  /** What preparing one file does to its inode and the dictionary, the same in both walks. */
  ghost predicate Moves(s: PrepState, s': PrepState, ino: nat, path: Path, drop: nat, enter: bool) {
    && ino in s.inodes && ino in s'.inodes && drop <= s.inodes[ino].nlink
    && s'.inodes == s.inodes[ino := ChmodMin(s.inodes[ino]).(nlink := s.inodes[ino].nlink - drop)]
    && s'.hardlinks == if enter then s.hardlinks[ino := path] else s.hardlinks
  }

  lemma MovesAlike(s: PrepState, s': PrepState, t: PrepState, t': PrepState, l: Leaf, v: seq<Leaf>, drop: nat, enter: bool)
    requires Alike(s, t, [l] + v) && !RpmDb(l.path) && drop <= 1
    requires Moves(s, s', l.ino, l.path, drop, enter) && Moves(t, t', l.ino, l.path, drop, enter)
    requires StoresAlike(s'.store, t'.store)
    ensures Alike(s', t', v)
  {
    forall n ensures AlikeAt(s', t', v, n) {
      assert AlikeAt(s, t, [l] + v, n);
      AheadStep(l, v, n);
    }
  }

  /** A database name goes in one walk only. */
  lemma RpmAlike(s: PrepState, t: PrepState, l: Leaf, v: seq<Leaf>)
    requires Alike(s, t, [l] + v) && RpmDb(l.path) && l.ino in s.inodes
    ensures Alike(Unlink(Widened(s, l.ino), l.ino), t, v)
  {
    var s' := Unlink(Widened(s, l.ino), l.ino);
    forall n ensures AlikeAt(s', t, v, n) {
      assert AlikeAt(s, t, [l] + v, n);
      AheadStep(l, v, n);
    }
  }

  /** What both walks do with a file that stays. */
  ghost predicate Together(p: Prepared, q: Prepared, s: PrepState, t: PrepState, ino: nat, path: Path) {
    && p.Prepared? && q.Prepared? && q.fm == p.fm && q.left == p.left && StoresAlike(p.st.store, q.st.store)
    && exists drop: nat, enter: bool ::
         drop <= 1 && Moves(s, p.st, ino, path, drop, enter) && Moves(t, q.st, ino, path, drop, enter)
  }

  /** The inodes once permissions are widened. */
  ghost predicate Even(s: PrepState, t: PrepState, ino: nat) {
    && ino in s.inodes && ino in t.inodes && t.inodes[ino].nlink > 0
    && s.inodes[ino] == t.inodes[ino].(nlink := s.inodes[ino].nlink)
    && s.inodes[ino].nlink >= t.inodes[ino].nlink && ChmodMin(s.inodes[ino]) == s.inodes[ino]
    && StoresAlike(s.store, t.store)
  }

  lemma StoredTogether(c: PrepConfig, fm: Fm, ino: nat, path: Path, s: PrepState, t: PrepState)
    requires Even(s, t, ino) && PrepStored(c, fm, ino, path, s).Prepared?
    ensures Together(PrepStored(c, fm, ino, path, s), PrepStored(c, fm, ino, path, t), s, t, ino, path)
  {
    var p, q := PrepStored(c, fm, ino, path, s), PrepStored(c, fm, ino, path, t);
    var i, ln := s.inodes[ino], LargeNameOf(s.inodes[ino], path);
    UnlinkMoves(s, ino, path);
    UnlinkMoves(t, ino, path);
    if (IsLarge(c, fm.name, i) && ln in s.store) || (!IsLarge(c, fm.name, i) && i.kind.Fifo?) {
      assert p.st == Unlink(s, ino) && q.st == Unlink(t, ino);
    } else {
      assert Moves(s, p.st, ino, path, 0, false) && Moves(t, q.st, ino, path, 0, false);
    }
  }

  lemma UnlinkMoves(s: PrepState, ino: nat, path: Path)
    requires ino in s.inodes && s.inodes[ino].nlink > 0 && ChmodMin(s.inodes[ino]) == s.inodes[ino]
    ensures Moves(s, Unlink(s, ino), ino, path, 1, false)
  {
  }

  lemma LinkTogether(c: PrepConfig, fm: Fm, ino: nat, path: Path, s: PrepState, t: PrepState)
    requires Even(s, t, ino) && PrepLink(c, fm, ino, path, s).Prepared?
    requires (s.inodes[ino].nlink > 1 <==> t.inodes[ino].nlink > 1) && (ino in s.hardlinks <==> ino in t.hardlinks)
    requires ino in s.hardlinks ==> t.hardlinks[ino] == s.hardlinks[ino]
    ensures Together(PrepLink(c, fm, ino, path, s), PrepLink(c, fm, ino, path, t), s, t, ino, path)
  {
    var p, q := PrepLink(c, fm, ino, path, s), PrepLink(c, fm, ino, path, t);
    if s.inodes[ino].nlink <= 1 {
      StoredTogether(c, fm, ino, path, s, t);
    } else if ino in s.hardlinks {
      assert Moves(s, p.st, ino, path, 1, false) && Moves(t, q.st, ino, path, 1, false);
    } else {
      var s1, t1 := s.(hardlinks := s.hardlinks[ino := path]), t.(hardlinks := t.hardlinks[ino := path]);
      StoredTogether(c, fm, ino, path, s1, t1);
      var drop: nat, enter: bool :| drop <= 1 && Moves(s1, p.st, ino, path, drop, enter) && Moves(t1, q.st, ino, path, drop, enter);
      assert Moves(s, p.st, ino, path, drop, true) && Moves(t, q.st, ino, path, drop, true);
    }
  }

  lemma WidenedEven(s: PrepState, t: PrepState, l: Leaf, v: seq<Leaf>)
    requires Alike(s, t, [l] + v) && !RpmDb(l.path) && l.ino in s.inodes
    ensures l.ino in t.inodes && Even(Widened(s, l.ino), Widened(t, l.ino), l.ino)
    ensures s.inodes[l.ino].nlink > 1 <==> t.inodes[l.ino].nlink > 1
    ensures (l.ino in s.hardlinks <==> l.ino in t.hardlinks) && (l.ino in s.hardlinks ==> t.hardlinks[l.ino] == s.hardlinks[l.ino])
  {
    assert AlikeAt(s, t, [l] + v, l.ino);
    AheadStep(l, v, l.ino);
    AheadCounts(v, l.ino);
    SameOnceWidened(s.inodes[l.ino], t.inodes[l.ino]);
  }

  lemma SameOnceWidened(i: Inode, j: Inode)
    requires j.kind == i.kind && j.mtime == i.mtime && ChmodMin(j).perm == ChmodMin(i).perm
    ensures ChmodMin(i) == ChmodMin(j).(nlink := i.nlink)
  {
  }

  /** A file that stays, of a kind that is prepared. */
  lemma FileTogether(c: PrepConfig, name: Name, l: Leaf, s: PrepState, t: PrepState, v: seq<Leaf>)
    requires Alike(s, t, [l] + v) && !RpmDb(l.path) && l.path != GIT_DIR && l.ino in s.inodes
    requires !s.inodes[l.ino].kind.Dev? && !s.inodes[l.ino].kind.Sock? && PrepFile(c, name, l.ino, l.path, s).Prepared?
    ensures var p, q := PrepFile(c, name, l.ino, l.path, s), PrepFile(c, name, l.ino, l.path, t);
            q.Prepared? && q.fm == p.fm && q.left == p.left && Alike(p.st, q.st, v)
  {
    WidenedEven(s, t, l, v);
    PrepFileLink(c, name, l.ino, l.path, s);
    PrepFileLink(c, name, l.ino, l.path, t);
    var p, q := PrepFile(c, name, l.ino, l.path, s), PrepFile(c, name, l.ino, l.path, t);
    var s1, t1 := Widened(s, l.ino), Widened(t, l.ino);
    assert FileRecord(name, ChmodMin(t.inodes[l.ino])) == FileRecord(name, ChmodMin(s.inodes[l.ino]));
    LinkTogether(c, FileRecord(name, ChmodMin(s.inodes[l.ino])), l.ino, l.path, s1, t1);
    var drop: nat, enter: bool :| drop <= 1 && Moves(s1, p.st, l.ino, l.path, drop, enter) && Moves(t1, q.st, l.ino, l.path, drop, enter);
    MovesWidened(s, p.st, l.ino, l.path, drop, enter);
    MovesWidened(t, q.st, l.ino, l.path, drop, enter);
    MovesAlike(s, p.st, t, q.st, l, v, drop, enter);
  }

  lemma MovesWidened(s: PrepState, s': PrepState, ino: nat, path: Path, drop: nat, enter: bool)
    requires ino in s.inodes && Moves(Widened(s, ino), s', ino, path, drop, enter)
    ensures Moves(s, s', ino, path, drop, enter)
  {
  }

  /** The same tree, modes and times of directories apart. */
  predicate SameLeftKid(a: Kid, b: Kid)
    decreases a.node, 1
  {
    && b.name == a.name
    && match a.node
       case File(ino) => b.node == File(ino)
       case Dir(_, _, kids) => b.node.Dir? && SameLeft(kids, b.node.kids)
  }

  predicate SameLeft(a: seq<Kid>, b: seq<Kid>)
    decreases a, 0
  {
    |a| == |b| && forall i :: 0 <= i < |a| ==> SameLeftKid(a[i], b[i])
  }

  lemma SameLeftJoin(a: seq<Kid>, b: seq<Kid>, a': seq<Kid>, b': seq<Kid>)
    requires SameLeft(a, b) && SameLeft(a', b')
    ensures SameLeft(a + a', b + b')
  {
    forall i | 0 <= i < |a + a'| ensures SameLeftKid((a + a')[i], (b + b')[i]) {
      assert i < |a| ==> SameLeftKid(a[i], b[i]);
    }
  }

  lemma PrepOne(c: PrepConfig, k: Kid, par: Path, st: PrepState)
    ensures PrepKids(c, [k], par, st) ==
            match PrepKid(c, k, par + [k.name], st)
            case PrepErr(e) => KidsErr(e)
            case Prepared(fm, left, st) => PreparedKids([fm], left, st)
  {
    assert [k][..0] == [];
    var p := PrepKid(c, k, par + [k.name], st);
    if p.Prepared? { assert [] + [p.fm] == [p.fm] && [] + p.left == p.left; }
  }

  lemma PrepAppend(c: PrepConfig, a: seq<Kid>, b: seq<Kid>, par: Path, st: PrepState)
    requires |b| <= 1 && PrepKids(c, a, par, st).PreparedKids? && PrepKids(c, b, par, PrepKids(c, a, par, st).st).PreparedKids?
    ensures var p := PrepKids(c, a, par, st);
            var q := PrepKids(c, b, par, p.st);
            PrepKids(c, a + b, par, st) == PreparedKids(p.fms + q.fms, p.left + q.left, q.st)
  {
    var p := PrepKids(c, a, par, st);
    if b == [] {
      assert a + b == a && p.fms + [] == p.fms && p.left + [] == p.left;
    } else {
      assert b == [b[0]] && (a + b)[..|a|] == a && (a + b)[|a|] == b[0];
      PrepOne(c, b[0], par, p.st);
    }
  }

  lemma AdmissibleParts(z: Context, a: seq<Kid>, b: seq<Kid>, path: Path)
    requires AdmissibleKids(z, a + b, path)
    ensures AdmissibleKids(z, a, path)
    ensures forall i :: 0 <= i < |b| ==> AdmissibleKid(z, b[i], path + [b[i].name])
  {
    var t := a + b;
    assert forall i :: 0 <= i < |a| ==> t[i] == a[i];
    forall i | 0 <= i < |b| ensures AdmissibleKid(z, b[i], path + [b[i].name]) { assert t[|a| + i] == b[i]; }
  }

  // Below an RPM database path everything goes.

  lemma {:induction false} RpmKidGoes(x: Context, kid: Kid, path: Path, s: PrepState, t: PrepState, v: seq<Leaf>)
    requires RpmKid(x, kid, path) && RpmDb(path) && Tracks(x.inodes, s.inodes) && Alike(s, t, LeavesKid(kid, path) + v)
    requires PrepKid(x.c, kid, path, s).Prepared?
    ensures var p := PrepKid(x.c, kid, path, s); Alike(p.st, t, v) && Prune(p.left) == [] && Marked(p.fm, path)
    decreases kid.node, 1
  {
    match kid.node
    case File(ino) =>
      RpmGone(x.c, kid.name, ino, path, s);
      RpmAlike(s, t, Leaf(path, ino), v);
    case Dir(_, _, kids) =>
      RpmKidsGo(x, kids, path, s, t, v);
      var p := PrepKid(x.c, kid, path, s);
      if p.left != [] { PruneOne(p.left[0]); }
  }

  lemma {:induction false} RpmKidsGo(x: Context, kids: seq<Kid>, path: Path, s: PrepState, t: PrepState, v: seq<Leaf>)
    requires RpmKids(x, kids, path) && RpmDb(path) && Tracks(x.inodes, s.inodes) && Alike(s, t, LeavesKids(kids, path) + v)
    requires PrepKids(x.c, kids, path, s).PreparedKids?
    ensures var p := PrepKids(x.c, kids, path, s); Alike(p.st, t, v) && Prune(p.left) == [] && AllMarked(p.fms, path)
    decreases kids, 0
  {
    if kids == [] {
      assert [] + v == v;
    } else {
      var n := |kids| - 1;
      var own := path + [kids[n].name];
      PrepLast(x.c, kids, path, s);
      RpmInit(x, kids, path);
      var p1 := PrepKids(x.c, kids[..n], path, s);
      LeavesThen(kids, path, v);
      RpmKidsGo(x, kids[..n], path, s, t, LeavesKid(kids[n], own) + v);
      WalkTracks(x.inodes, x.c, kids[..n], path, s);
      RpmKidGoes(x, kids[n], own, p1.st, t, v);
      GoneSnoc(p1, PrepKid(x.c, kids[n], own, p1.st), path);
    }
  }

  lemma RpmInit(x: Context, kids: seq<Kid>, path: Path)
    requires kids != [] && RpmKids(x, kids, path)
    ensures RpmKids(x, kids[..|kids| - 1], path) && RpmKid(x, kids[|kids| - 1], path + [kids[|kids| - 1].name])
  {
  }

  lemma GoneSnoc(p1: PreparedKids, p2: Prepared, path: Path)
    requires p1.PreparedKids? && Prune(p1.left) == [] && AllMarked(p1.fms, path)
    requires p2.Prepared? && Prune(p2.left) == [] && Marked(p2.fm, path + [p2.fm.name])
    ensures Prune(p1.left + p2.left) == [] && AllMarked(p1.fms + [p2.fm], path)
  {
    PruneSplit(p1.left, p2.left);
    MarkedSnoc(p1.fms, p2.fm, path);
  }

  lemma PrepLast(c: PrepConfig, kids: seq<Kid>, path: Path, st: PrepState)
    requires kids != [] && PrepKids(c, kids, path, st).PreparedKids?
    ensures var n := |kids| - 1;
            var p1 := PrepKids(c, kids[..n], path, st);
            && p1.PreparedKids?
            && var p2 := PrepKid(c, kids[n], path + [kids[n].name], p1.st);
               && p2.Prepared? && p2.fm.name == kids[n].name
               && PrepKids(c, kids, path, st) == PreparedKids(p1.fms + [p2.fm], p1.left + p2.left, p2.st)
  {
    PrepNamed(c, kids[|kids| - 1], path + [kids[|kids| - 1].name], PrepKids(c, kids[..|kids| - 1], path, st).st);
  }

  lemma PrepNamed(c: PrepConfig, kid: Kid, path: Path, st: PrepState)
    ensures PrepKid(c, kid, path, st).Prepared? ==> PrepKid(c, kid, path, st).fm.name == kid.name
  {
  }

  lemma LeavesThen(kids: seq<Kid>, path: Path, v: seq<Leaf>)
    requires kids != []
    ensures var n := |kids| - 1;
            LeavesKids(kids, path) + v == LeavesKids(kids[..n], path) + (LeavesKid(kids[n], path + [kids[n].name]) + v)
  {
  }

  lemma MarkedSnoc(fms: seq<Fm>, fm: Fm, path: Path)
    requires AllMarked(fms, path) && Marked(fm, path + [fm.name])
    ensures AllMarked(fms + [fm], path)
  {
    forall i | 0 <= i < |fms + [fm]| ensures Marked((fms + [fm])[i], path + [(fms + [fm])[i].name]) {
      assert i < |fms| ==> (fms + [fm])[i] == fms[i];
    }
  }

  // Elsewhere both walks do the same.

  /** The walk of one tree, and of the same tree without database files. */
  ghost predicate BothWalk(f: seq<Fm>, left: seq<Kid>, s: PrepState, g: seq<Fm>, q: PreparedKids, v: seq<Leaf>) {
    q.PreparedKids? && q.fms == g && Alike(s, q.st, v) && SameLeft(Prune(left), q.left)
  }

  lemma {:induction false} BothKid(x: Context, z: Context, kid: Kid, par: Path, s: PrepState, t: PrepState, v: seq<Leaf>)
    requires RpmKid(x, kid, par + [kid.name]) && z.c == x.c && Tracks(x.inodes, s.inodes) && Tracks(z.inodes, t.inodes)
    requires !RpmDb(par + [kid.name]) ==> AdmissibleKid(z, StripKid(kid, par + [kid.name])[0], par + [kid.name])
    requires Alike(s, t, LeavesKid(kid, par + [kid.name]) + v) && PrepKid(x.c, kid, par + [kid.name], s).Prepared?
    ensures var path := par + [kid.name];
            var p := PrepKid(x.c, kid, path, s);
            && p.fm.name == kid.name && Marked(p.fm, path)
            && BothWalk([p.fm], p.left, p.st, DropFm(p.fm, path), PrepKids(z.c, StripKid(kid, path), par, t), v)
    decreases kid.node, 1
  {
    var path := par + [kid.name];
    PrepNamed(x.c, kid, path, s);
    if RpmDb(path) {
      RpmKidGoes(x, kid, path, s, t, v);
    } else {
      PrepOne(z.c, StripKid(kid, path)[0], par, t);
      match kid.node
      case File(ino) =>
        BothFile(x, kid, ino, path, s, t, v);
      case Dir(_, _, kids) =>
        DirWalked(x.c, kid, path, s);
        BothKids(x, z, kids, path, s, t, v);
        BothDir(x, z, kid, path, s, t);
    }
  }

  /** A directory's record and what is left of it, from its entries. */
  lemma DirWalked(c: PrepConfig, kid: Kid, path: Path, st: PrepState)
    requires kid.node.Dir? && path != GIT_DIR && PrepKid(c, kid, path, st).Prepared?
    ensures var p, ps := PrepKid(c, kid, path, st), PrepKids(c, kid.node.kids, path, st);
            && ps.PreparedKids? && p.st == ps.st
            && p.fm == Fm(kid.name, FDir, MinDirPerm(kid.node.perm), kid.node.mtime, 0, ps.fms, false, None, None)
            && Prune(p.left) == if Prune(ps.left) == [] then [] else [Kid(Escape(kid.name), Dir(p.left[0].node.perm, p.left[0].node.mtime, Prune(ps.left)))]
  {
    var p := PrepKid(c, kid, path, st);
    if p.left != [] { PruneOne(p.left[0]); }
  }

  lemma BothFile(x: Context, kid: Kid, ino: nat, path: Path, s: PrepState, t: PrepState, v: seq<Leaf>)
    requires kid.node == File(ino) && RpmKid(x, kid, path) && !RpmDb(path) && Tracks(x.inodes, s.inodes)
    requires Alike(s, t, [Leaf(path, ino)] + v) && PrepFile(x.c, kid.name, ino, path, s).Prepared?
    ensures var p, q := PrepFile(x.c, kid.name, ino, path, s), PrepFile(x.c, kid.name, ino, path, t);
            && q.Prepared? && q.fm == p.fm && Alike(p.st, q.st, v) && SameLeft(Prune(p.left), q.left)
            && Marked(p.fm, path) && DropFm(p.fm, path) == [p.fm]
  {
    var p := PrepFile(x.c, kid.name, ino, path, s);
    FileTogether(x.c, kid.name, Leaf(path, ino), s, t, v);
    LeftOfFile(x.c, kid.name, ino, path, s);
    FileMarked(x, kid.name, ino, path, s);
    if p.left != [] { PruneOne(p.left[0]); }
  }

  lemma FileMarked(x: Context, name: Name, ino: nat, path: Path, s: PrepState)
    requires ino in x.inodes && AdmissibleFile(x, name, x.inodes[ino], path) && path != GIT_DIR && !RpmDb(path)
    requires Tracks(x.inodes, s.inodes) && PrepFile(x.c, name, ino, path, s).Prepared?
    ensures var p := PrepFile(x.c, name, ino, path, s); Marked(p.fm, path) && DropFm(p.fm, path) == [p.fm]
  {
    var p := PrepFile(x.c, name, ino, path, s);
    PrepFileLink(x.c, name, ino, path, s);
    WidenedTracks(x.inodes, s, ino);
    PrepLinkOk(x, FileRecord(name, ChmodMin(s.inodes[ino])), ino, path, Widened(s, ino));
    RecordedPlain(x.c, name, ino, path, s);
    assert DropAll([], path) == [] && p.fm.(children := []) == p.fm;
  }

  lemma BothDir(x: Context, z: Context, kid: Kid, path: Path, s: PrepState, t: PrepState)
    requires kid.node.Dir? && path != GIT_DIR && !RpmDb(path) && z.c == x.c && Tracks(z.inodes, t.inodes)
    requires AdmissibleKid(z, StripKid(kid, path)[0], path) && PrepKid(x.c, kid, path, s).Prepared?
    requires var ps := PrepKids(x.c, kid.node.kids, path, s);
             && ps.PreparedKids? && AllMarked(ps.fms, path)
             && var qs := PrepKids(z.c, Strip(kid.node.kids, path), path, t);
                qs.PreparedKids? && qs.fms == DropAll(ps.fms, path) && SameLeft(Prune(ps.left), qs.left)
    ensures var p, q := PrepKid(x.c, kid, path, s), PrepKid(z.c, StripKid(kid, path)[0], path, t);
            && q.Prepared? && [q.fm] == DropFm(p.fm, path) && SameLeft(Prune(p.left), q.left) && Marked(p.fm, path)
            && p.st == PrepKids(x.c, kid.node.kids, path, s).st && q.st == PrepKids(z.c, Strip(kid.node.kids, path), path, t).st
  {
    var k := StripKid(kid, path)[0];
    var p, q := PrepKid(x.c, kid, path, s), PrepKid(z.c, k, path, t);
    var ps, qs := PrepKids(x.c, kid.node.kids, path, s), PrepKids(z.c, k.node.kids, path, t);
    DirWalked(x.c, kid, path, s);
    DirLeft(z, k, path, t);
    CleanDir(z, k, path, t);
    DirDropped(p.fm, q.fm, path);
    DirSameLeft(Escape(kid.name), Prune(ps.left), Prune(p.left), qs.left, q.left);
  }

  lemma DirDropped(fm: Fm, d: Fm, path: Path)
    requires fm.kind.FDir? && !fm.dontRestore && fm.hardlinkTo.None? && fm.largeName.None? && !RpmDb(path)
    requires AllMarked(fm.children, path) && d == fm.(children := DropAll(fm.children, path))
    ensures Marked(fm, path) && DropFm(fm, path) == [d]
  {
  }

  /** A directory is there in both trees, or in neither. */
  lemma DirSameLeft(name: Name, a: seq<Kid>, a': seq<Kid>, b: seq<Kid>, b': seq<Kid>)
    requires SameLeft(a, b)
    requires if a == [] then a' == [] else |a'| == 1 && a'[0].name == name && a'[0].node.Dir? && a'[0].node.kids == a
    requires if b == [] then b' == [] else |b'| == 1 && b'[0].name == name && b'[0].node.Dir? && b'[0].node.kids == b
    ensures SameLeft(a', b')
  {
  }

  /** Of an admissible directory something is left if and only if something in it is. */
  lemma CleanDir(z: Context, k: Kid, path: Path, t: PrepState)
    requires k.node.Dir? && AdmissibleKid(z, k, path) && Tracks(z.inodes, t.inodes) && PrepKid(z.c, k, path, t).Prepared?
    ensures var q, qs := PrepKid(z.c, k, path, t), PrepKids(z.c, k.node.kids, path, t);
            && qs.PreparedKids?
            && q.fm == Fm(k.name, FDir, MinDirPerm(k.node.perm), k.node.mtime, 0, qs.fms, false, None, None)
            && if qs.left == [] then q.left == []
               else |q.left| == 1 && q.left[0].name == Escape(k.name) && q.left[0].node.Dir? && q.left[0].node.kids == qs.left
  {
    PrepKidsOk(z, k.node.kids, path, t);
  }

  ghost predicate BothReady(x: Context, z: Context, kids: seq<Kid>, path: Path, s: PrepState, t: PrepState, v: seq<Leaf>) {
    && RpmKids(x, kids, path) && z.c == x.c && Tracks(x.inodes, s.inodes) && Tracks(z.inodes, t.inodes)
    && AdmissibleKids(z, Strip(kids, path), path)
    && Alike(s, t, LeavesKids(kids, path) + v) && PrepKids(x.c, kids, path, s).PreparedKids?
  }

  lemma InitBoth(x: Context, z: Context, kids: seq<Kid>, path: Path, s: PrepState, t: PrepState, v: seq<Leaf>)
    requires kids != [] && BothReady(x, z, kids, path, s, t, v)
    ensures var n := |kids| - 1;
            BothReady(x, z, kids[..n], path, s, t, LeavesKid(kids[n], path + [kids[n].name]) + v)
  {
    PrepLast(x.c, kids, path, s);
    RpmInit(x, kids, path);
    LastAdmissible(z, kids, path);
    LeavesThen(kids, path, v);
  }

  lemma {:induction false} BothKids(x: Context, z: Context, kids: seq<Kid>, path: Path, s: PrepState, t: PrepState, v: seq<Leaf>)
    requires BothReady(x, z, kids, path, s, t, v)
    ensures var p := PrepKids(x.c, kids, path, s);
            AllMarked(p.fms, path) && BothWalk(p.fms, p.left, p.st, DropAll(p.fms, path), PrepKids(z.c, Strip(kids, path), path, t), v)
    decreases kids, 0
  {
    if kids == [] {
      assert [] + v == v;
    } else {
      var n := |kids| - 1;
      var own := path + [kids[n].name];
      InitBoth(x, z, kids, path, s, t, v);
      BothKids(x, z, kids[..n], path, s, t, LeavesKid(kids[n], own) + v);
      var p1, q1 := PrepKids(x.c, kids[..n], path, s), PrepKids(z.c, Strip(kids[..n], path), path, t);
      LastBoth(x, z, kids, path, s, t, v, p1, q1);
      BothKid(x, z, kids[n], path, p1.st, q1.st, v);
      BothSnoc(x, z, kids, path, s, t, v);
    }
  }

  lemma LastBoth(
      x: Context, z: Context, kids: seq<Kid>, path: Path, s: PrepState, t: PrepState, v: seq<Leaf>, p1: PreparedKids, q1: PreparedKids)
    requires kids != [] && BothReady(x, z, kids, path, s, t, v)
    requires p1 == PrepKids(x.c, kids[..|kids| - 1], path, s) && q1 == PrepKids(z.c, Strip(kids[..|kids| - 1], path), path, t)
    requires p1.PreparedKids? && q1.PreparedKids?
    ensures var n := |kids| - 1;
            var own := path + [kids[n].name];
            && RpmKid(x, kids[n], own) && (!RpmDb(own) ==> AdmissibleKid(z, StripKid(kids[n], own)[0], own))
            && Tracks(x.inodes, p1.st.inodes) && Tracks(z.inodes, q1.st.inodes) && PrepKid(x.c, kids[n], own, p1.st).Prepared?
  {
    var n := |kids| - 1;
    PrepLast(x.c, kids, path, s);
    RpmInit(x, kids, path);
    LastAdmissible(z, kids, path);
    WalkTracks(x.inodes, x.c, kids[..n], path, s);
    WalkTracks(z.inodes, z.c, Strip(kids[..n], path), path, t);
  }

  lemma LastAdmissible(z: Context, kids: seq<Kid>, path: Path)
    requires kids != [] && AdmissibleKids(z, Strip(kids, path), path)
    ensures var n := |kids| - 1;
            var own := path + [kids[n].name];
            && AdmissibleKids(z, Strip(kids[..n], path), path)
            && (!RpmDb(own) ==> AdmissibleKid(z, StripKid(kids[n], own)[0], own))
  {
    var n := |kids| - 1;
    var own := path + [kids[n].name];
    var b := StripKid(kids[n], own);
    AdmissibleParts(z, Strip(kids[..n], path), b, path);
    if !RpmDb(own) { assert AdmissibleKid(z, b[0], path + [b[0].name]); }
  }

  lemma BothSnoc(x: Context, z: Context, kids: seq<Kid>, path: Path, s: PrepState, t: PrepState, v: seq<Leaf>)
    requires kids != [] && PrepKids(x.c, kids, path, s).PreparedKids?
    requires var n := |kids| - 1;
             var own := path + [kids[n].name];
             var p1, q1 := PrepKids(x.c, kids[..n], path, s), PrepKids(z.c, Strip(kids[..n], path), path, t);
             && p1.PreparedKids? && q1.PreparedKids? && AllMarked(p1.fms, path)
             && q1.fms == DropAll(p1.fms, path) && SameLeft(Prune(p1.left), q1.left)
             && var p2, q2 := PrepKid(x.c, kids[n], own, p1.st), PrepKids(z.c, StripKid(kids[n], own), path, q1.st);
                && p2.Prepared? && p2.fm.name == kids[n].name && Marked(p2.fm, own)
                && BothWalk([p2.fm], p2.left, p2.st, DropFm(p2.fm, own), q2, v)
    ensures var p := PrepKids(x.c, kids, path, s);
            AllMarked(p.fms, path) && BothWalk(p.fms, p.left, p.st, DropAll(p.fms, path), PrepKids(z.c, Strip(kids, path), path, t), v)
  {
    var n := |kids| - 1;
    var own := path + [kids[n].name];
    var a, b := Strip(kids[..n], path), StripKid(kids[n], own);
    var p1, q1 := PrepKids(x.c, kids[..n], path, s), PrepKids(z.c, a, path, t);
    var p2, q2 := PrepKid(x.c, kids[n], own, p1.st), PrepKids(z.c, b, path, q1.st);
    PrepLast(x.c, kids, path, s);
    PrepAppend(z.c, a, b, path, t);
    MarkedSnoc(p1.fms, p2.fm, path);
    assert (p1.fms + [p2.fm])[..|p1.fms|] == p1.fms;
    PruneSplit(p1.left, p2.left);
    SameLeftJoin(Prune(p1.left), q1.left, Prune(p2.left), q2.left);
  }

  // ---------------------------------------------------------------------------
  // The stripped tree can be prepared

  /** The context in which the names that stay are walked: their link counts are less by the
      database names that are gone when the last of them comes. */
  function WithoutRpm(x: Context, v: seq<Leaf>): Context {
    x.(inodes := map n | n in x.inodes :: x.inodes[n].(nlink := LinksLeft(x.inodes[n].nlink, Ahead(v, n))))
  }

  function LinksLeft(nlink: nat, gone: nat): nat { if gone <= nlink then nlink - gone else 0 }

  lemma StartAlike(x: Context, v: seq<Leaf>)
    requires CountsOk(x, v)
    ensures Alike(PrepState(x.inodes, map[], x.store), PrepState(WithoutRpm(x, v).inodes, map[], x.store), v)
  {
    forall n ensures AlikeAt(PrepState(x.inodes, map[], x.store), PrepState(WithoutRpm(x, v).inodes, map[], x.store), v, n) {
      AheadCounts(v, n);
    }
  }

  lemma {:induction false} RpmFineKid(x: Context, kid: Kid, path: Path)
    requires RpmKid(x, kid, path)
    ensures FilesFine(x, LeavesKid(kid, path))
    decreases kid.node, 1
  {
    if kid.node.Dir? { RpmFine(x, kid.node.kids, path); }
  }

  lemma {:induction false} RpmFine(x: Context, kids: seq<Kid>, path: Path)
    requires RpmKids(x, kids, path)
    ensures FilesFine(x, LeavesKids(kids, path))
    decreases kids, 0
  {
    if kids != [] {
      RpmInit(x, kids, path);
      RpmFine(x, kids[..|kids| - 1], path);
      RpmFineKid(x, kids[|kids| - 1], path + [kids[|kids| - 1].name]);
    }
  }

  lemma {:induction false} PlainFrom(v: seq<Leaf>)
    ensures forall i :: 0 <= i < |PlainOf(v)| ==> PlainOf(v)[i] in v && !RpmDb(PlainOf(v)[i].path)
  {
    if v != [] {
      var n := |v| - 1;
      PlainFrom(v[..n]);
      assert v[n] in v && forall l :: l in v[..n] ==> l in v;
    }
  }

  lemma PlainFine(x: Context, v: seq<Leaf>)
    requires FilesFine(x, v) && CountsOk(x, v)
    ensures FilesFine(WithoutRpm(x, v), PlainOf(v)) && CountsOk(WithoutRpm(x, v), PlainOf(v))
  {
    var z, w := WithoutRpm(x, v), PlainOf(v);
    PlainFrom(v);
    forall j | 0 <= j < |w| ensures KnownLeaf(z, w[j]) && AdmissibleFile(z, BaseName(w[j]), z.inodes[w[j].ino], w[j].path) {
      var i :| 0 <= i < |v| && v[i] == w[j];
      assert KnownLeaf(x, v[i]);
      AheadCounts(v, w[j].ino);
      CountOwned(w, j);
    }
    forall n | n in z.inodes ensures Count(w, n) <= z.inodes[n].nlink { AheadCounts(v, n); }
  }

  ghost predicate NamedIn(k: Kid, kids: seq<Kid>) { exists j :: 0 <= j < |kids| && kids[j].name == k.name }

  lemma {:induction false} StripNamed(kids: seq<Kid>, path: Path)
    ensures forall i :: 0 <= i < |Strip(kids, path)| ==> NamedIn(Strip(kids, path)[i], kids)
    decreases |kids|
  {
    if kids != [] {
      var n := |kids| - 1;
      var a := Strip(kids[..n], path);
      StripNamed(kids[..n], path);
      forall i | 0 <= i < |Strip(kids, path)| ensures NamedIn(Strip(kids, path)[i], kids) {
        if i < |a| {
          assert NamedIn(a[i], kids[..n]);
          var j :| 0 <= j < n && kids[..n][j].name == a[i].name;
          assert kids[j].name == a[i].name;
        } else {
          assert kids[n].name == Strip(kids, path)[i].name;
        }
      }
    }
  }

  lemma FineParts(z: Context, a: seq<Leaf>, b: seq<Leaf>)
    requires FilesFine(z, a + b)
    ensures FilesFine(z, a) && FilesFine(z, b)
  {
    assert forall k :: 0 <= k < |a| ==> (a + b)[k] == a[k];
    assert forall k :: 0 <= k < |b| ==> (a + b)[|a| + k] == b[k];
  }

  lemma AdmissibleJoin(z: Context, a: seq<Kid>, k: Kid, path: Path)
    requires AdmissibleKids(z, a, path) && AdmissibleKid(z, k, path + [k.name])
    requires forall i :: 0 <= i < |a| ==> Escape(a[i].name) != Escape(k.name)
    ensures AdmissibleKids(z, a + [k], path)
  {
    var t := a + [k];
    forall i | 0 <= i < |t| ensures AdmissibleKid(z, t[i], path + [t[i].name]) { assert i < |a| ==> t[i] == a[i]; }
  }

  lemma {:induction false} StripAdmissibleKid(x: Context, z: Context, k: Kid, path: Path)
    requires RpmKid(x, k, path) && !RpmDb(path) && FilesFine(z, LeavesKid(StripKid(k, path)[0], path))
    ensures AdmissibleKid(z, StripKid(k, path)[0], path)
    decreases k.node, 1
  {
    match k.node
    case File(ino) => assert LeavesKid(StripKid(k, path)[0], path)[0] == Leaf(path, ino);
    case Dir(_, _, kids) => StripAdmissible(x, z, kids, path);
  }

  lemma {:induction false} StripAdmissible(x: Context, z: Context, kids: seq<Kid>, path: Path)
    requires RpmKids(x, kids, path) && FilesFine(z, LeavesKids(Strip(kids, path), path))
    ensures AdmissibleKids(z, Strip(kids, path), path)
    decreases kids, 0
  {
    if kids != [] {
      var n := |kids| - 1;
      var own := path + [kids[n].name];
      RpmInit(x, kids, path);
      StripFine(z, kids, path);
      StripAdmissible(x, z, kids[..n], path);
      if !RpmDb(own) { StripAdmissibleKid(x, z, kids[n], own); }
      StripJoin(z, kids, path);
    }
  }

  lemma StripFine(z: Context, kids: seq<Kid>, path: Path)
    requires kids != [] && FilesFine(z, LeavesKids(Strip(kids, path), path))
    ensures var n := |kids| - 1;
            var own := path + [kids[n].name];
            && FilesFine(z, LeavesKids(Strip(kids[..n], path), path))
            && (!RpmDb(own) ==> FilesFine(z, LeavesKid(StripKid(kids[n], own)[0], own)))
  {
    var n := |kids| - 1;
    var own := path + [kids[n].name];
    var a, b := Strip(kids[..n], path), StripKid(kids[n], own);
    LeavesJoin(a, b, path);
    FineParts(z, LeavesKids(a, path), if b == [] then [] else LeavesKid(b[0], own));
  }

  lemma StripJoin(z: Context, kids: seq<Kid>, path: Path)
    requires kids != [] && AdmissibleKids(z, Strip(kids[..|kids| - 1], path), path)
    requires var own := path + [kids[|kids| - 1].name];
             !RpmDb(own) ==> AdmissibleKid(z, StripKid(kids[|kids| - 1], own)[0], own)
    requires forall i, j :: 0 <= i < j < |kids| ==> Escape(kids[i].name) != Escape(kids[j].name)
    ensures AdmissibleKids(z, Strip(kids, path), path)
  {
    var n := |kids| - 1;
    var own := path + [kids[n].name];
    var a, b := Strip(kids[..n], path), StripKid(kids[n], own);
    if RpmDb(own) {
      assert a + b == a;
    } else {
      var k := b[0];
      assert b == [k] && k.name == kids[n].name && path + [k.name] == own;
      forall i | 0 <= i < |a| ensures Escape(a[i].name) != Escape(k.name) { StripApart(kids, path, i); }
      AdmissibleJoin(z, a, k, path);
    }
  }

  lemma StripApart(kids: seq<Kid>, path: Path, i: nat)
    requires kids != [] && i < |Strip(kids[..|kids| - 1], path)|
    requires forall i, j :: 0 <= i < j < |kids| ==> Escape(kids[i].name) != Escape(kids[j].name)
    ensures Escape(Strip(kids[..|kids| - 1], path)[i].name) != Escape(kids[|kids| - 1].name)
  {
    var n := |kids| - 1;
    var k := Strip(kids[..n], path)[i];
    StripNamed(kids[..n], path);
    assert NamedIn(k, kids[..n]);
    var j :| 0 <= j < n && kids[..n][j].name == k.name;
    assert Escape(kids[j].name) != Escape(kids[n].name);
  }

  // ---------------------------------------------------------------------------
  // Link counts in the store do not matter

  lemma {:induction false} RestoreAlikeKid(c: RestConfig, st: Store, fm: Fm, path: Path, disk: seq<Kid>, rs: RestState)
    requires StoresAlike(c.store, st)
    ensures RestoreKid(c.(store := st), fm, path, disk, rs) == RestoreKid(c, fm, path, disk, rs)
    decreases fm, 1
  {
    LocateAlike(c, st, fm, disk, rs);
    var l := Locate(c, fm, disk, rs);
    if l.Found? && l.node.Dir? { RestoreAlike(c, st, fm.children, path, l.node.kids, l.rs); }
  }

  lemma LocateAlike(c: RestConfig, st: Store, fm: Fm, disk: seq<Kid>, rs: RestState)
    requires StoresAlike(c.store, st)
    ensures Locate(c.(store := st), fm, disk, rs) == Locate(c, fm, disk, rs)
  {
    if fm.largeName.Some? && fm.largeName.value in c.store {
      assert SameFileIn(c.store[fm.largeName.value], st[fm.largeName.value]);
    }
  }

  lemma {:induction false} RestoreAlike(c: RestConfig, st: Store, fms: seq<Fm>, path: Path, disk: seq<Kid>, rs: RestState)
    requires StoresAlike(c.store, st)
    ensures RestoreKids(c.(store := st), fms, path, disk, rs) == RestoreKids(c, fms, path, disk, rs)
    decreases fms, 0
  {
    if fms != [] {
      var n := |fms| - 1;
      RestoreAlike(c, st, fms[..n], path, disk, rs);
      var r := RestoreKids(c, fms[..n], path, disk, rs);
      if r.Restored? { RestoreAlikeKid(c, st, fms[n], path + [fms[n].name], r.disk, r.rs); }
    }
  }

  // ---------------------------------------------------------------------------
  // Main result

  /** The store with the stripped walk's link counts. */
  function Adapted(m: Store, q: Store): Store { map ln | ln in m :: if ln in q then q[ln] else m[ln] }

  lemma AdaptedAlike(m: Store, p: Store, q: Store)
    requires Grows(p, m) && StoresAlike(p, q)
    ensures StoresAlike(m, Adapted(m, q)) && Grows(q, Adapted(m, q))
  {
    forall ln | ln in m ensures SameFileIn(m[ln], Adapted(m, q)[ln]) {
      if ln in q { assert SameFileIn(p[ln], q[ln]) && m[ln] == p[ln]; }
    }
  }

  lemma {:induction false} MatchSameKid(x: Context, z: Context, a: Kid, b: Kid, d: Kid, inodes: map<nat, Inode>)
    requires MatchKid(x, a, d, inodes) && SameLeftKid(a, b) && !x.rc.quick && !z.rc.quick
    requires forall n :: n in x.inodes ==> n in z.inodes && z.inodes[n].kind == x.inodes[n].kind
    ensures MatchKid(z, b, d, inodes)
    decreases a.node, 1
  {
    if a.node.Dir? { MatchSame(x, z, a.node.kids, b.node.kids, d.node.kids, inodes); }
  }

  lemma {:induction false} MatchSame(x: Context, z: Context, a: seq<Kid>, b: seq<Kid>, d: seq<Kid>, inodes: map<nat, Inode>)
    requires MatchKids(x, a, d, inodes) && SameLeft(a, b) && !x.rc.quick && !z.rc.quick
    requires forall n :: n in x.inodes ==> n in z.inodes && z.inodes[n].kind == x.inodes[n].kind
    ensures MatchKids(z, b, d, inodes)
    decreases a, 0
  {
    forall i | 0 <= i < |b| ensures MatchKid(z, b[i], d[i], inodes) { MatchSameKid(x, z, a[i], b[i], d[i], inodes); }
  }

  /** Both walks of a whole tree. */
  lemma BothWalks(x: Context, kids: seq<Kid>, rc: RestConfig)
    requires RpmKids(x, kids, []) && CountsOk(x, LeavesKids(kids, [])) && Prepare(x, kids).PreparedKids?
    ensures var z := WithoutRpm(x, LeavesKids(kids, [])).(rc := rc);
            var p, q := Prepare(x, kids), Prepare(z, Strip(kids, []));
            && Admissible(z, Strip(kids, [])) && AllMarked(p.fms, [])
            && q.PreparedKids? && q.fms == DropAll(p.fms, []) && StoresAlike(p.st.store, q.st.store)
            && SameLeft(Prune(p.left), q.left)
  {
    var v := LeavesKids(kids, []);
    var z := WithoutRpm(x, v).(rc := rc);
    RpmFine(x, kids, []);
    PlainFine(x, v);
    StripLeaves(kids, []);
    FineAgain(WithoutRpm(x, v), z, PlainOf(v));
    StripAdmissible(x, z, kids, []);
    StartAlike(x, v);
    assert v + [] == v;
    BothKids(x, z, kids, [], PrepState(x.inodes, map[], x.store), PrepState(z.inodes, map[], z.store), []);
  }

  lemma FineAgain(y: Context, z: Context, w: seq<Leaf>)
    requires FilesFine(y, w) && z.c == y.c && z.inodes == y.inodes && z.store == y.store
    ensures FilesFine(z, w)
  {
    forall j | 0 <= j < |w| ensures AdmissibleFile(z, BaseName(w[j]), z.inodes[w[j].ino], w[j].path) {
      assert AdmissibleFile(y, BaseName(w[j]), y.inodes[w[j].ino], w[j].path);
    }
  }

  lemma RpmOnDisk(x: Context, z: Context, kids: seq<Kid>, g: GitConfig, s: Inos)
    requires RpmKids(x, kids, []) && Prepare(x, kids).PreparedKids? && !x.rc.quick && Sane(s)
    requires Grows(Prepare(x, kids).st.store, x.rc.store) && !z.rc.quick
    requires forall n :: n in x.inodes ==> n in z.inodes && z.inodes[n].kind == x.inodes[n].kind
    requires var q := Prepare(z, Strip(kids, []));
             q.PreparedKids? && SameLeft(Prune(Prepare(x, kids).left), q.left) && Grows(q.st.store, z.rc.store)
    ensures var r := Switch(g, [], Committed(x, kids), false, [], s);
            OnDisk(z, Strip(kids, []), r.kids, RestState(r.s.inodes, r.s.next, map[]))
  {
    var r := Switch(g, [], Committed(x, kids), false, [], s);
    RpmCheckout(x, kids, g, s);
    MatchSame(x, z, Prune(Prepare(x, kids).left), Prepare(z, Strip(kids, [])).left, r.kids, r.s.inodes);
    var w := InosKids(r.kids);
    forall j | 0 <= j < |w| ensures w[j] < r.s.next {
      assert w[j] in w && !FromDisk([], Prune(Prepare(x, kids).left), w[j]);
    }
  }

  /** What a full restore gives back of a tree, when that is the stripped one. */
  ghost predicate GivesStripped(x: Context, kids: seq<Kid>, o: Restored) {
    var t, z := Strip(kids, []), WithoutRpm(x, LeavesKids(kids, []));
    && o.Restored? && o.disk == [] && SameTree(x, t, o.out, o.rs.inodes)
    && Resolves(o.rs.done, LeavesKids(o.out, []))
    && Known(z, LeavesKids(t, [])) && (SameLinks(LeavesKids(t, []), LeavesKids(o.out, [])) <==> LinksSafe(z, LeavesKids(t, [])))
  }

  /** An image with RPM database files, committed and checked out into a new work tree. The
      full restore succeeds if and only if no directory is hollow, and gives the image
      without these files: names, types, contents, modes, times, empty directories, FIFOs
      and large files, and the hard links just when no group of the remaining names is at
      risk. */
  lemma RpmRestored(x: Context, kids: seq<Kid>, g: GitConfig, s: Inos)
    requires RpmKids(x, kids, []) && CountsOk(x, LeavesKids(kids, [])) && Prepare(x, kids).PreparedKids?
    requires !x.rc.quick && Sane(s) && Grows(Prepare(x, kids).st.store, x.rc.store)
    ensures var r := Switch(g, [], Committed(x, kids), false, [], s);
            var o := Restore(x, kids, r.kids, RestState(r.s.inodes, r.s.next, map[]));
            && (o.Restored? <==> !AnyHollow(Prepare(x, kids).fms, []))
            && (o.Restored? ==> GivesStripped(x, kids, o))
  {
    RpmRestore(x, kids, g, s);
    if !AnyHollow(Prepare(x, kids).fms, []) { StrippedBack(x, kids, g, s); }
  }

  lemma StrippedBack(x: Context, kids: seq<Kid>, g: GitConfig, s: Inos)
    requires RpmKids(x, kids, []) && CountsOk(x, LeavesKids(kids, [])) && Prepare(x, kids).PreparedKids?
    requires !x.rc.quick && Sane(s) && Grows(Prepare(x, kids).st.store, x.rc.store) && !AnyHollow(Prepare(x, kids).fms, [])
    ensures var r := Switch(g, [], Committed(x, kids), false, [], s);
            GivesStripped(x, kids, Restore(x, kids, r.kids, RestState(r.s.inodes, r.s.next, map[])))
  {
    var v, t, p := LeavesKids(kids, []), Strip(kids, []), Prepare(x, kids);
    var r := Switch(g, [], Committed(x, kids), false, [], s);
    var rs := RestState(r.s.inodes, r.s.next, map[]);
    BothWalks(x, kids, x.rc);
    var st := Adapted(x.rc.store, Prepare(WithoutRpm(x, v), t).st.store);
    var z := WithoutRpm(x, v).(rc := x.rc.(store := st));
    BothWalks(x, kids, z.rc);
    AdaptedAlike(x.rc.store, p.st.store, Prepare(z, t).st.store);
    RpmOnDisk(x, z, kids, g, s);
    RestoreDrop(x.rc, p.fms, [], r.kids, rs);
    RestoreAlike(x.rc, st, DropAll(p.fms, []), [], r.kids, rs);
    RoundTrip.RoundTrip(z, t, r.kids, rs);
    LinksRoundTrip(z, t, r.kids, rs);
    StrippedGives(x, kids, z, Restore(z, t, r.kids, rs));
  }

  lemma SafeEither(z: Context, rc: RestConfig, w: seq<Leaf>)
    requires Known(z, w)
    ensures Known(z.(rc := rc), w) && (LinksSafe(z.(rc := rc), w) <==> LinksSafe(z, w))
  {
    var y := z.(rc := rc);
    forall n | n in z.inodes ensures GroupAtRisk(y, w, n) <==> GroupAtRisk(z, w, n) {}
  }

  lemma TreeEither(x: Context, z: Context, t: seq<Kid>, o: seq<Kid>, inodes: map<nat, Inode>)
    requires SameTree(z, t, o, inodes) && z.rc.quick == x.rc.quick
    requires forall n :: n in z.inodes ==> n in x.inodes && SameFileIn(x.inodes[n], z.inodes[n])
    ensures SameTree(x, t, o, inodes)
  {
  }

  lemma StrippedGives(x: Context, kids: seq<Kid>, z: Context, o: Restored)
    requires z == WithoutRpm(x, LeavesKids(kids, [])).(rc := z.rc) && z.rc.quick == x.rc.quick
    requires var t := Strip(kids, []);
             && o.Restored? && o.disk == [] && SameTree(z, t, o.out, o.rs.inodes) && Resolves(o.rs.done, LeavesKids(o.out, []))
             && Known(z, LeavesKids(t, [])) && (SameLinks(LeavesKids(t, []), LeavesKids(o.out, [])) <==> LinksSafe(z, LeavesKids(t, [])))
    ensures GivesStripped(x, kids, o)
  {
    TreeEither(x, z, Strip(kids, []), o.out, o.rs.inodes);
    SafeEither(z, x.rc, LeavesKids(Strip(kids, []), []));
  }
}
