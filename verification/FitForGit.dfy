/**
  What preparing does to any tree at all, with devices, sockets and FIFOs: whatever it
  leaves on disk, Git can store.
 */
module FitForGit {
  import opened FileMetadata
  import opened RoundTrip

  ghost predicate SameKinds(a: map<nat, Inode>, b: map<nat, Inode>) {
    a.Keys == b.Keys && forall n :: n in a ==> b[n].kind == a[n].kind
  }

  /** Not `ch/git` nor below it, which preparing does not look at. */
  ghost predicate Outside(v: seq<Leaf>) { forall i :: 0 <= i < |v| ==> !(GIT_DIR <= v[i].path) }

  ghost predicate NoDevices(v: seq<Leaf>, inodes: map<nat, Inode>) {
    forall i :: 0 <= i < |v| ==> v[i].ino in inodes && !inodes[v[i].ino].kind.Dev?
  }

  ghost predicate Storable(w: seq<nat>, inodes: map<nat, Inode>) {
    forall i :: 0 <= i < |w| ==> w[i] in inodes && (inodes[w[i]].kind.Reg? || inodes[w[i]].kind.Lnk?)
  }

  ghost predicate Fit(v: seq<Leaf>, left: seq<Kid>, i0: map<nat, Inode>, i1: map<nat, Inode>) {
    SameKinds(i0, i1) && NoDevices(v, i0) && Storable(InosKids(left), i1)
  }

  lemma {:induction false} LeafInos(kid: Kid, path: Path)
    ensures |InosKid(kid)| == |LeavesKid(kid, path)|
    decreases kid.node, 1
  {
    if kid.node.Dir? { LeavesInos(kid.node.kids, path); }
  }

  lemma {:induction false} LeavesInos(kids: seq<Kid>, path: Path)
    ensures |InosKids(kids)| == |LeavesKids(kids, path)|
    decreases kids, 0
  {
    if kids != [] {
      var n := |kids| - 1;
      LeavesInos(kids[..n], path);
      LeafInos(kids[n], path + [kids[n].name]);
    }
  }

  lemma SomeUnder(kid: Kid, path: Path)
    ensures var v := LeavesKid(kid, path); v != [] ==> exists i :: 0 <= i < |v| && path <= v[i].path
  {
    LeavesKidUnder(kid, path);
    var v := LeavesKid(kid, path);
    if v != [] { assert path <= v[0].path; }
  }

  lemma FitJoin(v: seq<Leaf>, w: seq<Leaf>, a: seq<Kid>, b: seq<Kid>, i0: map<nat, Inode>, i1: map<nat, Inode>, i2: map<nat, Inode>)
    requires Fit(v, a, i0, i1) && Fit(w, b, i1, i2)
    ensures Fit(v + w, a + b, i0, i2)
  {
    InosSplit(a, b);
    var x, y := InosKids(a), InosKids(b);
    forall i | 0 <= i < |x + y| ensures (x + y)[i] in i2 && (i2[(x + y)[i]].kind.Reg? || i2[(x + y)[i]].kind.Lnk?) {
      assert (x + y)[i] == if i < |x| then x[i] else y[i - |x|];
    }
  }

  lemma InosOne(k: Kid)
    ensures InosKids([k]) == InosKid(k)
  {
    assert [k][..0] == [];
  }

  lemma FitFile(c: PrepConfig, name: Name, ino: nat, path: Path, st: PrepState)
    requires path != GIT_DIR && PrepFile(c, name, ino, path, st).Prepared?
    ensures var p := PrepFile(c, name, ino, path, st); Fit([Leaf(path, ino)], p.left, st.inodes, p.st.inodes)
  {
    var p, i := PrepFile(c, name, ino, path, st), st.inodes[ino];
    var widened := st.(inodes := st.inodes[ino := ChmodMin(i)]);
    if i.kind.Sock? || RpmDb(path) {
      assert InosKids(p.left) == [];
    } else {
      FitLink(c, Fm(name, KindOf(i.kind), ChmodMin(i).perm, i.mtime, Size(i.kind), [], false, None, None), ino, path, widened);
    }
  }

  /** A regular file, symbolic link or FIFO stays, or nothing does. */
  ghost predicate KeptOne(p: Prepared, ino: nat, st: PrepState)
    requires ino in st.inodes
  {
    && p.Prepared? && SameKinds(st.inodes, p.st.inodes)
    && (p.left == [] || (exists n :: p.left == [Kid(n, File(ino))] && !st.inodes[ino].kind.Fifo?))
  }

  lemma KeptStored(c: PrepConfig, fm: Fm, ino: nat, path: Path, st: PrepState)
    requires ino in st.inodes && PrepStored(c, fm, ino, path, st).Prepared?
    ensures KeptOne(PrepStored(c, fm, ino, path, st), ino, st)
  {
  }

  lemma KeptLink(c: PrepConfig, fm: Fm, ino: nat, path: Path, st: PrepState)
    requires ino in st.inodes && PrepLink(c, fm, ino, path, st).Prepared?
    ensures KeptOne(PrepLink(c, fm, ino, path, st), ino, st)
  {
    if st.inodes[ino].nlink <= 1 {
      KeptStored(c, fm, ino, path, st);
    } else if ino !in st.hardlinks {
      KeptStored(c, fm, ino, path, st.(hardlinks := st.hardlinks[ino := path]));
    }
  }

  lemma FitLink(c: PrepConfig, fm: Fm, ino: nat, path: Path, st: PrepState)
    requires ino in st.inodes && PrepLink(c, fm, ino, path, st).Prepared?
    requires !st.inodes[ino].kind.Dev? && !st.inodes[ino].kind.Sock?
    ensures var p := PrepLink(c, fm, ino, path, st); Fit([Leaf(path, ino)], p.left, st.inodes, p.st.inodes)
  {
    var p := PrepLink(c, fm, ino, path, st);
    KeptLink(c, fm, ino, path, st);
    if p.left != [] {
      InosOne(p.left[0]);
      assert p.left == [p.left[0]] && p.left[0].node == File(ino);
    }
  }

  lemma {:induction false} FitKid(c: PrepConfig, kid: Kid, path: Path, st: PrepState)
    requires Outside(LeavesKid(kid, path)) && PrepKid(c, kid, path, st).Prepared?
    ensures var p := PrepKid(c, kid, path, st); Fit(LeavesKid(kid, path), p.left, st.inodes, p.st.inodes)
    decreases kid.node, 1
  {
    var p := PrepKid(c, kid, path, st);
    match kid.node
    case File(ino) =>
      assert LeavesKid(kid, path)[0].path == path;
      FitFile(c, kid.name, ino, path, st);
    case Dir(_, _, kids) =>
      if path == GIT_DIR {
        InosOne(kid);
        SomeUnder(kid, path);
        assert p.left == [kid] && LeavesKid(kid, path) == [];
        LeafInos(kid, path);
      } else {
        FitForGit(c, kids, path, st);
        if p.left != [] {
          InosOne(p.left[0]);
          assert p.left == [p.left[0]];
        }
      }
  }

  lemma OutsideParts(v: seq<Leaf>, w: seq<Leaf>)
    requires Outside(v + w)
    ensures Outside(v) && Outside(w)
  {
    assert forall i :: 0 <= i < |v| ==> v[i] == (v + w)[i];
    assert forall i :: 0 <= i < |w| ==> w[i] == (v + w)[|v| + i];
  }

  lemma LastLeaves(kids: seq<Kid>, path: Path, init: seq<Kid>, last: Kid)
    requires kids != [] && init == kids[..|kids| - 1] && last == kids[|kids| - 1]
    ensures LeavesKids(kids, path) == LeavesKids(init, path) + LeavesKid(last, path + [last.name])
  {
  }

  lemma LastPrep(c: PrepConfig, kids: seq<Kid>, path: Path, st: PrepState, init: seq<Kid>, last: Kid)
    requires kids != [] && init == kids[..|kids| - 1] && last == kids[|kids| - 1]
    requires PrepKids(c, kids, path, st).PreparedKids?
    ensures var p1 := PrepKids(c, init, path, st);
            p1.PreparedKids? &&
            var p2, p := PrepKid(c, last, path + [last.name], p1.st), PrepKids(c, kids, path, st);
            p2.Prepared? && p.left == p1.left + p2.left && p.st == p2.st
  {
  }

  /** Whatever tree is prepared: if that succeeds, then it had no device files, and what is
      left on disk has only regular files and symbolic links, no sockets and no FIFOs. */
  lemma {:induction false} FitForGit(c: PrepConfig, kids: seq<Kid>, path: Path, st: PrepState)
    requires Outside(LeavesKids(kids, path)) && PrepKids(c, kids, path, st).PreparedKids?
    ensures var p := PrepKids(c, kids, path, st); Fit(LeavesKids(kids, path), p.left, st.inodes, p.st.inodes)
    decreases kids, 0
  {
    if kids != [] {
      var init, last := kids[..|kids| - 1], kids[|kids| - 1];
      var v, w := LeavesKids(init, path), LeavesKid(last, path + [last.name]);
      LastLeaves(kids, path, init, last);
      OutsideParts(v, w);
      LastPrep(c, kids, path, st, init, last);
      FitForGit(c, init, path, st);
      var p1 := PrepKids(c, init, path, st);
      FitKid(c, last, path + [last.name], p1.st);
      var p2 := PrepKid(c, last, path + [last.name], p1.st);
      FitJoin(v, w, p1.left, p2.left, st.inodes, p1.st.inodes, p2.st.inodes);
    }
  }

  // ---------------------------------------------------------------------------
  // Sockets

  ghost predicate AllSockets(kids: seq<Kid>, path: Path, inodes: map<nat, Inode>) {
    forall i :: 0 <= i < |kids| ==>
      kids[i].node.File? && path + [kids[i].name] != GIT_DIR &&
      kids[i].node.ino in inodes && inodes[kids[i].node.ino].kind.Sock?
  }

  ghost predicate AllIgnored(fms: seq<Fm>) {
    forall i :: 0 <= i < |fms| ==> fms[i].dontRestore && fms[i].Unstored()
  }

  lemma {:induction false} SocketKids(c: PrepConfig, kids: seq<Kid>, path: Path, st: PrepState)
    requires AllSockets(kids, path, st.inodes)
    ensures var p := PrepKids(c, kids, path, st);
            p.PreparedKids? && p.left == [] && |p.fms| == |kids| && AllIgnored(p.fms) && SameKinds(st.inodes, p.st.inodes)
  {
    if kids != [] { SocketKids(c, kids[..|kids| - 1], path, st); }
  }

  lemma {:induction false} IgnoredRestored(rc: RestConfig, fms: seq<Fm>, path: Path, disk: seq<Kid>, rs: RestState)
    requires AllIgnored(fms)
    ensures RestoreKids(rc, fms, path, disk, rs) == Restored([], disk, rs)
  {
    if fms != [] {
      assert fms[|fms| - 1].dontRestore;
      IgnoredRestored(rc, fms[..|fms| - 1], path, disk, rs);
    }
  }

  lemma RestoredEmpty(rc: RestConfig, fm: Fm, path: Path, rs: RestState)
    requires !fm.dontRestore && !RpmDb(path) && fm.kind.FDir?
    requires Locate(rc, fm, [], rs) == Found(Dir(rc.perm, rc.now, []), [], rs)
    requires RestoreKids(rc, fm.children, path, [], rs) == Restored([], [], rs)
    ensures RestoreKid(rc, fm, path, [], rs) == Restored([Kid(fm.name, Dir(fm.perm, fm.mtime, []))], [], rs)
  {
    var none: seq<Kid> := [];
    assert none + none == none;
  }

  /** A directory that holds sockets only: they are deleted, and unlike one of RPM database
      files it counts as empty, goes, and comes back empty, with its time and mode. */
  lemma SocketDirectory(c: PrepConfig, rc: RestConfig, kid: Kid, path: Path, st: PrepState, rs: RestState)
    requires kid.node.Dir? && path != GIT_DIR && !RpmDb(path) && AllSockets(kid.node.kids, path, st.inodes)
    ensures var p := PrepKid(c, kid, path, st);
            && p.Prepared? && p.left == []
            && RestoreKid(rc, p.fm, path, [], rs)
            == Restored([Kid(kid.name, Dir(MinDirPerm(kid.node.perm), kid.node.mtime, []))], [], rs)
  {
    SocketKids(c, kid.node.kids, path, st);
    var p := PrepKid(c, kid, path, st);
    var fm := p.fm;
    IgnoredRestored(rc, fm.children, path, [], rs);
    assert !Has([], fm.name) && SetsMetadata(rc, fm);
    assert Locate(rc, fm, [], rs) == Found(Dir(rc.perm, rc.now, []), [], rs);
    RestoredEmpty(rc, fm, path, rs);
  }
}
