/**
  What the record of a tree is, said file by file and without the walk, and when a walk
  of the restored tree gives the same record again. Commits that are given a list of
  changed files rely on the latter: they update the record that is held.
 */
module Records {
  import opened FileMetadata
  import opened RoundTrip

  // ---------------------------------------------------------------------------
  // Large files

  /** The large names in a record. */
  function LargesOf(fm: Fm): set<LargeName>
    decreases fm, 1
  {
    (if fm.largeName.Some? then {fm.largeName.value} else {}) + LargesIn(fm.children)
  }

  function LargesIn(fms: seq<Fm>): set<LargeName>
    decreases fms, 0
  {
    if fms == [] then {} else LargesIn(fms[..|fms| - 1]) + LargesOf(fms[|fms| - 1])
  }

  /** Preparing a tree puts exactly the large files into the store that its record names,
      and changes none that were there. */
  lemma {:induction false} LargesStoredKid(c: PrepConfig, kid: Kid, path: Path, st: PrepState)
    ensures var p := PrepKid(c, kid, path, st);
            p.Prepared? ==> p.st.store.Keys == st.store.Keys + LargesOf(p.fm) && Grows(st.store, p.st.store)
    decreases kid.node, 1
  {
    var p := PrepKid(c, kid, path, st);
    match kid.node
    case File(ino) =>
      if p.Prepared? { assert p.fm.children == [] && LargesIn([]) == {}; }
    case Dir(_, _, kids) =>
      LargesStored(c, kids, path, st);
      if p.Prepared? && path == GIT_DIR { assert LargesIn([]) == {}; }
  }

  lemma {:induction false} LargesStored(c: PrepConfig, kids: seq<Kid>, path: Path, st: PrepState)
    ensures var p := PrepKids(c, kids, path, st);
            p.PreparedKids? ==> p.st.store.Keys == st.store.Keys + LargesIn(p.fms) && Grows(st.store, p.st.store)
    decreases kids, 0
  {
    if kids != [] {
      var n := |kids| - 1;
      LargesStored(c, kids[..n], path, st);
      var p := PrepKids(c, kids[..n], path, st);
      if p.PreparedKids? {
        LargesStoredKid(c, kids[n], path + [kids[n].name], p.st);
        var q := PrepKid(c, kids[n], path + [kids[n].name], p.st);
        RecordsLength(c, kids[..n], path, st);
        if q.Prepared? { assert (p.fms + [q.fm])[..n] == p.fms; }
      }
    }
  }

  lemma {:induction false} RecordsLength(c: PrepConfig, kids: seq<Kid>, path: Path, st: PrepState)
    ensures var p := PrepKids(c, kids, path, st); p.PreparedKids? ==> |p.fms| == |kids|
    decreases |kids|
  {
    if kids != [] { RecordsLength(c, kids[..|kids| - 1], path, st); }
  }

  lemma WalkTracksLink(i0: map<nat, Inode>, c: PrepConfig, fm: Fm, ino: nat, path: Path, st: PrepState)
    requires Tracks(i0, st.inodes) && ino in st.inodes && PrepLink(c, fm, ino, path, st).Prepared?
    ensures Tracks(i0, PrepLink(c, fm, ino, path, st).st.inodes)
  {
    UnlinkTracks(i0, st, ino);
  }

  lemma WalkTracksFile(i0: map<nat, Inode>, c: PrepConfig, name: Name, ino: nat, path: Path, st: PrepState)
    requires Tracks(i0, st.inodes) && PrepFile(c, name, ino, path, st).Prepared?
    ensures Tracks(i0, PrepFile(c, name, ino, path, st).st.inodes)
  {
    if path != GIT_DIR {
      var i := ChmodMin(st.inodes[ino]);
      var st' := st.(inodes := st.inodes[ino := i]);
      assert Tracks(i0, st'.inodes);
      if i.kind.Sock? || RpmDb(path) {
        UnlinkTracks(i0, st', ino);
      } else {
        WalkTracksLink(i0, c, FileRecord(name, i), ino, path, st');
      }
    }
  }

  lemma {:induction false} WalkTracksKid(i0: map<nat, Inode>, c: PrepConfig, kid: Kid, path: Path, st: PrepState)
    requires Tracks(i0, st.inodes) && PrepKid(c, kid, path, st).Prepared?
    ensures Tracks(i0, PrepKid(c, kid, path, st).st.inodes)
    decreases kid.node, 1
  {
    match kid.node
    case File(ino) => WalkTracksFile(i0, c, kid.name, ino, path, st);
    case Dir(_, _, kids) => if path != GIT_DIR { WalkTracks(i0, c, kids, path, st); }
  }

  /** Whatever is walked, inodes change in permissions and link counts only. */
  lemma {:induction false} WalkTracks(i0: map<nat, Inode>, c: PrepConfig, kids: seq<Kid>, path: Path, st: PrepState)
    requires Tracks(i0, st.inodes) && PrepKids(c, kids, path, st).PreparedKids?
    ensures Tracks(i0, PrepKids(c, kids, path, st).st.inodes)
    decreases kids, 0
  {
    if kids != [] {
      var n := |kids| - 1;
      WalkTracks(i0, c, kids[..n], path, st);
      WalkTracksKid(i0, c, kids[n], path + [kids[n].name], PrepKids(c, kids[..n], path, st).st);
    }
  }

  // ---------------------------------------------------------------------------
  // The record, file by file

  /** The records of the files in a record, in the order of the walk. */
  function FlatFm(fm: Fm): seq<Fm>
    decreases fm, 1
  {
    if fm.kind.FDir? then Flat(fm.children) else [fm]
  }

  function Flat(fms: seq<Fm>): seq<Fm>
    decreases fms, 0
  {
    if fms == [] then [] else Flat(fms[..|fms| - 1]) + FlatFm(fms[|fms| - 1])
  }

  function BaseName(l: Leaf): Name
    requires l.path != []
  {
    l.path[|l.path| - 1]
  }

  /** The record of one file: a link to the first name, or a large file, or just that. */
  function RecordAt(x: Context, v: seq<Leaf>, j: nat): Fm
    requires Known(x, v) && j < |v|
  {
    var i, f := ChmodMin(x.inodes[v[j].ino]), Rep(x, v, j);
    assert f <= j by { FirstIsFirst(v, v[j].ino); }
    Fm(BaseName(v[j]), KindOf(i.kind), i.perm, i.mtime, Size(i.kind), [], false,
       if f != j then Some(v[f].path) else None,
       if f == j && IsLarge(x.c, BaseName(v[j]), i) then Some(LargeNameOf(i, v[j].path)) else None)
  }

  ghost function Recs(x: Context, v: seq<Leaf>, from: nat): seq<Fm>
    requires Known(x, v) && from <= |v|
  {
    seq(|v| - from, i requires 0 <= i < |v| - from => RecordAt(x, v, from + i))
  }

  /** Directories are recorded with their own attributes, files as files. */
  predicate DirsOf(kid: Kid, fm: Fm)
    decreases kid.node, 1
  {
    && fm.name == kid.name
    && match kid.node
       case File(_) => !fm.kind.FDir?
       case Dir(perm, mtime, kids) =>
         fm == Fm(kid.name, FDir, MinDirPerm(perm), mtime, 0, fm.children, false, None, None) && DirsIn(kids, fm.children)
  }

  predicate DirsIn(kids: seq<Kid>, fms: seq<Fm>)
    decreases kids, 0
  {
    |fms| == |kids| && forall i :: 0 <= i < |kids| ==> DirsOf(kids[i], fms[i])
  }

  /** The `hardlinks` dictionary has the paths of first links. */
  ghost predicate HardOk(v0: seq<Leaf>, st: PrepState) {
    forall n :: n in st.hardlinks ==> First(v0, n) < |v0| && st.hardlinks[n] == v0[First(v0, n)].path
  }

  lemma HardStep(v0: seq<Leaf>, l: Leaf, st: PrepState, st': PrepState)
    requires HardOk(v0, st)
    requires st'.hardlinks == st.hardlinks || (st'.hardlinks == st.hardlinks[l.ino := l.path] && First(v0, l.ino) == |v0|)
    ensures HardOk(v0 + [l], st')
  {
    forall n | n in st'.hardlinks
      ensures First(v0 + [l], n) < |v0 + [l]| && st'.hardlinks[n] == (v0 + [l])[First(v0 + [l], n)].path
    {
      Extend(v0, l, n);
    }
  }

  /** A file on which preparing succeeds. */
  ghost predicate RecReady(x: Context, name: Name, l: Leaf, st: PrepState, v0: seq<Leaf>, w: seq<nat>) {
    LeftReady(x, name, l, st, v0, w) && HardOk(v0, st)
  }

  lemma RecordLinked(x: Context, fm: Fm, l: Leaf, st: PrepState, v0: seq<Leaf>, w: seq<nat>)
    requires RecReady(x, fm.name, l, st, v0, w) && st.inodes[l.ino].nlink > 1 && l.ino in st.hardlinks
    ensures var f := Rep(x, v0 + [l], |v0|); f < |v0| && st.hardlinks[l.ino] == (v0 + [l])[f].path
    ensures HardOk(v0 + [l], Unlink(st, l.ino))
  {
    LinkedRep(x, v0, l, st);
    HardStep(v0, l, st, Unlink(st, l.ino));
  }

  lemma RecordFresh(x: Context, fm: Fm, l: Leaf, st: PrepState, v0: seq<Leaf>, w: seq<nat>)
    requires RecReady(x, fm.name, l, st, v0, w) && (st.inodes[l.ino].nlink > 1 ==> l.ino !in st.hardlinks)
    requires PrepLink(x.c, fm, l.ino, l.path, st).Prepared?
    ensures var p, i := PrepLink(x.c, fm, l.ino, l.path, st), st.inodes[l.ino];
            && Rep(x, v0 + [l], |v0|) == |v0| && HardOk(v0 + [l], p.st)
            && p.fm == if IsLarge(x.c, fm.name, i) then fm.(largeName := Some(LargeNameOf(i, l.path))) else fm
  {
    var p := PrepLink(x.c, fm, l.ino, l.path, st);
    FreshRep(x, v0, l, st);
    if st.inodes[l.ino].nlink > 1 { FreshFirst(x, v0, l, st); }
    FreshRecord(x.c, fm, l, st);
    HardStep(v0, l, st, p.st);
  }

  lemma FreshRecord(c: PrepConfig, fm: Fm, l: Leaf, st: PrepState)
    requires l.ino in st.inodes && (st.inodes[l.ino].nlink > 1 ==> l.ino !in st.hardlinks)
    requires PrepLink(c, fm, l.ino, l.path, st).Prepared?
    ensures var p, i := PrepLink(c, fm, l.ino, l.path, st), st.inodes[l.ino];
            && p.fm == (if IsLarge(c, fm.name, i) then fm.(largeName := Some(LargeNameOf(i, l.path))) else fm)
            && p.st.hardlinks == if i.nlink > 1 then st.hardlinks[l.ino := l.path] else st.hardlinks
  {
  }

  lemma FreshFirst(x: Context, v0: seq<Leaf>, l: Leaf, st: PrepState)
    requires KnownLeaf(x, l) && Known(x, v0) && Tracks(x.inodes, st.inodes) && NlinksOk(x, v0, st) && l.ino in st.inodes
    requires Count(v0, l.ino) < x.inodes[l.ino].nlink && l.ino !in st.hardlinks
    ensures First(v0, l.ino) == |v0|
  {
    assert NlinkOk(x, v0, st, l.ino);
    FirstIsFirst(v0, l.ino);
  }

  lemma RecordFile(x: Context, name: Name, l: Leaf, st: PrepState, v0: seq<Leaf>, w: seq<nat>)
    requires PrepJoint(x, v0, st, w) && KnownLeaf(x, l) && Known(x, v0 + [l]) && HardOk(v0, st)
    requires AdmissiblePath(l.path, name) && AdmissibleFile(x, name, x.inodes[l.ino], l.path)
    requires Count(v0, l.ino) < x.inodes[l.ino].nlink && Unvisited(v0, l.path)
    requires PrepFile(x.c, name, l.ino, l.path, st).Prepared?
    ensures var p := PrepFile(x.c, name, l.ino, l.path, st);
            p.fm == RecordAt(x, v0 + [l], |v0|) && HardOk(v0 + [l], p.st)
  {
    PrepChmod(x, v0, st, w, l.ino);
    var i := ChmodMin(st.inodes[l.ino]);
    var fm := FileRecord(name, i);
    var st' := st.(inodes := st.inodes[l.ino := i]);
    assert PrepFile(x.c, name, l.ino, l.path, st) == PrepLink(x.c, fm, l.ino, l.path, st');
    RecordLink(x, fm, l, st', v0, w);
  }

  lemma RecordLink(x: Context, fm: Fm, l: Leaf, st: PrepState, v0: seq<Leaf>, w: seq<nat>)
    requires RecReady(x, fm.name, l, st, v0, w) && PrepLink(x.c, fm, l.ino, l.path, st).Prepared?
    requires var i := st.inodes[l.ino]; fm == FileRecord(fm.name, i)
    ensures var p := PrepLink(x.c, fm, l.ino, l.path, st);
            p.fm == RecordAt(x, v0 + [l], |v0|) && HardOk(v0 + [l], p.st)
  {
    var i, k := st.inodes[l.ino], ChmodMin(x.inodes[l.ino]);
    assert i.perm == k.perm && i.mtime == k.mtime && i.kind == k.kind;
    if st.inodes[l.ino].nlink > 1 && l.ino in st.hardlinks {
      RecordLinked(x, fm, l, st, v0, w);
    } else {
      RecordFresh(x, fm, l, st, v0, w);
    }
  }

  lemma RecordStays(x: Context, v: seq<Leaf>, w: seq<Leaf>, j: nat)
    requires Known(x, v + w) && j < |v|
    ensures Known(x, v) && RecordAt(x, v + w, j) == RecordAt(x, v, j)
  {
    assert forall i :: 0 <= i < |v| ==> v[i] == (v + w)[i];
    RepStableAll(x, v, w, j);
    FirstIsFirst(v, v[j].ino);
  }

  lemma RecsSplit(x: Context, v: seq<Leaf>, w: seq<Leaf>, from: nat)
    requires Known(x, v + w) && from <= |v|
    ensures Known(x, v) && Recs(x, v + w, from) == Recs(x, v, from) + Recs(x, v + w, |v|)
  {
    assert forall i :: 0 <= i < |v| ==> v[i] == (v + w)[i];
    forall i | 0 <= i < |v| - from ensures Recs(x, v + w, from)[i] == Recs(x, v, from)[i] {
      RecordStays(x, v, w, from + i);
    }
  }

  lemma FlatSnoc(fms: seq<Fm>, fm: Fm)
    ensures Flat(fms + [fm]) == Flat(fms) + FlatFm(fm)
  {
    assert (fms + [fm])[..|fms|] == fms;
  }

  ghost predicate RecordedKid(x: Context, kid: Kid, path: Path, p: Prepared, v0: seq<Leaf>) {
    var v := v0 + LeavesKid(kid, path);
    p.Prepared? && Known(x, v) && DirsOf(kid, p.fm) && HardOk(v, p.st) && FlatFm(p.fm) == Recs(x, v, |v0|)
  }

  ghost predicate RecordedKids(x: Context, kids: seq<Kid>, path: Path, p: PreparedKids, v0: seq<Leaf>) {
    var v := v0 + LeavesKids(kids, path);
    p.PreparedKids? && Known(x, v) && DirsIn(kids, p.fms) && HardOk(v, p.st) && Flat(p.fms) == Recs(x, v, |v0|)
  }

  lemma {:induction false} RecordKid(x: Context, kid: Kid, path: Path, st: PrepState, v0: seq<Leaf>, w: seq<nat>)
    requires PrepJoint(x, v0, st, w) && AdmissibleKid(x, kid, path) && HardOk(v0, st)
    requires CountsOk(x, v0 + LeavesKid(kid, path)) && Unvisited(v0, path)
    requires PrepKid(x.c, kid, path, st).Prepared?
    ensures RecordedKid(x, kid, path, PrepKid(x.c, kid, path, st), v0)
    decreases kid.node, 1
  {
    match kid.node
    case File(ino) =>
      RecordOfFile(x, kid, path, st, v0, w);
    case Dir(_, _, kids) =>
      assert path != GIT_DIR && PrepKids(x.c, kids, path, st).PreparedKids?;
      RecordKids(x, kids, path, st, v0, w);
      RecordedDir(x, kid, path, PrepKids(x.c, kids, path, st), PrepKid(x.c, kid, path, st), v0);
  }

  lemma RecordOfFile(x: Context, kid: Kid, path: Path, st: PrepState, v0: seq<Leaf>, w: seq<nat>)
    requires PrepJoint(x, v0, st, w) && AdmissibleKid(x, kid, path) && HardOk(v0, st) && kid.node.File?
    requires CountsOk(x, v0 + LeavesKid(kid, path)) && Unvisited(v0, path)
    requires PrepKid(x.c, kid, path, st).Prepared?
    ensures RecordedKid(x, kid, path, PrepKid(x.c, kid, path, st), v0)
  {
    var l := Leaf(path, kid.node.ino);
    Extend(v0, l, l.ino);
    RecordFile(x, kid.name, l, st, v0, w);
    RecordedFile(x, kid, PrepKid(x.c, kid, path, st), v0, l);
  }

  lemma RecordedDir(x: Context, kid: Kid, path: Path, ps: PreparedKids, p: Prepared, v0: seq<Leaf>)
    requires kid.node.Dir? && p.Prepared? && RecordedKids(x, kid.node.kids, path, ps, v0)
    requires p.fm == Fm(kid.name, FDir, MinDirPerm(kid.node.perm), kid.node.mtime, 0, ps.fms, false, None, None)
    requires p.st == ps.st
    ensures RecordedKid(x, kid, path, p, v0)
  {
  }

  lemma RecordedFile(x: Context, kid: Kid, p: Prepared, v0: seq<Leaf>, l: Leaf)
    requires kid.node == File(l.ino) && p.Prepared? && Known(x, v0) && KnownLeaf(x, l) && BaseName(l) == kid.name
    requires Known(x, v0 + [l]) && p.fm == RecordAt(x, v0 + [l], |v0|) && HardOk(v0 + [l], p.st)
    ensures RecordedKid(x, kid, l.path, p, v0)
  {
    assert Recs(x, v0 + [l], |v0|) == [RecordAt(x, v0 + [l], |v0|)];
  }

  /** The entries but the last one have been recorded in `v1`, `p1`; the last is next. */
  ghost predicate LastToRecord(
      x: Context, kids: seq<Kid>, path: Path, st: PrepState, v1: seq<Leaf>, w1: seq<nat>, p1: PreparedKids)
    requires kids != []
  {
    var n, own := |kids| - 1, path + [kids[|kids| - 1].name];
    && p1.PreparedKids? && p1 == PrepKids(x.c, kids[..n], path, st)
    && PrepJoint(x, v1, p1.st, w1) && AdmissibleKid(x, kids[n], own)
    && CountsOk(x, v1 + LeavesKid(kids[n], own)) && Unvisited(v1, own)
    && PrepKid(x.c, kids[n], own, p1.st).Prepared?
  }

  lemma InitToRecord(x: Context, kids: seq<Kid>, path: Path, st: PrepState, v0: seq<Leaf>, w: seq<nat>)
    requires kids != [] && PrepJoint(x, v0, st, w) && AdmissibleKids(x, kids, path)
    requires CountsOk(x, v0 + LeavesKids(kids, path)) && Unvisited(v0, path)
    requires PrepKids(x.c, kids, path, st).PreparedKids?
    ensures var init := kids[..|kids| - 1];
            var p1 := PrepKids(x.c, init, path, st);
            && AdmissibleKids(x, init, path) && CountsOk(x, v0 + LeavesKids(init, path))
            && p1.PreparedKids? && LastToRecord(x, kids, path, st, v0 + LeavesKids(init, path), w + InosKids(p1.left), p1)
  {
    var n := |kids| - 1;
    LastCounts(x, kids, path, v0);
    CountsPrefix(x, v0 + LeavesKids(kids[..n], path), LeavesKid(kids[n], path + [kids[n].name]));
    AdmissibleInit(x, kids, path);
    PrepSnoc(x, kids, path, st);
    LeftKids(x, kids[..n], path, st, v0, w);
    LastUnvisited(kids, path, v0);
  }

  lemma {:induction false} RecordKids(x: Context, kids: seq<Kid>, path: Path, st: PrepState, v0: seq<Leaf>, w: seq<nat>)
    requires PrepJoint(x, v0, st, w) && AdmissibleKids(x, kids, path) && HardOk(v0, st)
    requires CountsOk(x, v0 + LeavesKids(kids, path)) && Unvisited(v0, path)
    requires PrepKids(x.c, kids, path, st).PreparedKids?
    ensures RecordedKids(x, kids, path, PrepKids(x.c, kids, path, st), v0)
    decreases kids, 0
  {
    if kids == [] {
      assert v0 + [] == v0;
    } else {
      var n, own := |kids| - 1, path + [kids[|kids| - 1].name];
      InitToRecord(x, kids, path, st, v0, w);
      var p1 := PrepKids(x.c, kids[..n], path, st);
      RecordKids(x, kids[..n], path, st, v0, w);
      RecordKid(x, kids[n], own, p1.st, v0 + LeavesKids(kids[..n], path), w + InosKids(p1.left));
      PrepSnoc(x, kids, path, st);
      RecordBoth(x, kids, path, p1, PrepKid(x.c, kids[n], own, p1.st), PrepKids(x.c, kids, path, st), v0);
    }
  }

  lemma RecordBoth(x: Context, kids: seq<Kid>, path: Path, p1: PreparedKids, p2: Prepared, p: PreparedKids, v0: seq<Leaf>)
    requires kids != [] && RecordedKids(x, kids[..|kids| - 1], path, p1, v0)
    requires var n := |kids| - 1;
             RecordedKid(x, kids[n], path + [kids[n].name], p2, v0 + LeavesKids(kids[..n], path))
    requires p.PreparedKids? && p.fms == p1.fms + [p2.fm] && p.st == p2.st
    ensures RecordedKids(x, kids, path, p, v0)
  {
    var n := |kids| - 1;
    var v1, w := v0 + LeavesKids(kids[..n], path), LeavesKid(kids[n], path + [kids[n].name]);
    assert v0 + LeavesKids(kids, path) == v1 + w;
    FlatSnoc(p1.fms, p2.fm);
    RecsSplit(x, v1, w, |v0|);
  }

  /** The record of an admissible tree, file by file. */
  lemma RecordIs(x: Context, kids: seq<Kid>)
    requires Admissible(x, kids) && Prepare(x, kids).PreparedKids?
    ensures var v, fms := LeavesKids(kids, []), Prepare(x, kids).fms;
            && Known(x, v) && DirsIn(kids, fms) && |Flat(fms)| == |v|
            && forall j :: 0 <= j < |v| ==> Flat(fms)[j] == RecordAt(x, v, j)
  {
    var st, v := PrepState(x.inodes, map[], x.store), LeavesKids(kids, []);
    assert [] + v == v;
    assert PrepJoint(x, [], st, []) by {
      forall n | n in x.inodes ensures NlinkOk(x, [], st, n) {}
    }
    RecordKids(x, kids, [], st, [], []);
    assert Flat(Prepare(x, kids).fms) == Recs(x, v, 0);
  }

  // ---------------------------------------------------------------------------
  // A record is determined by its directories and its files

  lemma {:induction false} FlatLength(kids: seq<Kid>, fms: seq<Fm>, path: Path)
    requires DirsIn(kids, fms)
    ensures |Flat(fms)| == |LeavesKids(kids, path)|
    decreases kids, 0
  {
    if kids != [] {
      var n := |kids| - 1;
      FlatLength(kids[..n], fms[..n], path);
      FlatLengthFm(kids[n], fms[n], path + [kids[n].name]);
    }
  }

  lemma {:induction false} FlatLengthFm(kid: Kid, fm: Fm, path: Path)
    requires DirsOf(kid, fm)
    ensures |FlatFm(fm)| == |LeavesKid(kid, path)|
    decreases kid.node, 1
  {
    if kid.node.Dir? { FlatLength(kid.node.kids, fm.children, path); }
  }

  lemma SameParts(a: seq<Fm>, b: seq<Fm>, c: seq<Fm>, d: seq<Fm>)
    requires |a| == |c| && a + b == c + d
    ensures a == c && b == d
  {
    assert a == (a + b)[..|a|] && c == (c + d)[..|c|];
    assert b == (a + b)[|a|..] && d == (c + d)[|c|..];
  }

  lemma {:induction false} Determined(a: seq<Kid>, b: seq<Kid>, f: seq<Fm>, g: seq<Fm>, path: Path)
    requires SameKids(a, b) && DirsIn(a, f) && DirsIn(b, g) && Flat(f) == Flat(g)
    ensures f == g
    decreases a, 0
  {
    if a != [] {
      var n := |a| - 1;
      FlatLength(a[..n], f[..n], path);
      FlatLength(b[..n], g[..n], path);
      SameLength(a[..n], b[..n], path);
      SameParts(Flat(f[..n]), FlatFm(f[n]), Flat(g[..n]), FlatFm(g[n]));
      Determined(a[..n], b[..n], f[..n], g[..n], path);
      DeterminedFm(a[n], b[n], f[n], g[n], path);
      assert f == f[..n] + [f[n]] && g == g[..n] + [g[n]];
    }
  }

  lemma {:induction false} DeterminedFm(a: Kid, b: Kid, f: Fm, g: Fm, path: Path)
    requires SameKid(a, b) && DirsOf(a, f) && DirsOf(b, g) && FlatFm(f) == FlatFm(g)
    ensures f == g
    decreases a.node, 1
  {
    if a.node.Dir? { Determined(a.node.kids, b.node.kids, f.children, g.children, path); }
  }

  lemma {:induction false} SameLength(a: seq<Kid>, b: seq<Kid>, path: Path)
    requires SameKids(a, b)
    ensures |LeavesKids(a, path)| == |LeavesKids(b, path)|
    decreases a, 0
  {
    if a != [] {
      var n := |a| - 1;
      SameLength(a[..n], b[..n], path);
      SameLengthKid(a[n], b[n], path + [a[n].name]);
    }
  }

  lemma {:induction false} SameLengthKid(a: Kid, b: Kid, path: Path)
    requires SameKid(a, b)
    ensures |LeavesKid(a, path)| == |LeavesKid(b, path)|
    decreases a.node, 1
  {
    if a.node.Dir? { SameLength(a.node.kids, b.node.kids, path); }
  }

  // ---------------------------------------------------------------------------
  // A second walk, of the restored tree

  /** The restored files `w` in context `y` are the files `v` in context `x`: same paths,
      same files, names shared as recorded. What was moved away is in the store. */
  ghost predicate Redone(x: Context, v: seq<Leaf>, y: Context, w: seq<Leaf>) {
    && Known(x, v) && Known(y, w) && |w| == |v| && y.c.threshold == x.c.threshold
    && (forall i :: 0 <= i < |v| ==> w[i].path == v[i].path)
    && (forall i :: 0 <= i < |v| ==> Same(x.rc.quick, x.inodes[v[i].ino], y.inodes[w[i].ino]))
    && Share(Reps(x, v), w)
    && (forall n {:trigger Counted(x, v, y, w, n)} :: Counted(x, v, y, w, n))
    && (forall f {:trigger Filed(x, v, y, f)} :: 0 <= f < |v| && Rep(x, v, f) == f ==> Filed(x, v, y, f))
  }

  /** The link count of a restored file. */
  ghost predicate Counted(x: Context, v: seq<Leaf>, y: Context, w: seq<Leaf>, n: nat)
    requires |w| == |v| && Known(x, v)
  {
    var f := First(w, n);
    Count(w, n) > 0 ==>
      && f < |w| && n in y.inodes && Count(w, n) <= y.inodes[n].nlink
      && (Special(x, v[f]) ==> Count(w, n) == y.inodes[n].nlink)
  }

  /** A file that went to the store is there. */
  ghost predicate Filed(x: Context, v: seq<Leaf>, y: Context, f: nat)
    requires Known(x, v) && f < |v|
  {
    var i := x.inodes[v[f].ino];
    IsLarge(x.c, BaseName(v[f]), i) ==> LargeNameOf(ChmodMin(i), v[f].path) in y.store
  }

  lemma RepOfRep(x: Context, v: seq<Leaf>, j: nat)
    requires Known(x, v) && j < |v|
    ensures var f := Rep(x, v, j); f <= j && Rep(x, v, f) == f
  {
    FirstIsFirst(v, v[j].ino);
  }

  lemma {:induction false} FirstMeans(v: seq<Leaf>, n: nat, f: nat)
    requires f < |v| && v[f].ino == n && forall i :: 0 <= i < f ==> v[i].ino != n
    ensures First(v, n) == f
  {
    FirstIsFirst(v, n);
  }

  /** In the restored tree, the first name of a file is its representative. */
  lemma FirstIsRep(x: Context, v: seq<Leaf>, y: Context, w: seq<Leaf>, j: nat)
    requires Redone(x, v, y, w) && j < |v|
    ensures First(w, w[j].ino) == Rep(x, v, j) <= j
  {
    var f := Rep(x, v, j);
    RepOfRep(x, v, j);
    assert Reps(x, v)[f] == Reps(x, v)[j];
    forall i | 0 <= i < f ensures w[i].ino != w[j].ino {
      RepOfRep(x, v, i);
      assert Reps(x, v)[i] == Rep(x, v, i);
    }
    FirstMeans(w, w[j].ino, f);
  }

  /** The second walk deletes exactly the first links that the first one deleted or moved. */
  lemma DeletesAgain(x: Context, v: seq<Leaf>, y: Context, w: seq<Leaf>, f: nat)
    requires Redone(x, v, y, w) && f < |v| && Rep(x, v, f) == f
    ensures Deletes(y, w[f]) <==> Special(x, v[f])
  {
    assert Filed(x, v, y, f);
    var i0, i1 := x.inodes[v[f].ino], y.inodes[w[f].ino];
    assert Same(x.rc.quick, i0, i1);
    if IsLarge(x.c, BaseName(v[f]), i0) {
      assert LargeNameOf(ChmodMin(i1), w[f].path) == LargeNameOf(ChmodMin(i0), v[f].path);
    }
  }

  /** No link leads to a FIFO or a large file. */
  ghost predicate LinksPlain(x: Context, v: seq<Leaf>)
    requires Known(x, v)
  {
    forall j {:trigger Rep(x, v, j)} :: 0 <= j < |v| ==> PlainLink(x, v, j)
  }

  ghost predicate PlainLink(x: Context, v: seq<Leaf>, j: nat)
    requires Known(x, v) && j < |v|
  {
    var f := Rep(x, v, j);
    assert f <= j by { RepOfRep(x, v, j); }
    f != j ==> !Special(x, v[f])
  }

  lemma SafeAgain(x: Context, v: seq<Leaf>, y: Context, w: seq<Leaf>, n: nat)
    requires Redone(x, v, y, w) && LinksPlain(x, v) && n in y.inodes
    ensures !GroupAtRisk(y, w, n)
  {
    FirstIsFirst(w, n);
    var f := First(w, n);
    if Count(w, n) >= 2 {
      var j := SecondName(w, n);
      FirstIsRep(x, v, y, w, j);
      RepOfRep(x, v, j);
      assert PlainLink(x, v, j);
      DeletesAgain(x, v, y, w, f);
    }
  }

  /** A second name. */
  lemma SecondName(w: seq<Leaf>, n: nat) returns (j: nat)
    requires Count(w, n) >= 2
    ensures First(w, n) < j < |w| && w[j].ino == n
  {
    j := LastName(w, n);
    OnlyOne(w[..j + 1], n);
    FirstOfPrefix(w, j + 1, n);
  }

  lemma RiskAgain(x: Context, v: seq<Leaf>, y: Context, w: seq<Leaf>, j: nat)
    requires Redone(x, v, y, w) && j < |v| && !PlainLink(x, v, j)
    ensures GroupAtRisk(y, w, w[j].ino)
  {
    var n, f := w[j].ino, Rep(x, v, j);
    FirstIsRep(x, v, y, w, j);
    RepOfRep(x, v, j);
    DeletesAgain(x, v, y, w, f);
    TwoCounted(w, f, j);
    assert Counted(x, v, y, w, n);
  }

  lemma {:induction false} TwoCounted(v: seq<Leaf>, f: nat, j: nat)
    requires f < j < |v| && v[f].ino == v[j].ino
    ensures Count(v, v[j].ino) >= 2
  {
    var m := |v| - 1;
    if j < m { TwoCounted(v[..m], f, j); } else { CountOwned(v[..m], f); }
  }

  /** A group is at risk in the second walk exactly if a link leads to a FIFO or a large
      file. */
  lemma SafeExactly(x: Context, v: seq<Leaf>, y: Context, w: seq<Leaf>)
    requires Redone(x, v, y, w)
    ensures LinksSafe(y, w) <==> LinksPlain(x, v)
  {
    if LinksPlain(x, v) {
      forall n | n in y.inodes ensures !GroupAtRisk(y, w, n) { SafeAgain(x, v, y, w, n); }
    } else {
      var j :| 0 <= j < |v| && !PlainLink(x, v, j);
      RiskAgain(x, v, y, w, j);
    }
  }

  // ---------------------------------------------------------------------------
  // The same record again

  /** A symbolic link has kept what restoring does not set. */
  predicate LinkKept(i0: Inode, i1: Inode) { i0.kind.Lnk? ==> i1.perm == i0.perm && i1.mtime == i0.mtime }

  ghost predicate SymlinksKept(x: Context, v: seq<Leaf>, y: Context, w: seq<Leaf>)
    requires Known(x, v) && Known(y, w) && |v| == |w|
  {
    forall j :: 0 <= j < |v| ==> LinkKept(x.inodes[v[j].ino], y.inodes[w[j].ino])
  }

  lemma RecordAgain(x: Context, v: seq<Leaf>, y: Context, w: seq<Leaf>, j: nat)
    requires Redone(x, v, y, w) && j < |v|
    ensures RecordAt(y, w, j) == RecordAt(x, v, j) <==>
              !Lost(y, w, j) && LinkKept(x.inodes[v[j].ino], y.inodes[w[j].ino])
  {
    FirstIsRep(x, v, y, w, j);
    RepOfRep(x, v, j);
    assert Same(x.rc.quick, x.inodes[v[j].ino], y.inodes[w[j].ino]);
  }

  lemma RiskLost(x: Context, v: seq<Leaf>, n: nat) returns (j: nat)
    requires Known(x, v) && n in x.inodes && GroupAtRisk(x, v, n)
    ensures j < |v| && Lost(x, v, j)
  {
    j := LastName(v, n);
    OnlyOne(v[..j + 1], n);
    FirstOfPrefix(v, j + 1, n);
  }

  lemma CountsAgain(x: Context, v: seq<Leaf>, y: Context, w: seq<Leaf>)
    requires Redone(x, v, y, w)
    ensures CountsOk(y, w)
  {
    forall n | n in y.inodes ensures Count(w, n) <= y.inodes[n].nlink { assert Counted(x, v, y, w, n); }
  }

  ghost predicate SameRecords(x: Context, v: seq<Leaf>, y: Context, w: seq<Leaf>)
    requires Known(x, v) && Known(y, w) && |v| == |w|
  {
    forall j :: 0 <= j < |v| ==> RecordAt(y, w, j) == RecordAt(x, v, j)
  }

  lemma RecordsAgain(x: Context, v: seq<Leaf>, y: Context, w: seq<Leaf>)
    requires Redone(x, v, y, w)
    ensures SameRecords(x, v, y, w) <==> LinksPlain(x, v) && SymlinksKept(x, v, y, w)
  {
    SafeExactly(x, v, y, w);
    CountsAgain(x, v, y, w);
    forall j | 0 <= j < |v|
      ensures RecordAt(y, w, j) == RecordAt(x, v, j) <==>
                !Lost(y, w, j) && LinkKept(x.inodes[v[j].ino], y.inodes[w[j].ino])
      ensures LinksPlain(x, v) ==> !Lost(y, w, j)
    {
      RecordAgain(x, v, y, w, j);
      if LinksPlain(x, v) { NotLost(y, w, j); }
    }
    if !LinksPlain(x, v) {
      var n :| n in y.inodes && GroupAtRisk(y, w, n);
      var j := RiskLost(y, w, n);
    }
  }

  // ---------------------------------------------------------------------------
  // What the second walk does otherwise

  /** Leaf `j` is recorded as a link to a FIFO or a large file, and no later one is. */
  ghost predicate LastLink(x: Context, v: seq<Leaf>, j: nat)
    requires Known(x, v) && j < |v|
  {
    var f := Rep(x, v, j);
    assert f <= j by { RepOfRep(x, v, j); }
    f != j && Special(x, v[f]) && forall k {:trigger Rep(x, v, k)} :: j < k < |v| ==> Rep(x, v, k) != f
  }

  lemma {:induction false} NoneAfter(v: seq<Leaf>, m: nat, n: nat)
    requires m <= |v|
    ensures Count(v[..m], n) == Count(v, n) <==> forall k :: m <= k < |v| ==> v[k].ino != n
  {
    if m == |v| {
      assert v[..m] == v;
    } else {
      var u := v[..|v| - 1];
      NoneAfter(u, m, n);
      CountPrefix(u, m, n);
      assert u[..m] == v[..m];
      assert forall k :: m <= k < |u| ==> u[k] == v[k];
    }
  }

  lemma SameRep(x: Context, v: seq<Leaf>, y: Context, w: seq<Leaf>, i: nat, j: nat)
    requires Redone(x, v, y, w) && i < |v| && j < |v|
    ensures w[i].ino == w[j].ino <==> Rep(x, v, i) == Rep(x, v, j)
  {
    assert Reps(x, v)[i] == Rep(x, v, i) && Reps(x, v)[j] == Rep(x, v, j);
  }

  lemma NoLaterLink(x: Context, v: seq<Leaf>, y: Context, w: seq<Leaf>, j: nat)
    requires Redone(x, v, y, w) && j < |v|
    ensures (forall k {:trigger Rep(x, v, k)} :: j < k < |v| ==> Rep(x, v, k) != Rep(x, v, j))
       <==> Count(w[..j + 1], w[j].ino) == Count(w, w[j].ino)
  {
    forall k | j < k < |v| ensures w[k].ino == w[j].ino <==> Rep(x, v, k) == Rep(x, v, j) { SameRep(x, v, y, w, k, j); }
    NoneAfter(w, j + 1, w[j].ino);
  }

  /** The second walk loses exactly the last links to FIFOs and large files. */
  lemma LostAgain(x: Context, v: seq<Leaf>, y: Context, w: seq<Leaf>, j: nat)
    requires Redone(x, v, y, w) && j < |v|
    ensures Lost(y, w, j) <==> LastLink(x, v, j)
  {
    var n, f := w[j].ino, Rep(x, v, j);
    FirstIsRep(x, v, y, w, j);
    RepOfRep(x, v, j);
    DeletesAgain(x, v, y, w, f);
    NoLaterLink(x, v, y, w, j);
    CountOwned(w, j);
    assert Counted(x, v, y, w, n);
  }

  lemma RepAgain(x: Context, v: seq<Leaf>, y: Context, w: seq<Leaf>, j: nat)
    requires Redone(x, v, y, w) && j < |v|
    ensures Rep(y, w, j) == if LastLink(x, v, j) then j else Rep(x, v, j)
  {
    LostAgain(x, v, y, w, j);
    FirstIsRep(x, v, y, w, j);
  }

  /** The last link to a large file, with a name special to Git: it is no longer a link, so
      it is moved away, and then cannot be renamed. */
  ghost predicate BlockedLink(x: Context, v: seq<Leaf>, j: nat)
    requires Known(x, v) && j < |v|
  {
    LastLink(x, v, j) && IsLarge(x.c, BaseName(v[j]), x.inodes[v[j].ino]) && !GitCompatible(BaseName(v[j]))
  }

  lemma BlockedAgain(x: Context, v: seq<Leaf>, y: Context, w: seq<Leaf>, j: nat)
    requires Redone(x, v, y, w) && j < |v| && !Blocked(x, v, j)
    ensures Blocked(y, w, j) <==> BlockedLink(x, v, j)
  {
    RepAgain(x, v, y, w, j);
    RepOfRep(x, v, j);
    assert Same(x.rc.quick, x.inodes[v[j].ino], y.inodes[w[j].ino]);
  }

  /** What was not blocked before is not blocked now. */
  lemma ClearAgain(x: Context, v: seq<Leaf>, y: Context, w: seq<Leaf>)
    requires Redone(x, v, y, w) && LinksPlain(x, v) && forall j :: 0 <= j < |v| ==> !Blocked(x, v, j)
    ensures forall j :: 0 <= j < |v| ==> !Blocked(y, w, j)
  {
    SafeExactly(x, v, y, w);
    CountsAgain(x, v, y, w);
    forall j | 0 <= j < |v| ensures !Blocked(y, w, j) {
      NotLost(y, w, j);
      FirstIsRep(x, v, y, w, j);
      assert Same(x.rc.quick, x.inodes[v[j].ino], y.inodes[w[j].ino]) && !Blocked(x, v, j);
    }
  }

  /** Large file names determine content, for the files of the restored tree. */
  ghost predicate AllAgree(y: Context, w: seq<Leaf>)
    requires Known(y, w)
  {
    forall j :: 0 <= j < |w| ==>
      IsLarge(y.c, BaseName(w[j]), y.inodes[w[j].ino]) ==> StoreAgrees(y.store, y.inodes[w[j].ino], w[j].path)
  }

  ghost predicate FilesFine(y: Context, w: seq<Leaf>) {
    forall j :: 0 <= j < |w| ==>
      KnownLeaf(y, w[j]) && AdmissibleFile(y, BaseName(w[j]), y.inodes[w[j].ino], w[j].path)
  }

  lemma {:induction false} AdmissibleAgainKid(x: Context, a: Kid, y: Context, b: Kid, path: Path)
    requires AdmissibleKid(x, a, path) && SameKid(a, b) && FilesFine(y, LeavesKid(b, path))
    ensures AdmissibleKid(y, b, path)
    decreases a.node, 1
  {
    match a.node
    case File(_) => assert LeavesKid(b, path)[0] == Leaf(path, b.node.ino);
    case Dir(_, _, kids) => AdmissibleAgain(x, kids, y, b.node.kids, path);
  }

  lemma {:induction false} AdmissibleAgain(x: Context, a: seq<Kid>, y: Context, b: seq<Kid>, path: Path)
    requires AdmissibleKids(x, a, path) && SameKids(a, b) && FilesFine(y, LeavesKids(b, path))
    ensures AdmissibleKids(y, b, path)
    decreases a, 0
  {
    forall i | 0 <= i < |b| ensures AdmissibleKid(y, b[i], path + [b[i].name]) {
      FineMember(y, b, path, i);
      AdmissibleAgainKid(x, a[i], y, b[i], path + [b[i].name]);
    }
  }

  lemma {:induction false} FineMember(y: Context, b: seq<Kid>, path: Path, i: nat)
    requires i < |b| && FilesFine(y, LeavesKids(b, path))
    ensures FilesFine(y, LeavesKid(b[i], path + [b[i].name]))
  {
    var m := |b| - 1;
    var u, t := LeavesKids(b[..m], path), LeavesKid(b[m], path + [b[m].name]);
    assert LeavesKids(b, path) == u + t;
    if i < m {
      assert forall k :: 0 <= k < |u| ==> u[k] == (u + t)[k];
      FineMember(y, b[..m], path, i);
    } else {
      assert forall k :: 0 <= k < |t| ==> t[k] == (u + t)[|u| + k];
    }
  }

  /** What went to the store in the first walk is there. */
  lemma FiledAll(x: Context, kids: seq<Kid>, y: Context, f: nat)
    requires Admissible(x, kids) && Prepare(x, kids).PreparedKids? && Grows(Prepare(x, kids).st.store, y.store)
    requires Known(x, LeavesKids(kids, [])) && f < |LeavesKids(kids, [])| && Rep(x, LeavesKids(kids, []), f) == f
    ensures Filed(x, LeavesKids(kids, []), y, f)
  {
    var v, p := LeavesKids(kids, []), Prepare(x, kids);
    RecordIs(x, kids);
    LargesStored(x.c, kids, [], PrepState(x.inodes, map[], x.store));
    FlatLarges(p.fms, f);
    assert Flat(p.fms)[f] == RecordAt(x, v, f);
  }

  lemma {:induction false} FlatLarges(fms: seq<Fm>, j: nat)
    requires j < |Flat(fms)|
    ensures Flat(fms)[j].largeName.Some? ==> Flat(fms)[j].largeName.value in LargesIn(fms)
    decreases fms, 0
  {
    var n := |fms| - 1;
    var k := |Flat(fms[..n])|;
    if j < k { FlatLarges(fms[..n], j); } else { FlatLargesFm(fms[n], j - k); }
  }

  lemma {:induction false} FlatLargesFm(fm: Fm, j: nat)
    requires j < |FlatFm(fm)|
    ensures FlatFm(fm)[j].largeName.Some? ==> FlatFm(fm)[j].largeName.value in LargesOf(fm)
    decreases fm, 1
  {
    if fm.kind.FDir? { FlatLarges(fm.children, j); }
  }

  /** `y` is the context of the next walk: the restored inodes, and a store that has kept
      what it had. */
  ghost predicate Next(x: Context, kids: seq<Kid>, disk: seq<Kid>, rs: RestState, y: Context) {
    && OnDisk(x, kids, disk, rs)
    && var r := Restore(x, kids, disk, rs);
    && r.Restored? && y.inodes == r.rs.inodes && y.c.threshold == x.c.threshold
    && Grows(Prepare(x, kids).st.store, y.store)
    && Known(y, LeavesKids(r.out, [])) && AllAgree(y, LeavesKids(r.out, []))
  }

  lemma NextRedone(x: Context, kids: seq<Kid>, disk: seq<Kid>, rs: RestState, y: Context)
    requires Admissible(x, kids) && Next(x, kids, disk, rs, y)
    ensures var r := Restore(x, kids, disk, rs);
            SameKids(kids, r.out) && Redone(x, LeavesKids(kids, []), y, LeavesKids(r.out, []))
  {
    var r := Restore(x, kids, disk, rs);
    var v, w := LeavesKids(kids, []), LeavesKids(r.out, []);
    Everything(x, kids, disk, rs);
    assert [] + v == v && [] + w == w;
    assert SameKids(kids, r.out);
    forall n ensures Counted(x, v, y, w, n) { assert NameOk(x, v, w, r.rs, n); }
    forall f | 0 <= f < |v| && Rep(x, v, f) == f ensures Filed(x, v, y, f) { FiledAll(x, kids, y, f); }
  }

  /** The restored tree can be prepared again, as far as the first tree could. */
  lemma NextAdmissible(x: Context, kids: seq<Kid>, disk: seq<Kid>, rs: RestState, y: Context)
    requires Admissible(x, kids) && Next(x, kids, disk, rs, y)
    ensures Admissible(y, Restore(x, kids, disk, rs).out)
  {
    var r := Restore(x, kids, disk, rs);
    var v, w := LeavesKids(kids, []), LeavesKids(r.out, []);
    NextRedone(x, kids, disk, rs, y);
    CountsAgain(x, v, y, w);
    FilesAgain(x, kids, y, w);
    AdmissibleAgain(x, kids, y, r.out, []);
  }

  lemma FilesAgain(x: Context, kids: seq<Kid>, y: Context, w: seq<Leaf>)
    requires AdmissibleKids(x, kids, []) && Redone(x, LeavesKids(kids, []), y, w) && AllAgree(y, w)
    ensures FilesFine(y, w)
  {
    var v := LeavesKids(kids, []);
    FineAll(x, kids, []);
    forall j | 0 <= j < |w| ensures AdmissibleFile(y, BaseName(w[j]), y.inodes[w[j].ino], w[j].path) {
      assert Same(x.rc.quick, x.inodes[v[j].ino], y.inodes[w[j].ino]);
      CountOwned(w, j);
      assert Counted(x, v, y, w, w[j].ino);
    }
  }

  lemma {:induction false} FineKid(x: Context, kid: Kid, path: Path)
    requires AdmissibleKid(x, kid, path)
    ensures FilesFine(x, LeavesKid(kid, path))
    decreases kid.node, 1
  {
    match kid.node
    case File(_) =>
    case Dir(_, _, kids) => FineAll(x, kids, path);
  }

  lemma {:induction false} FineAll(x: Context, kids: seq<Kid>, path: Path)
    requires AdmissibleKids(x, kids, path)
    ensures FilesFine(x, LeavesKids(kids, path))
    decreases kids, 0
  {
    if kids != [] {
      AdmissibleInit(x, kids, path);
      FineAll(x, kids[..|kids| - 1], path);
      FineKid(x, kids[|kids| - 1], path + [kids[|kids| - 1].name]);
    }
  }

  lemma FlatSame(x: Context, kids: seq<Kid>, y: Context, out: seq<Kid>)
    requires Admissible(x, kids) && Admissible(y, out) && SameKids(kids, out)
    requires Prepare(x, kids).PreparedKids? && Prepare(y, out).PreparedKids?
    requires Redone(x, LeavesKids(kids, []), y, LeavesKids(out, []))
    ensures Prepare(y, out).fms == Prepare(x, kids).fms <==> SameRecords(x, LeavesKids(kids, []), y, LeavesKids(out, []))
  {
    var f, g := Prepare(x, kids).fms, Prepare(y, out).fms;
    RecordIs(x, kids);
    RecordIs(y, out);
    if SameRecords(x, LeavesKids(kids, []), y, LeavesKids(out, [])) {
      assert Flat(f) == Flat(g);
      Determined(kids, out, f, g, []);
    }
  }

  /** The restored tree can be prepared, and so committed, again if and only if no last link
      to a large file has a name special to Git. */
  lemma PreparesAgain(x: Context, kids: seq<Kid>, disk: seq<Kid>, rs: RestState, y: Context)
    requires Admissible(x, kids) && Next(x, kids, disk, rs, y)
    ensures var v := LeavesKids(kids, []);
            && Known(x, v)
            && (Prepare(y, Restore(x, kids, disk, rs).out).PreparedKids? <==>
                  forall j :: 0 <= j < |v| ==> !BlockedLink(x, v, j))
  {
    var out := Restore(x, kids, disk, rs).out;
    var v, w := LeavesKids(kids, []), LeavesKids(out, []);
    NextRedone(x, kids, disk, rs, y);
    NextAdmissible(x, kids, disk, rs, y);
    PreparedIsClean(x, kids);
    PreparedIsClean(y, out);
    forall j | 0 <= j < |v| ensures Blocked(y, w, j) <==> BlockedLink(x, v, j) { BlockedAgain(x, v, y, w, j); }
  }

  /** A walk of the restored tree, before the next commit, gives the record that is held
      if and only if no link was recorded to a FIFO or a large file, and symbolic links
      have kept their mode and times. */
  lemma Reproduces(x: Context, kids: seq<Kid>, disk: seq<Kid>, rs: RestState, y: Context)
    requires Admissible(x, kids) && Next(x, kids, disk, rs, y)
    ensures var r, v := Restore(x, kids, disk, rs), LeavesKids(kids, []);
            var q := Prepare(y, r.out);
            && Known(x, v) && |LeavesKids(r.out, [])| == |v|
            && (q.PreparedKids? && q.fms == Prepare(x, kids).fms <==>
                  LinksPlain(x, v) && SymlinksKept(x, v, y, LeavesKids(r.out, [])))
  {
    var r := Restore(x, kids, disk, rs);
    var v, w := LeavesKids(kids, []), LeavesKids(r.out, []);
    NextRedone(x, kids, disk, rs, y);
    NextAdmissible(x, kids, disk, rs, y);
    PreparedIsClean(x, kids);
    PreparedIsClean(y, r.out);
    RecordsAgain(x, v, y, w);
    if LinksPlain(x, v) { ClearAgain(x, v, y, w); }
    if Prepare(y, r.out).PreparedKids? { FlatSame(x, kids, y, r.out); }
  }

  /** After a commit, with its quick restore, symbolic links are as they were. */
  lemma QuickKeepsSymlinks(x: Context, kids: seq<Kid>, disk: seq<Kid>, rs: RestState, y: Context)
    requires Admissible(x, kids) && Next(x, kids, disk, rs, y) && x.rc.quick
    ensures var v, w := LeavesKids(kids, []), LeavesKids(Restore(x, kids, disk, rs).out, []);
            Known(x, v) && |v| == |w| && SymlinksKept(x, v, y, w)
  {
    NextRedone(x, kids, disk, rs, y);
  }

  // ---------------------------------------------------------------------------
  // The same condition on the tree and the store before the commit

  /** Of a file whose first name is a FIFO or a large file, at most two names are in the
      tree; two only if they are all there are and preparing deletes the first. */
  ghost predicate FewNames(x: Context, v: seq<Leaf>, n: nat)
    requires Known(x, v) && n in x.inodes
  {
    First(v, n) < |v| && Special(x, v[First(v, n)]) && Count(v, n) >= 2 ==> Count(v, n) == 2 && GroupAtRisk(x, v, n)
  }

  lemma FewArePlain(x: Context, v: seq<Leaf>, j: nat)
    requires Known(x, v) && CountsOk(x, v) && j < |v| && FewNames(x, v, v[j].ino)
    ensures PlainLink(x, v, j)
  {
    var n := v[j].ino;
    var f := First(v, n);
    FirstIsFirst(v, n);
    RepOfRep(x, v, j);
    if f < j {
      TwoCounted(v, f, j);
      if Special(x, v[f]) { SecondOfTwo(x, v, j); }
    }
  }

  lemma CountPrefix(v: seq<Leaf>, j: nat, n: nat)
    requires j <= |v|
    ensures Count(v[..j], n) <= Count(v, n)
  {
    assert v == v[..j] + v[j..];
    CountMono(v[..j], v[j..], n);
  }

  lemma TwoBefore(v: seq<Leaf>, j: nat)
    requires j < |v| && First(v, v[j].ino) < j
    ensures Count(v[..j + 1], v[j].ino) >= 2
  {
    FirstOfPrefix(v, j + 1, v[j].ino);
    TwoNames(v[..j + 1], v[j].ino);
  }

  /** The second of two names. */
  lemma SecondOfTwo(x: Context, v: seq<Leaf>, j: nat)
    requires Known(x, v) && j < |v| && First(v, v[j].ino) < j && Count(v, v[j].ino) == 2 && GroupAtRisk(x, v, v[j].ino)
    ensures Lost(x, v, j)
  {
    TwoBefore(v, j);
    CountPrefix(v, j + 1, v[j].ino);
  }

  lemma PlainAreFew(x: Context, v: seq<Leaf>, n: nat)
    requires Known(x, v) && CountsOk(x, v) && LinksPlain(x, v) && n in x.inodes
    ensures FewNames(x, v, n)
  {
    var f := First(v, n);
    if f < |v| && Special(x, v[f]) && Count(v, n) >= 2 {
      var j := SecondName(v, n);
      assert PlainLink(x, v, j);
      RepOfRep(x, v, j);
      assert Lost(x, v, j);
      LostIsLast(x, v, j);
      OnlyTwo(x, v, j);
    }
  }

  /** A lost name is the last one of a group at risk. */
  lemma LostIsLast(x: Context, v: seq<Leaf>, j: nat)
    requires Known(x, v) && CountsOk(x, v) && j < |v| && Lost(x, v, j)
    ensures GroupAtRisk(x, v, v[j].ino) && Count(v[..j], v[j].ino) == Count(v, v[j].ino) - 1
  {
    TwoBefore(v, j);
    LastCounted(v, j);
    CountPrefix(v, j + 1, v[j].ino);
  }

  lemma LastCounted(v: seq<Leaf>, j: nat)
    requires j < |v|
    ensures Count(v[..j], v[j].ino) == Count(v[..j + 1], v[j].ino) - 1
  {
    assert v[..j + 1] == v[..j] + [v[j]];
    Extend(v[..j], v[j], v[j].ino);
  }

  lemma CountLess(v: seq<Leaf>, k: nat, j: nat)
    requires k < j < |v|
    ensures Count(v[..k + 1], v[j].ino) < Count(v[..j + 1], v[j].ino)
  {
    assert v[..j] == v[..k + 1] + v[k + 1..j] && v[..j + 1] == v[..j] + [v[j]];
    CountMono(v[..k + 1], v[k + 1..j], v[j].ino);
    Extend(v[..j], v[j], v[j].ino);
  }

  lemma NoEarlierLost(x: Context, v: seq<Leaf>, k: nat, j: nat)
    requires Known(x, v) && k < j < |v| && v[k].ino == v[j].ino && Lost(x, v, j)
    ensures !Lost(x, v, k)
  {
    CountLess(v, k, j);
  }

  /** The names before a lost one are links or the first, so there is only the first. */
  lemma OnlyTwo(x: Context, v: seq<Leaf>, j: nat)
    requires Known(x, v) && CountsOk(x, v) && LinksPlain(x, v) && j < |v| && Lost(x, v, j)
    requires Special(x, v[First(v, v[j].ino)])
    ensures Count(v, v[j].ino) == 2
  {
    var n := v[j].ino;
    LostIsLast(x, v, j);
    FirstIsFirst(v[..j], n);
    FirstOfPrefix(v, j, n);
    assert Count(v[..j], n) < 2 by { if Count(v[..j], n) >= 2 { NotPlain(x, v, j); assert false; } }
  }

  lemma NotPlain(x: Context, v: seq<Leaf>, j: nat)
    requires Known(x, v) && j < |v| && Lost(x, v, j) && Special(x, v[First(v, v[j].ino)]) && Count(v[..j], v[j].ino) >= 2
    ensures !LinksPlain(x, v)
  {
    var n := v[j].ino;
    var k := SecondName(v[..j], n);
    FirstOfPrefix(v, j, n);
    NoEarlierLost(x, v, k, j);
    assert v[k] == v[..j][k] && !PlainLink(x, v, k);
  }

  /** No link to a FIFO or a large file is recorded if and only if each such file has few
      names. */
  lemma PlainExactly(x: Context, v: seq<Leaf>)
    requires Known(x, v) && CountsOk(x, v)
    ensures LinksPlain(x, v) <==> forall n {:trigger FewNames(x, v, n)} :: n in x.inodes ==> FewNames(x, v, n)
  {
    if LinksPlain(x, v) {
      forall n | n in x.inodes ensures FewNames(x, v, n) { PlainAreFew(x, v, n); }
    }
    if forall n {:trigger FewNames(x, v, n)} :: n in x.inodes ==> FewNames(x, v, n) {
      forall j | 0 <= j < |v| ensures PlainLink(x, v, j) { FewArePlain(x, v, j); }
    }
  }

  /** After a commit: the next walk gives the same record if and only if no FIFO or large
      file has more names in the tree than one, or than two of which preparing deletes
      the first and there is no third. */
  lemma ReproducesExactly(x: Context, kids: seq<Kid>, disk: seq<Kid>, rs: RestState, y: Context)
    requires Admissible(x, kids) && Next(x, kids, disk, rs, y) && x.rc.quick
    ensures var v, q := LeavesKids(kids, []), Prepare(y, Restore(x, kids, disk, rs).out);
            && Known(x, v)
            && (q.PreparedKids? && q.fms == Prepare(x, kids).fms <==>
                  forall n {:trigger FewNames(x, v, n)} :: n in x.inodes ==> FewNames(x, v, n))
  {
    Reproduces(x, kids, disk, rs, y);
    QuickKeepsSymlinks(x, kids, disk, rs, y);
    PlainExactly(x, LeavesKids(kids, []));
  }
}
