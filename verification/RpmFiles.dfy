/**
  Trees with RPM database files. Preparing deletes these files and restoring ignores
  them, but a directory that holds one does not count as empty. If Git has nothing to
  store in it, then it is not there after a checkout, and restoring fails: exactly
  then (`RpmRestore`).
 */
module RpmFiles {
  import opened FileMetadata
  import opened RoundTrip
  import opened Records
  import opened GitTree

  /** As for `RoundTrip`, but RPM database files are allowed. */
  predicate RpmKid(x: Context, kid: Kid, path: Path)
    decreases kid.node, 1
  {
    && path != GIT_DIR && path != [] && path[|path| - 1] == kid.name
    && match kid.node
       case File(ino) => ino in x.inodes && AdmissibleFile(x, kid.name, x.inodes[ino], path)
       case Dir(_, _, kids) => RpmKids(x, kids, path)
  }

  predicate RpmKids(x: Context, kids: seq<Kid>, path: Path)
    decreases kids, 0
  {
    && (forall i :: 0 <= i < |kids| ==> RpmKid(x, kids[i], path + [kids[i].name]))
    && (forall i, j :: 0 <= i < j < |kids| ==> Escape(kids[i].name) != Escape(kids[j].name))
  }

  // ---------------------------------------------------------------------------
  // What a record says about restoring from a checkout

  /** Git stores something of this. */
  predicate Stores(fm: Fm)
    decreases fm, 1
  {
    if fm.kind.FDir? then StoresAny(fm.children) else !fm.dontRestore && !fm.Unstored()
  }

  predicate StoresAny(fms: seq<Fm>)
    decreases fms, 0
  {
    exists i :: 0 <= i < |fms| && Stores(fms[i])
  }

  /** A directory that is neither made again nor checked out. */
  predicate Hollow(fm: Fm) { fm.kind.FDir? && !fm.EmptyDir() && !Stores(fm) }

  /** There is a hollow directory that restoring looks for. */
  predicate HasHollow(fm: Fm, path: Path)
    decreases fm, 1
  {
    !RpmDb(path) && fm.kind.FDir? && (Hollow(fm) || AnyHollow(fm.children, path))
  }

  predicate AnyHollow(fms: seq<Fm>, path: Path)
    decreases fms, 0
  {
    exists i :: 0 <= i < |fms| && HasHollow(fms[i], path + [fms[i].name])
  }

  /** Directories are recorded as directories. */
  predicate PlainDirs(fm: Fm)
    decreases fm, 1
  {
    fm.kind.FDir? ==> fm.hardlinkTo.None? && fm.largeName.None? && !fm.dontRestore && AllPlainDirs(fm.children)
  }

  predicate AllPlainDirs(fms: seq<Fm>)
    decreases fms, 0
  {
    forall i :: 0 <= i < |fms| ==> PlainDirs(fms[i])
  }

  /** In terms of the files below: a directory is hollow if and only if it holds an RPM
      database file that is not a FIFO, and every other file below is a FIFO, a large
      file or a further link. */
  lemma HollowMeans(fm: Fm)
    requires fm.kind.FDir? && PlainDirs(fm)
    ensures var v := FlatFm(fm);
            Hollow(fm) <==>
              && (exists j :: 0 <= j < |v| && v[j].dontRestore && !v[j].Unstored())
              && (forall j :: 0 <= j < |v| ==> v[j].dontRestore || v[j].Unstored())
  {
    EmptyMeans(fm);
    StoresMeans(fm);
  }

  lemma {:induction false} EmptyMeans(fm: Fm)
    requires fm.kind.FDir? && PlainDirs(fm)
    ensures fm.EmptyDir() <==> AllUnstored(FlatFm(fm))
    decreases fm, 1
  {
    EmptiesMean(fm.children);
    assert fm.EmptyDir() <==> Empties(fm.children);
  }

  predicate AllUnstored(v: seq<Fm>) { forall j :: 0 <= j < |v| ==> v[j].Unstored() }

  lemma AllUnstoredSplit(a: seq<Fm>, b: seq<Fm>)
    ensures AllUnstored(a + b) <==> AllUnstored(a) && AllUnstored(b)
  {
    assert forall j :: 0 <= j < |a| ==> (a + b)[j] == a[j];
    assert forall j :: 0 <= j < |b| ==> (a + b)[|a| + j] == b[j];
  }

  predicate Empties(fms: seq<Fm>) { forall i :: 0 <= i < |fms| ==> fms[i].Unstored() || fms[i].EmptyDir() }

  lemma {:induction false} EmptiesMean(fms: seq<Fm>)
    requires AllPlainDirs(fms)
    ensures Empties(fms) <==> AllUnstored(Flat(fms))
    decreases fms, 0
  {
    if fms != [] {
      var n := |fms| - 1;
      EmptiesMean(fms[..n]);
      if fms[n].kind.FDir? { EmptyMeans(fms[n]); } else { assert FlatFm(fms[n]) == [fms[n]]; }
      AllUnstoredSplit(Flat(fms[..n]), FlatFm(fms[n]));
      assert fms == fms[..n] + [fms[n]];
      assert Empties(fms) <==> Empties(fms[..n]) && (fms[n].Unstored() || fms[n].EmptyDir());
    }
  }

  ghost predicate AnyStored(v: seq<Fm>) { exists j :: 0 <= j < |v| && !v[j].dontRestore && !v[j].Unstored() }

  lemma AnyStoredSplit(a: seq<Fm>, b: seq<Fm>)
    ensures AnyStored(a + b) <==> AnyStored(a) || AnyStored(b)
  {
    assert forall j :: 0 <= j < |a| ==> (a + b)[j] == a[j];
    assert forall j :: 0 <= j < |b| ==> (a + b)[|a| + j] == b[j];
  }

  lemma {:induction false} StoresMeans(fm: Fm)
    ensures Stores(fm) <==> AnyStored(FlatFm(fm))
    decreases fm, 1
  {
    if fm.kind.FDir? { StoresAnyMeans(fm.children); } else { assert FlatFm(fm)[0] == fm; }
  }

  lemma {:induction false} StoresAnyMeans(fms: seq<Fm>)
    ensures StoresAny(fms) <==> AnyStored(Flat(fms))
    decreases fms, 0
  {
    if fms != [] {
      var n := |fms| - 1;
      StoresAnyMeans(fms[..n]);
      StoresMeans(fms[n]);
      AnyStoredSplit(Flat(fms[..n]), FlatFm(fms[n]));
      assert fms == fms[..n] + [fms[n]];
      assert StoresAny(fms) <==> StoresAny(fms[..n]) || Stores(fms[n]);
    }
  }

  // ---------------------------------------------------------------------------
  // Restoring a record from what Git has

  /** Files restored by now, by path: what link(2) can find. */
  function Reached(fm: Fm, path: Path, d: set<Path>): set<Path>
    decreases fm, 1
  {
    if fm.dontRestore || RpmDb(path) then d
    else if fm.kind.FDir? then ReachedAll(fm.children, path, d)
    else d + {path}
  }

  function ReachedAll(fms: seq<Fm>, path: Path, d: set<Path>): set<Path>
    decreases fms, 0
  {
    if fms == [] then d
    else
      var n := |fms| - 1;
      Reached(fms[n], path + [fms[n].name], ReachedAll(fms[..n], path, d))
  }

  /** Links lead to files restored earlier, large files are in the store, names are apart
      and nothing that is ignored is stored. */
  predicate Sound(c: RestConfig, fm: Fm, path: Path, d: set<Path>)
    decreases fm, 1
  {
    && (RpmDb(path) ==> !Stores(fm))
    && if fm.kind.FDir? then
         PlainDirs(fm) && (RpmDb(path) || SoundAll(c, fm.children, path, d))
       else
         && fm.children == []
         && (fm.dontRestore || RpmDb(path) ||
              ((fm.hardlinkTo.Some? ==> fm.hardlinkTo.value in d) &&
               (fm.largeName.Some? ==> fm.largeName.value in c.store) && !fm.kind.FSock?))
  }

  predicate SoundAll(c: RestConfig, fms: seq<Fm>, path: Path, d: set<Path>)
    decreases fms, 0
  {
    fms == [] ||
    var n := |fms| - 1;
    && SoundAll(c, fms[..n], path, d)
    && Sound(c, fms[n], path + [fms[n].name], ReachedAll(fms[..n], path, d))
    && forall i :: 0 <= i < n ==> Escape(fms[i].name) != Escape(fms[n].name)
  }

  /** The part of a checkout that belongs to a record. */
  ghost predicate GitHas(fm: Fm, cs: seq<Kid>, inodes: map<nat, Inode>)
    decreases fm, 1
  {
    if !Stores(fm) then cs == []
    else
      && |cs| == 1 && cs[0].name == Escape(fm.name)
      && if fm.kind.FDir? then cs[0].node.Dir? && GitHasAll(fm.children, cs[0].node.kids, inodes)
         else cs[0].node.File? && cs[0].node.ino in inodes
  }

  ghost predicate GitHasAll(fms: seq<Fm>, cs: seq<Kid>, inodes: map<nat, Inode>)
    decreases fms, 0
  {
    if fms == [] then cs == []
    else
      var n, k := |fms| - 1, if Stores(fms[|fms| - 1]) then 1 else 0;
      && |cs| >= k
      && GitHasAll(fms[..n], cs[..|cs| - k], inodes) && GitHas(fms[n], cs[|cs| - k..], inodes)
  }

  /** A directory in which nothing is stored has nothing in a checkout. */
  lemma {:induction false} NothingStored(fms: seq<Fm>, inodes: map<nat, Inode>)
    requires !StoresAny(fms)
    ensures GitHasAll(fms, [], inodes)
    decreases fms, 0
  {
    if fms != [] {
      var n := |fms| - 1;
      assert !Stores(fms[n]);
      assert forall i :: 0 <= i < n ==> fms[..n][i] == fms[i];
      NothingStored(fms[..n], inodes);
    }
  }

  lemma {:induction false} GitHasFrame(fm: Fm, cs: seq<Kid>, i0: map<nat, Inode>, i1: map<nat, Inode>)
    requires GitHas(fm, cs, i0) && i0.Keys <= i1.Keys
    ensures GitHas(fm, cs, i1)
    decreases fm, 1
  {
    if Stores(fm) && fm.kind.FDir? { GitHasAllFrame(fm.children, cs[0].node.kids, i0, i1); }
  }

  lemma {:induction false} GitHasAllFrame(fms: seq<Fm>, cs: seq<Kid>, i0: map<nat, Inode>, i1: map<nat, Inode>)
    requires GitHasAll(fms, cs, i0) && i0.Keys <= i1.Keys
    ensures GitHasAll(fms, cs, i1)
    decreases fms, 0
  {
    if fms != [] {
      var n, k := |fms| - 1, if Stores(fms[|fms| - 1]) then 1 else 0;
      GitHasAllFrame(fms[..n], cs[..|cs| - k], i0, i1);
      GitHasFrame(fms[n], cs[|cs| - k..], i0, i1);
    }
  }

  ghost predicate Findable(d: set<Path>, rs: RestState) {
    forall p :: p in d ==> p in rs.done && rs.done[p] in rs.inodes
  }

  /** What a restore has done when it has not failed. */
  ghost predicate Back(r: Restored, rest: seq<Kid>, rs: RestState, d: set<Path>) {
    r.Restored? && r.disk == rest && Findable(d, r.rs) && rs.inodes.Keys <= r.rs.inodes.Keys
  }

  lemma FileBack(c: RestConfig, fm: Fm, path: Path, cs: seq<Kid>, rest: seq<Kid>, rs: RestState, d: set<Path>)
    requires !fm.kind.FDir? && Sound(c, fm, path, d) && GitHas(fm, cs, rs.inodes) && Apart(fm.name, rest) && Findable(d, rs)
    requires !fm.dontRestore && !RpmDb(path)
    ensures Back(RestoreKid(c, fm, path, cs + rest, rs), rest, rs, d + {path})
  {
    if Stores(fm) {
      assert cs == [Kid(Escape(fm.name), cs[0].node)];
      HeadOf(cs[0], rest);
    } else {
      assert cs + rest == rest;
      WithoutAbsent(rest, fm.name);
    }
  }

  /** A directory's restore is that of its entries, if it is there or is made. */
  lemma DirBack(c: RestConfig, fm: Fm, path: Path, cs: seq<Kid>, rest: seq<Kid>, rs: RestState)
    requires fm.kind.FDir? && fm.hardlinkTo.None? && fm.largeName.None? && !fm.dontRestore && !RpmDb(path)
    requires GitHas(fm, cs, rs.inodes) && Apart(fm.name, rest) && !Hollow(fm) && (fm.EmptyDir() ==> !Stores(fm))
    ensures var inner := if fm.EmptyDir() then [] else cs[0].node.kids;
            var r, r0 := RestoreKid(c, fm, path, cs + rest, rs), RestoreKids(c, fm.children, path, inner, rs);
            (r.Restored? <==> r0.Restored?) && (r0.Restored? ==> r.disk == rest && r.rs == r0.rs)
  {
    if fm.EmptyDir() {
      assert cs + rest == rest;
    } else {
      assert cs == [Kid(Escape(fm.name), cs[0].node)];
      HeadOf(cs[0], rest);
    }
  }

  lemma HollowFails(c: RestConfig, fm: Fm, path: Path, cs: seq<Kid>, rest: seq<Kid>, rs: RestState)
    requires fm.kind.FDir? && fm.hardlinkTo.None? && fm.largeName.None? && !fm.dontRestore && !RpmDb(path)
    requires GitHas(fm, cs, rs.inodes) && Apart(fm.name, rest) && Hollow(fm) && !c.quick
    ensures RestoreKid(c, fm, path, cs + rest, rs).RestErr?
  {
    assert cs + rest == rest;
  }

  /** An empty directory stores nothing. */
  lemma {:induction false} EmptyStoresNot(fm: Fm)
    requires fm.EmptyDir() && PlainDirs(fm)
    ensures !Stores(fm)
    decreases fm
  {
    forall i | 0 <= i < |fm.children| ensures !Stores(fm.children[i]) {
      var k := fm.children[i];
      assert PlainDirs(k);
      if k.EmptyDir() { EmptyStoresNot(k); } else { assert k.Unstored() && !k.kind.FDir?; }
    }
    assert !StoresAny(fm.children);
  }

  // The induction over a record.

  lemma {:induction false} RestoreIff(
      c: RestConfig, fm: Fm, path: Path, cs: seq<Kid>, rest: seq<Kid>, rs: RestState, d: set<Path>)
    requires !c.quick && Sound(c, fm, path, d) && GitHas(fm, cs, rs.inodes) && Apart(fm.name, rest) && Findable(d, rs)
    ensures var r := RestoreKid(c, fm, path, cs + rest, rs);
            && (r.Restored? <==> !HasHollow(fm, path))
            && (r.Restored? ==> Back(r, rest, rs, Reached(fm, path, d)))
    decreases fm, 1
  {
    if fm.dontRestore || RpmDb(path) {
      assert !Stores(fm) && cs + rest == rest;
    } else if !fm.kind.FDir? {
      FileBack(c, fm, path, cs, rest, rs, d);
    } else if Hollow(fm) {
      HollowFails(c, fm, path, cs, rest, rs);
    } else {
      if fm.EmptyDir() {
        EmptyStoresNot(fm);
        NothingStored(fm.children, rs.inodes);
      }
      var inner := if fm.EmptyDir() then [] else cs[0].node.kids;
      RestoreAllIff(c, fm.children, path, inner, [], rs, d);
      assert inner + [] == inner;
      DirBack(c, fm, path, cs, rest, rs);
    }
  }

  ghost predicate FmsApart(fms: seq<Fm>, rest: seq<Kid>) {
    forall i :: 0 <= i < |fms| ==> Apart(fms[i].name, rest)
  }

  lemma ApartInit(fms: seq<Fm>, cs2: seq<Kid>, rest: seq<Kid>)
    requires fms != [] && FmsApart(fms, rest) && |cs2| <= 1
    requires cs2 != [] ==> cs2[0].name == Escape(fms[|fms| - 1].name)
    requires forall i :: 0 <= i < |fms| - 1 ==> Escape(fms[i].name) != Escape(fms[|fms| - 1].name)
    ensures FmsApart(fms[..|fms| - 1], cs2 + rest)
  {
    if cs2 == [] {
      assert cs2 + rest == rest;
    } else {
      assert cs2 == [cs2[0]];
      forall i | 0 <= i < |fms| - 1 ensures Apart(fms[i].name, cs2 + rest) {
        SiblingApart(fms[i].name, cs2[0], rest, fms[|fms| - 1].name);
      }
    }
  }

  lemma AnyHollowSnoc(fms: seq<Fm>, path: Path)
    requires fms != []
    ensures var n := |fms| - 1;
            AnyHollow(fms, path) <==> AnyHollow(fms[..n], path) || HasHollow(fms[n], path + [fms[n].name])
  {
    var n := |fms| - 1;
    assert forall i :: 0 <= i < n ==> fms[..n][i] == fms[i];
  }

  lemma {:induction false} RestoreAllIff(
      c: RestConfig, fms: seq<Fm>, path: Path, cs: seq<Kid>, rest: seq<Kid>, rs: RestState, d: set<Path>)
    requires !c.quick && SoundAll(c, fms, path, d) && GitHasAll(fms, cs, rs.inodes) && FmsApart(fms, rest) && Findable(d, rs)
    ensures var r := RestoreKids(c, fms, path, cs + rest, rs);
            && (r.Restored? <==> !AnyHollow(fms, path))
            && (r.Restored? ==> Back(r, rest, rs, ReachedAll(fms, path, d)))
    decreases fms, 0
  {
    if fms == [] {
      assert cs + rest == rest;
    } else {
      var n, k := |fms| - 1, if Stores(fms[|fms| - 1]) then 1 else 0;
      var last, own, m := fms[n], path + [fms[n].name], |cs| - k;
      var cs1, cs2 := cs[..m], cs[m..];
      CutAt(cs, m, rest);
      ApartInit(fms, cs2, rest);
      RestoreAllIff(c, fms[..n], path, cs1, cs2 + rest, rs, d);
      AnyHollowSnoc(fms, path);
      var r1 := RestoreKids(c, fms[..n], path, cs + rest, rs);
      if r1.Restored? {
        GitHasFrame(last, cs2, rs.inodes, r1.rs.inodes);
        RestoreIff(c, last, own, cs2, rest, r1.rs, ReachedAll(fms[..n], path, d));
      }
    }
  }

  // ---------------------------------------------------------------------------
  // Preparing makes sound records

  ghost predicate LinksIn(st: PrepState, d: set<Path>) { forall n :: n in st.hardlinks ==> st.hardlinks[n] in d }

  lemma GrowsTrans(a: Store, b: Store, c: Store)
    requires Grows(a, b) && Grows(b, c)
    ensures Grows(a, c)
  {
  }

  lemma {:induction false} RpmStoresNone(c: RestConfig, fms: seq<Fm>, path: Path, d: set<Path>)
    requires SoundAll(c, fms, path, d) && RpmDb(path)
    ensures !StoresAny(fms)
  {
    if fms != [] {
      var n := |fms| - 1;
      RpmStoresNone(c, fms[..n], path, d);
      forall i | 0 <= i < |fms| ensures !Stores(fms[i]) { if i < n { assert fms[..n][i] == fms[i]; } }
    }
  }

  lemma SoundStored(x: Context, fm: Fm, ino: nat, path: Path, st: PrepState, d: set<Path>)
    requires ino in st.inodes && FreshFm(fm, st.inodes[ino]) && !RpmDb(path) && LinksIn(st, d)
    requires st.inodes[ino].kind.Reg? || st.inodes[ino].kind.Lnk? || st.inodes[ino].kind.Fifo?
    requires var p := PrepLink(x.c, fm, ino, path, st); p.Prepared? && Grows(p.st.store, x.rc.store)
    ensures var p := PrepLink(x.c, fm, ino, path, st);
            Sound(x.rc, p.fm, path, d) && !p.fm.dontRestore && LinksIn(p.st, d + {path})
  {
  }

  lemma SoundFile(x: Context, name: Name, ino: nat, path: Path, st: PrepState, d: set<Path>)
    requires ino in x.inodes && AdmissibleFile(x, name, x.inodes[ino], path) && path != GIT_DIR && Tracks(x.inodes, st.inodes)
    requires LinksIn(st, d)
    requires var p := PrepFile(x.c, name, ino, path, st); p.Prepared? && Grows(p.st.store, x.rc.store)
    ensures var p := PrepFile(x.c, name, ino, path, st);
            && p.fm.name == name && !p.fm.kind.FDir? && (p.fm.dontRestore <==> RpmDb(path))
            && Sound(x.rc, p.fm, path, d) && LinksIn(p.st, Reached(p.fm, path, d))
  {
    if RpmDb(path) {
      RpmGone(x.c, name, ino, path, st);
    } else {
      PrepFileLink(x.c, name, ino, path, st);
      SoundStored(x, FileRecord(name, ChmodMin(st.inodes[ino])), ino, path, Widened(st, ino), d);
      PrepLinkName(x.c, FileRecord(name, ChmodMin(st.inodes[ino])), ino, path, Widened(st, ino));
    }
  }

  /** An RPM database file is recorded, not to be restored, and deleted. */
  lemma RpmGone(c: PrepConfig, name: Name, ino: nat, path: Path, st: PrepState)
    requires RpmDb(path) && ino in st.inodes && !st.inodes[ino].kind.Dev?
    ensures PrepFile(c, name, ino, path, st)
         == Prepared(FileRecord(name, ChmodMin(st.inodes[ino])).(dontRestore := true), [], Unlink(Widened(st, ino), ino))
  {
  }

  lemma FileTracks(x: Context, name: Name, ino: nat, path: Path, st: PrepState)
    requires ino in x.inodes && AdmissibleFile(x, name, x.inodes[ino], path) && path != GIT_DIR
    requires Tracks(x.inodes, st.inodes) && PrepFile(x.c, name, ino, path, st).Prepared?
    ensures Tracks(x.inodes, PrepFile(x.c, name, ino, path, st).st.inodes)
  {
    WidenedTracks(x.inodes, st, ino);
    if RpmDb(path) {
      RpmGone(x.c, name, ino, path, st);
      UnlinkTracks(x.inodes, Widened(st, ino), ino);
    } else {
      PrepFileLink(x.c, name, ino, path, st);
      PrepLinkOk(x, FileRecord(name, ChmodMin(st.inodes[ino])), ino, path, Widened(st, ino));
    }
  }

  /** The record, the state, and for directories the entries. */
  ghost predicate SoundKid(x: Context, kid: Kid, path: Path, d: set<Path>, p: Prepared) {
    && p.Prepared? && p.fm.name == kid.name && Sound(x.rc, p.fm, path, d)
    && LinksIn(p.st, Reached(p.fm, path, d)) && Tracks(x.inodes, p.st.inodes)
  }

  ghost predicate SoundKids(x: Context, kids: seq<Kid>, path: Path, d: set<Path>, p: PreparedKids) {
    && p.PreparedKids? && |p.fms| == |kids| && (forall i :: 0 <= i < |kids| ==> p.fms[i].name == kids[i].name)
    && SoundAll(x.rc, p.fms, path, d) && LinksIn(p.st, ReachedAll(p.fms, path, d)) && Tracks(x.inodes, p.st.inodes)
  }

  lemma {:induction false} PrepSoundKid(x: Context, kid: Kid, path: Path, st: PrepState, d: set<Path>)
    requires RpmKid(x, kid, path) && Tracks(x.inodes, st.inodes) && LinksIn(st, d)
    requires var p := PrepKid(x.c, kid, path, st); p.Prepared? && Grows(p.st.store, x.rc.store)
    ensures SoundKid(x, kid, path, d, PrepKid(x.c, kid, path, st))
    decreases kid.node, 1
  {
    match kid.node
    case File(ino) =>
      SoundFile(x, kid.name, ino, path, st, d);
      FileTracks(x, kid.name, ino, path, st);
    case Dir(_, _, kids) =>
      var ps := PrepKids(x.c, kids, path, st);
      assert ps.PreparedKids?;
      PrepSound(x, kids, path, st, d);
      SoundDir(x, kid, path, ps, PrepKid(x.c, kid, path, st), d);
  }

  lemma SoundDir(x: Context, kid: Kid, path: Path, ps: PreparedKids, p: Prepared, d: set<Path>)
    requires kid.node.Dir? && p.Prepared? && SoundKids(x, kid.node.kids, path, d, ps) && p.st == ps.st
    requires p.fm == Fm(kid.name, FDir, MinDirPerm(kid.node.perm), kid.node.mtime, 0, ps.fms, false, None, None)
    ensures SoundKid(x, kid, path, d, p)
  {
    SoundPlain(x.rc, ps.fms, path, d);
    if RpmDb(path) {
      RpmStoresNone(x.rc, ps.fms, path, d);
      RpmReaches(ps.fms, path, d);
    }
  }

  lemma {:induction false} SoundPlain(c: RestConfig, fms: seq<Fm>, path: Path, d: set<Path>)
    requires SoundAll(c, fms, path, d)
    ensures AllPlainDirs(fms)
  {
    if fms != [] {
      var n := |fms| - 1;
      SoundPlain(c, fms[..n], path, d);
      forall i | 0 <= i < |fms| ensures PlainDirs(fms[i]) { if i < n { assert fms[..n][i] == fms[i]; } }
    }
  }

  /** Nothing below an RPM database path is restored. */
  lemma {:induction false} RpmReaches(fms: seq<Fm>, path: Path, d: set<Path>)
    requires RpmDb(path)
    ensures ReachedAll(fms, path, d) == d
  {
    if fms != [] { RpmReaches(fms[..|fms| - 1], path, d); }
  }

  lemma {:induction false} PrepSound(x: Context, kids: seq<Kid>, path: Path, st: PrepState, d: set<Path>)
    requires RpmKids(x, kids, path) && Tracks(x.inodes, st.inodes) && LinksIn(st, d)
    requires var p := PrepKids(x.c, kids, path, st); p.PreparedKids? && Grows(p.st.store, x.rc.store)
    ensures SoundKids(x, kids, path, d, PrepKids(x.c, kids, path, st))
    decreases kids, 0
  {
    if kids != [] {
      var n := |kids| - 1;
      var own := path + [kids[n].name];
      var p1 := PrepKids(x.c, kids[..n], path, st);
      var p2 := PrepKid(x.c, kids[n], own, p1.st);
      LargesStoredKid(x.c, kids[n], own, p1.st);
      GrowsTrans(p1.st.store, p2.st.store, x.rc.store);
      PrepSound(x, kids[..n], path, st, d);
      PrepSoundKid(x, kids[n], own, p1.st, ReachedAll(p1.fms, path, d));
      SoundSnoc(x, kids, path, d, p1, p2, PrepKids(x.c, kids, path, st));
    }
  }

  lemma SoundSnoc(x: Context, kids: seq<Kid>, path: Path, d: set<Path>, p1: PreparedKids, p2: Prepared, p: PreparedKids)
    requires kids != [] && SoundKids(x, kids[..|kids| - 1], path, d, p1)
    requires SoundKid(x, kids[|kids| - 1], path + [kids[|kids| - 1].name], ReachedAll(p1.fms, path, d), p2)
    requires forall i, j :: 0 <= i < j < |kids| ==> Escape(kids[i].name) != Escape(kids[j].name)
    requires p.PreparedKids? && p.fms == p1.fms + [p2.fm] && p.st == p2.st
    ensures SoundKids(x, kids, path, d, p)
  {
    assert forall i :: 0 <= i < |p1.fms| ==> p1.fms[i].name == kids[..|kids| - 1][i].name == kids[i].name;
    SoundAllSnoc(x.rc, p1.fms, p2.fm, path, d);
  }

  lemma SoundAllSnoc(c: RestConfig, fms: seq<Fm>, fm: Fm, path: Path, d: set<Path>)
    requires SoundAll(c, fms, path, d) && Sound(c, fm, path + [fm.name], ReachedAll(fms, path, d))
    requires forall i :: 0 <= i < |fms| ==> Escape(fms[i].name) != Escape(fm.name)
    ensures SoundAll(c, fms + [fm], path, d)
    ensures ReachedAll(fms + [fm], path, d) == Reached(fm, path + [fm.name], ReachedAll(fms, path, d))
  {
    assert (fms + [fm])[..|fms|] == fms;
  }

  // ---------------------------------------------------------------------------
  // What is left, without the directories that Git drops

  function PruneKid(k: Kid): seq<Kid>
    decreases k.node, 1
  {
    match k.node
    case File(_) => [k]
    case Dir(perm, mtime, kids) =>
      var t := Prune(kids);
      if t == [] then [] else [Kid(k.name, Dir(perm, mtime, t))]
  }

  function Prune(kids: seq<Kid>): seq<Kid>
    decreases kids, 0
  {
    if kids == [] then [] else Prune(kids[..|kids| - 1]) + PruneKid(kids[|kids| - 1])
  }

  lemma PruneOne(k: Kid)
    ensures Prune([k]) == PruneKid(k)
  {
    assert [k][..0] == [];
  }

  lemma {:induction false} PruneSplit(a: seq<Kid>, b: seq<Kid>)
    ensures Prune(a + b) == Prune(a) + Prune(b)
    decreases |b|
  {
    if b == [] {
      assert a + b == a;
    } else {
      var m := |b| - 1;
      PruneSplit(a, b[..m]);
      assert (a + b)[..|a + b| - 1] == a + b[..m] && (a + b)[|a + b| - 1] == b[m];
    }
  }

  /** Git stores the same of the pruned tree. */
  lemma {:induction false} StorePruneKid(inodes: map<nat, Inode>, k: Kid)
    ensures StoreKids(inodes, PruneKid(k)) == StoreKid(inodes, k)
    decreases k.node, 1
  {
    match k.node
    case File(_) => StoreOne(inodes, k);
    case Dir(_, _, kids) =>
      StorePrune(inodes, kids);
      if PruneKid(k) != [] { StoreOne(inodes, PruneKid(k)[0]); }
  }

  lemma {:induction false} StorePrune(inodes: map<nat, Inode>, kids: seq<Kid>)
    ensures StoreKids(inodes, Prune(kids)) == StoreKids(inodes, kids)
    decreases kids, 0
  {
    if kids != [] {
      StorePrune(inodes, kids[..|kids| - 1]);
      StorePruneKid(inodes, kids[|kids| - 1]);
      StoreSplit(inodes, Prune(kids[..|kids| - 1]), PruneKid(kids[|kids| - 1]));
    }
  }

  /** What is stored of a record is what is left after preparing, pruned. */
  ghost predicate LeftKidOk(x: Context, fm: Fm, name: Name, left: seq<Kid>) {
    && fm.name == name && GitHas(fm, Prune(left), x.inodes) && CleanKids(x, Prune(left))
    && |Prune(left)| <= 1 && (Prune(left) != [] ==> NamedKid(Prune(left)[0]) && Prune(left)[0].name == Escape(name))
  }

  ghost predicate LeftKidsOk(x: Context, fms: seq<Fm>, kids: seq<Kid>, left: seq<Kid>) {
    GitHasAll(fms, Prune(left), x.inodes) && CleanKids(x, Prune(left)) && NamedAfter(Prune(left), kids)
  }

  lemma LeftStored(x: Context, fm: Fm, ino: nat, path: Path, st: PrepState)
    requires ino in x.inodes && AdmissibleFile(x, fm.name, x.inodes[ino], path) && Tracks(x.inodes, st.inodes)
    requires FreshFm(fm, st.inodes[ino]) && PrepLink(x.c, fm, ino, path, st).Prepared?
    ensures var p := PrepLink(x.c, fm, ino, path, st); LeftKidOk(x, p.fm, fm.name, p.left)
  {
    var p := PrepLink(x.c, fm, ino, path, st);
    LeftByRecord(x.c, fm, ino, path, st);
    if p.left != [] { KeptFile(x, p.fm, Kid(Escape(fm.name), File(ino))); }
  }

  lemma LeftByRecord(c: PrepConfig, fm: Fm, ino: nat, path: Path, st: PrepState)
    requires ino in st.inodes && FreshFm(fm, st.inodes[ino]) && PrepLink(c, fm, ino, path, st).Prepared?
    requires var i := st.inodes[ino]; i.kind.Reg? || i.kind.Lnk? || i.kind.Fifo?
    ensures var p := PrepLink(c, fm, ino, path, st);
            && p.fm.name == fm.name && !p.fm.kind.FDir? && (Stores(p.fm) <==> p.left != [])
            && (p.left != [] ==> p.left == [Kid(Escape(fm.name), File(ino))]
                                 && !st.inodes[ino].kind.Fifo? && !IsLarge(c, fm.name, st.inodes[ino]))
  {
  }

  lemma KeptFile(x: Context, fm: Fm, k: Kid)
    requires k.node.File? && k.name == Escape(fm.name) && Stores(fm) && !fm.kind.FDir?
    requires k.node.ino in x.inodes && Visible(x.inodes[k.node.ino]) && !IsLarge(x.c, fm.name, x.inodes[k.node.ino])
    ensures LeftKidOk(x, fm, fm.name, [k])
  {
    PruneOne(k);
    EscapeCompatible(fm.name);
    EscapeKeepsPickle(fm.name);
  }

  lemma LeftRpmFile(x: Context, name: Name, ino: nat, path: Path, st: PrepState)
    requires ino in x.inodes && AdmissibleFile(x, name, x.inodes[ino], path) && path != GIT_DIR && Tracks(x.inodes, st.inodes)
    requires PrepFile(x.c, name, ino, path, st).Prepared?
    ensures var p := PrepFile(x.c, name, ino, path, st); LeftKidOk(x, p.fm, name, p.left)
  {
    if RpmDb(path) {
      RpmGone(x.c, name, ino, path, st);
    } else {
      PrepFileLink(x.c, name, ino, path, st);
      WidenedTracks(x.inodes, st, ino);
      LeftStored(x, FileRecord(name, ChmodMin(st.inodes[ino])), ino, path, Widened(st, ino));
    }
  }

  lemma {:induction false} GitHasNone(fms: seq<Fm>, cs: seq<Kid>, inodes: map<nat, Inode>)
    requires GitHasAll(fms, cs, inodes)
    ensures cs == [] <==> !StoresAny(fms)
    decreases fms, 0
  {
    if fms != [] {
      var n, k := |fms| - 1, if Stores(fms[|fms| - 1]) then 1 else 0;
      GitHasNone(fms[..n], cs[..|cs| - k], inodes);
      assert fms == fms[..n] + [fms[n]];
      assert StoresAny(fms) <==> StoresAny(fms[..n]) || Stores(fms[n]);
    }
  }

  lemma LeftDir(x: Context, kid: Kid, ps: PreparedKids, p: Prepared)
    requires kid.node.Dir? && ps.PreparedKids? && p.Prepared? && LeftKidsOk(x, ps.fms, kid.node.kids, ps.left)
    requires p.fm.kind.FDir? && p.fm.name == kid.name && p.fm.children == ps.fms && PlainDirs(p.fm)
    requires if p.fm.EmptyDir() then p.left == []
             else |p.left| == 1 && p.left[0].name == Escape(kid.name) && p.left[0].node.Dir? && p.left[0].node.kids == ps.left
    ensures LeftKidOk(x, p.fm, kid.name, p.left)
  {
    GitHasNone(ps.fms, Prune(ps.left), x.inodes);
    EscapeCompatible(kid.name);
    if p.fm.EmptyDir() {
      EmptyStoresNot(p.fm);
    } else {
      assert p.left == [p.left[0]];
      PruneOne(p.left[0]);
    }
  }

  lemma {:induction false} LeftRpmKid(x: Context, kid: Kid, path: Path, st: PrepState, d: set<Path>)
    requires RpmKid(x, kid, path) && Tracks(x.inodes, st.inodes) && LinksIn(st, d)
    requires var p := PrepKid(x.c, kid, path, st); p.Prepared? && Grows(p.st.store, x.rc.store)
    ensures var p := PrepKid(x.c, kid, path, st); LeftKidOk(x, p.fm, kid.name, p.left)
    decreases kid.node, 1
  {
    match kid.node
    case File(ino) =>
      LeftRpmFile(x, kid.name, ino, path, st);
    case Dir(_, _, kids) =>
      var ps := PrepKids(x.c, kids, path, st);
      assert ps.PreparedKids?;
      LeftRpm(x, kids, path, st, d);
      PrepSoundKid(x, kid, path, st, d);
      LeftDir(x, kid, ps, PrepKid(x.c, kid, path, st));
  }

  lemma {:induction false} LeftRpm(x: Context, kids: seq<Kid>, path: Path, st: PrepState, d: set<Path>)
    requires RpmKids(x, kids, path) && Tracks(x.inodes, st.inodes) && LinksIn(st, d)
    requires var p := PrepKids(x.c, kids, path, st); p.PreparedKids? && Grows(p.st.store, x.rc.store)
    ensures var p := PrepKids(x.c, kids, path, st); LeftKidsOk(x, p.fms, kids, p.left)
    decreases kids, 0
  {
    if kids != [] {
      var n := |kids| - 1;
      var own := path + [kids[n].name];
      var p1 := PrepKids(x.c, kids[..n], path, st);
      var p2 := PrepKid(x.c, kids[n], own, p1.st);
      LargesStoredKid(x.c, kids[n], own, p1.st);
      GrowsTrans(p1.st.store, p2.st.store, x.rc.store);
      PrepSound(x, kids[..n], path, st, d);
      LeftRpm(x, kids[..n], path, st, d);
      LeftRpmKid(x, kids[n], own, p1.st, ReachedAll(p1.fms, path, d));
      LeftSnoc(x, kids, p1, p2);
    }
  }

  lemma LeftSnoc(x: Context, kids: seq<Kid>, p1: PreparedKids, p2: Prepared)
    requires kids != [] && p1.PreparedKids? && p2.Prepared? && LeftKidsOk(x, p1.fms, kids[..|kids| - 1], p1.left)
    requires LeftKidOk(x, p2.fm, kids[|kids| - 1].name, p2.left)
    requires forall i, j :: 0 <= i < j < |kids| ==> Escape(kids[i].name) != Escape(kids[j].name)
    ensures LeftKidsOk(x, p1.fms + [p2.fm], kids, p1.left + p2.left)
  {
    PruneSplit(p1.left, p2.left);
    NamedSnoc(Prune(p1.left), Prune(p2.left), kids);
    var fms, cs := p1.fms + [p2.fm], Prune(p1.left) + Prune(p2.left);
    assert fms[..|fms| - 1] == p1.fms;
    var k := if Stores(p2.fm) then 1 else 0;
    assert |Prune(p2.left)| == k;
    assert cs[..|cs| - k] == Prune(p1.left) && cs[|cs| - k..] == Prune(p2.left);
  }

  // ---------------------------------------------------------------------------
  // From the checkout

  lemma {:induction false} MatchGitHas(x: Context, fm: Fm, a: seq<Kid>, b: seq<Kid>, inodes: map<nat, Inode>)
    requires GitHas(fm, a, x.inodes) && MatchKids(x, a, b, inodes)
    ensures GitHas(fm, b, inodes)
    decreases fm, 1
  {
    if Stores(fm) {
      assert MatchKid(x, a[0], b[0], inodes);
      if fm.kind.FDir? { MatchGitHasAll(x, fm.children, a[0].node.kids, b[0].node.kids, inodes); }
    }
  }

  lemma {:induction false} MatchGitHasAll(x: Context, fms: seq<Fm>, a: seq<Kid>, b: seq<Kid>, inodes: map<nat, Inode>)
    requires GitHasAll(fms, a, x.inodes) && MatchKids(x, a, b, inodes)
    ensures GitHasAll(fms, b, inodes)
    decreases fms, 0
  {
    if fms != [] {
      var n, k := |fms| - 1, if Stores(fms[|fms| - 1]) then 1 else 0;
      var m := |a| - k;
      assert a == a[..m] + a[m..];
      SplitMatch(x, a[..m], a[m..], b, inodes);
      MatchGitHasAll(x, fms[..n], a[..m], b[..m], inodes);
      MatchGitHas(x, fms[n], a[m..], b[m..], inodes);
    }
  }

  lemma {:induction false} PruneInos(kids: seq<Kid>)
    ensures forall n :: n in InosKids(Prune(kids)) ==> n in InosKids(kids)
    decreases kids, 0
  {
    if kids != [] {
      var n := |kids| - 1;
      PruneInos(kids[..n]);
      PruneInosKid(kids[n]);
      InosSplit(Prune(kids[..n]), PruneKid(kids[n]));
    }
  }

  lemma {:induction false} PruneInosKid(k: Kid)
    ensures forall n :: n in InosKids(PruneKid(k)) ==> n in InosKid(k)
    decreases k.node, 1
  {
    if PruneKid(k) != [] { InosOne(PruneKid(k)[0]); }
    if k.node.Dir? { PruneInos(k.node.kids); }
  }

  /** A tree with RPM database files, otherwise as for `RoundTrip`, committed and checked
      out into a new work tree: the full restore fails if and only if some directory is
      hollow, that is (`HollowMeans`), holds an RPM database file and nothing that Git
      stores. Directories that are themselves called like RPM database files are
      ignored. */
  lemma RpmRestore(x: Context, kids: seq<Kid>, g: GitConfig, s: Inos)
    requires RpmKids(x, kids, []) && Prepare(x, kids).PreparedKids? && !x.rc.quick && Sane(s)
    requires Grows(Prepare(x, kids).st.store, x.rc.store)
    ensures var r := Switch(g, [], Committed(x, kids), false, [], s);
            Restore(x, kids, r.kids, RestState(r.s.inodes, r.s.next, map[])).Restored? <==>
              !AnyHollow(Prepare(x, kids).fms, [])
  {
    var p := Prepare(x, kids);
    var r := Switch(g, [], Committed(x, kids), false, [], s);
    PrepSound(x, kids, [], PrepState(x.inodes, map[], x.store), {});
    RpmCheckout(x, kids, g, s);
    assert r.kids + [] == r.kids;
    RestoreAllIff(x.rc, p.fms, [], r.kids, [], RestState(r.s.inodes, r.s.next, map[]), {});
  }

  /** What such a tree's commit gives in a new work tree. */
  lemma RpmCheckout(x: Context, kids: seq<Kid>, g: GitConfig, s: Inos)
    requires RpmKids(x, kids, []) && Prepare(x, kids).PreparedKids? && !x.rc.quick && Sane(s)
    requires Grows(Prepare(x, kids).st.store, x.rc.store)
    ensures var p, r := Prepare(x, kids), Switch(g, [], Committed(x, kids), false, [], s);
            KidsPut(x, Prune(p.left), r.kids, [], s, r.s) && GitHasAll(p.fms, r.kids, r.s.inodes)
  {
    var st, p := PrepState(x.inodes, map[], x.store), Prepare(x, kids);
    PrepSound(x, kids, [], st, {});
    LeftRpm(x, kids, [], st, {});
    StorePrune(p.st.inodes, p.left);
    SwitchMatches(x, g, Prune(p.left), p.st.inodes, [], false, [], s);
    var r := Switch(g, [], Committed(x, kids), false, [], s);
    MatchGitHasAll(x, p.fms, Prune(p.left), r.kids, r.s.inodes);
  }

  /** The files that are ignored are the RPM database files. */
  ghost predicate IgnoredAre(f: seq<Fm>, v: seq<Leaf>) {
    |f| == |v| && forall j :: 0 <= j < |f| ==> (f[j].dontRestore <==> RpmDb(v[j].path))
  }

  lemma IgnoredSnoc(f: seq<Fm>, f': seq<Fm>, v: seq<Leaf>, v': seq<Leaf>)
    requires IgnoredAre(f, v) && IgnoredAre(f', v')
    ensures IgnoredAre(f + f', v + v')
  {
  }

  lemma IgnoredFile(x: Context, name: Name, ino: nat, path: Path, st: PrepState)
    requires ino in x.inodes && AdmissibleFile(x, name, x.inodes[ino], path) && path != GIT_DIR && Tracks(x.inodes, st.inodes)
    requires PrepFile(x.c, name, ino, path, st).Prepared?
    ensures IgnoredAre(FlatFm(PrepFile(x.c, name, ino, path, st).fm), [Leaf(path, ino)])
  {
    if RpmDb(path) {
      RpmGone(x.c, name, ino, path, st);
    } else {
      PrepFileLink(x.c, name, ino, path, st);
      WidenedTracks(x.inodes, st, ino);
      PrepLinkOk(x, FileRecord(name, ChmodMin(st.inodes[ino])), ino, path, Widened(st, ino));
    }
  }

  lemma {:induction false} IgnoredKid(x: Context, kid: Kid, path: Path, st: PrepState)
    requires RpmKid(x, kid, path) && Tracks(x.inodes, st.inodes) && PrepKid(x.c, kid, path, st).Prepared?
    ensures var p := PrepKid(x.c, kid, path, st);
            Tracks(x.inodes, p.st.inodes) && IgnoredAre(FlatFm(p.fm), LeavesKid(kid, path))
    decreases kid.node, 1
  {
    match kid.node
    case File(ino) =>
      FileTracks(x, kid.name, ino, path, st);
      IgnoredFile(x, kid.name, ino, path, st);
    case Dir(_, _, kids) =>
      Ignored(x, kids, path, st);
  }

  lemma {:induction false} Ignored(x: Context, kids: seq<Kid>, path: Path, st: PrepState)
    requires RpmKids(x, kids, path) && Tracks(x.inodes, st.inodes) && PrepKids(x.c, kids, path, st).PreparedKids?
    ensures var p := PrepKids(x.c, kids, path, st);
            Tracks(x.inodes, p.st.inodes) && IgnoredAre(Flat(p.fms), LeavesKids(kids, path))
    decreases kids, 0
  {
    if kids != [] {
      var n := |kids| - 1;
      Ignored(x, kids[..n], path, st);
      var p1 := PrepKids(x.c, kids[..n], path, st);
      var p2 := PrepKid(x.c, kids[n], path + [kids[n].name], p1.st);
      IgnoredKid(x, kids[n], path + [kids[n].name], p1.st);
      FlatSnoc(p1.fms, p2.fm);
      IgnoredSnoc(Flat(p1.fms), FlatFm(p2.fm), LeavesKids(kids[..n], path), LeavesKid(kids[n], path + [kids[n].name]));
    }
  }
}
