/**
  Where preparing and restoring do not give the tree back: the inputs that the
  preconditions of `RoundTrip` leave out, each with what the code then does.
 */
module PrepareEdges {
  import opened FileMetadata
  import opened RoundTrip
  import opened Records
  import GitTree

  /** A file moved out of band cannot also be renamed: preparing a regular file fails exactly
      when it is large, its name is special to Git and it is not recorded as a link. */
  lemma LargeSpecialName(c: PrepConfig, name: Name, ino: nat, path: Path, st: PrepState)
    requires ino in st.inodes && st.inodes[ino].kind.Reg? && path != GIT_DIR && !RpmDb(path)
    ensures PrepFile(c, name, ino, path, st).PrepErr? <==>
              && |st.inodes[ino].kind.content| >= c.threshold && ".git" <= name
              && (st.inodes[ino].nlink > 1 ==> ino !in st.hardlinks)
    ensures PrepFile(c, name, ino, path, st).PrepErr? ==> PrepFile(c, name, ino, path, st).error == NoSuchFile
  {
    PrepFileLink(c, name, ino, path, st);
    EscapeKeepsPickle(name);
  }

  predicate AllRpmDb(kids: seq<Kid>, path: Path) {
    forall i :: 0 <= i < |kids| ==> RpmDb(path + [kids[i].name]) && kids[i].node.File?
  }

  predicate AllIgnored(fms: seq<Fm>) {
    forall i :: 0 <= i < |fms| ==> fms[i].dontRestore && !fms[i].Unstored() && !fms[i].EmptyDir()
  }

  lemma {:induction false} RpmKids(c: PrepConfig, kids: seq<Kid>, path: Path, st: PrepState)
    requires AllRpmDb(kids, path)
    requires forall i :: 0 <= i < |kids| ==> kids[i].node.ino in st.inodes && st.inodes[kids[i].node.ino].kind.Reg?
    ensures var p := PrepKids(c, kids, path, st);
            && p.PreparedKids? && p.left == [] && |p.fms| == |kids| && AllIgnored(p.fms)
            && p.st.inodes.Keys == st.inodes.Keys
            && forall n :: n in st.inodes ==> p.st.inodes[n].kind == st.inodes[n].kind
  {
    if kids != [] { RpmKids(c, kids[..|kids| - 1], path, st); }
  }

  /** A directory of RPM database files only: preparing deletes them all and yet
      does not count the directory as empty, so it stays, empty, where Git ignores it. */
  lemma RpmDirectory(c: PrepConfig, kid: Kid, path: Path, st: PrepState)
    requires kid.node.Dir? && kid.node.kids != [] && path != GIT_DIR && AllRpmDb(kid.node.kids, path)
    requires forall i :: 0 <= i < |kid.node.kids| ==>
               kid.node.kids[i].node.ino in st.inodes && st.inodes[kid.node.kids[i].node.ino].kind.Reg?
    ensures var p := PrepKid(c, kid, path, st);
            && p.Prepared? && !p.fm.EmptyDir()
            && |p.left| == 1 && p.left[0].node.Dir? && p.left[0].node.kids == []
  {
    RpmKids(c, kid.node.kids, path, st);
    var fms := PrepKids(c, kid.node.kids, path, st).fms;
    assert !fms[0].Unstored() && !fms[0].EmptyDir();
  }

  /** After a checkout, which has no such directory, restoring it fails. */
  lemma RpmDirectoryFails(c: PrepConfig, rc: RestConfig, kid: Kid, path: Path, st: PrepState, rs: RestState)
    requires kid.node.Dir? && kid.node.kids != [] && path != GIT_DIR && AllRpmDb(kid.node.kids, path)
    requires !RpmDb(path) && path != []
    requires forall i :: 0 <= i < |kid.node.kids| ==>
               kid.node.kids[i].node.ino in st.inodes && st.inodes[kid.node.kids[i].node.ino].kind.Reg?
    ensures PrepKid(c, kid, path, st).Prepared?
    ensures RestoreKid(rc, PrepKid(c, kid, path, st).fm, path, [], rs) == RestErr(NoSuchFile)
  {
    RpmDirectory(c, kid, path, st);
    RpmKids(c, kid.node.kids, path, st);
    var fm := PrepKid(c, kid, path, st).fm;
    assert fm.children != [] && !fm.Unstored() && !fm.dontRestore;
    assert !Has([], fm.name) && !Has([], Escape(fm.name));
  }

  lemma TwoNamed(l: Leaf, m: Leaf)
    requires l.ino == m.ino
    ensures Count([l, m], l.ino) == 2 && First([l, m], l.ino) == 0
  {
    Extend([], l, l.ino);
    Extend([l], m, l.ino);
    assert [] + [l] == [l] && [l] + [m] == [l, m];
  }

  lemma PairAdmissible(x: Context, kids: seq<Kid>, i: Inode)
    requires |kids| == 2 && kids[0].node == File(0) && kids[1].node == File(0)
    requires Escape(kids[0].name) != Escape(kids[1].name)
    requires x.inodes == map[0 := i] && (i.kind.Fifo? || i.kind.Reg?) && i.nlink == 2
    requires i.kind.Reg? ==> StoreAgrees(x.store, i, [kids[0].name]) && StoreAgrees(x.store, i, [kids[1].name])
    ensures AdmissibleKids(x, kids, [])
  {
    forall k | 0 <= k < 2 ensures AdmissibleKid(x, kids[k], [] + [kids[k].name]) {
      assert [] + [kids[k].name] == [kids[k].name];
    }
  }

  /** Two names of one FIFO, in an admissible tree: they come back as two FIFOs. */
  lemma FifoPair(x: Context, a: Name, b: Name, i: Inode)
    requires GitCompatible(a) && GitCompatible(b) && a != b
    requires x.inodes == map[0 := i] && i.kind.Fifo? && i.nlink == 2
    ensures var kids := [Kid(a, File(0)), Kid(b, File(0))];
            && Admissible(x, kids) && Known(x, LeavesKids(kids, [])) && !LinksSafe(x, LeavesKids(kids, []))
  {
    var kids := [Kid(a, File(0)), Kid(b, File(0))];
    TwoLeaves(a, b);
    PairAdmissible(x, kids, i);
    FifoRisk(x, kids, Leaf([a], 0), Leaf([b], 0), i);
  }

  lemma FifoRisk(x: Context, kids: seq<Kid>, l: Leaf, m: Leaf, i: Inode)
    requires LeavesKids(kids, []) == [l, m] && l.ino == m.ino == 0 && l.path != [] && m.path != []
    requires AdmissibleKids(x, kids, []) && x.inodes == map[0 := i] && i.kind.Fifo? && i.nlink == 2
    ensures Admissible(x, kids) && Known(x, LeavesKids(kids, [])) && !LinksSafe(x, LeavesKids(kids, []))
  {
    TwoNamed(l, m);
    assert GroupAtRisk(x, [l, m], 0);
  }

  lemma TwoLeaves(a: Name, b: Name)
    ensures LeavesKids([Kid(a, File(0)), Kid(b, File(0))], []) == [Leaf([a], 0), Leaf([b], 0)]
  {
    var kids := [Kid(a, File(0)), Kid(b, File(0))];
    assert kids[..1] == [Kid(a, File(0))] && kids[..1][..0] == [];
    assert [] + [a] == [a] && [] + [b] == [b];
    assert LeavesKids(kids[..1], []) == [Leaf([a], 0)];
  }

  predicate LargeTwice(x: Context, a: Name, b: Name, i: Inode) {
    && GitCompatible(a) && Escape(a) != Escape(b) && a != PICKLE_NAME
    && x.inodes == map[0 := i] && i.kind.Reg? && |i.kind.content| >= x.c.threshold && i.nlink == 2
    && StoreAgrees(x.store, i, [a]) && StoreAgrees(x.store, i, [b])
    && (GitCompatible(b) || LargeNameOf(ChmodMin(i), [a]) !in x.store)
  }

  lemma PairPrepares(x: Context, a: Name, b: Name, i: Inode)
    requires LargeTwice(x, a, b, i)
    ensures var kids, v := [Kid(a, File(0)), Kid(b, File(0))], [Leaf([a], 0), Leaf([b], 0)];
            && Admissible(x, kids) && Prepare(x, kids).PreparedKids? && LeavesKids(kids, []) == v && Known(x, v)
            && Rep(x, v, 0) == 0 && (Rep(x, v, 1) == if LargeNameOf(ChmodMin(i), [a]) in x.store then 1 else 0)
  {
    var kids, v := [Kid(a, File(0)), Kid(b, File(0))], [Leaf([a], 0), Leaf([b], 0)];
    TwoLeaves(a, b);
    TwoNamed(v[0], v[1]);
    PairAdmissible(x, kids, i);
    assert CountsOk(x, v);
    PreparedIsClean(x, kids);
    PairReps(x, v, i);
  }

  lemma PairReps(x: Context, v: seq<Leaf>, i: Inode)
    requires |v| == 2 && Known(x, v) && v[0].ino == v[1].ino == 0 && First(v, 0) == 0 && Count(v, 0) == 2
    requires x.inodes == map[0 := i] && i.nlink == 2 && IsLarge(x.c, v[0].path[|v[0].path| - 1], i)
    ensures Rep(x, v, 0) == 0
    ensures Rep(x, v, 1) == if LargeNameOf(ChmodMin(i), v[0].path) in x.store then 1 else 0
  {
    assert v[..2] == v;
  }

  /** Two names of one large file. As long as the store does not have it, the second is
      recorded as a link to the first; once it does, as it does after the first commit,
      the second is a large file of its own, and so the next walk's record is another. */
  lemma LargePair(x: Context, a: Name, b: Name, i: Inode)
    requires LargeTwice(x, a, b, i) && b != PICKLE_NAME
    ensures var kids := [Kid(a, File(0)), Kid(b, File(0))];
            var p, v := Prepare(x, kids), LeavesKids(kids, []);
            && Admissible(x, kids) && p.PreparedKids? && Known(x, v) && |Flat(p.fms)| == 2
            && (if LargeNameOf(ChmodMin(i), [a]) in x.store
                then Flat(p.fms)[1].hardlinkTo == None && Flat(p.fms)[1].largeName == Some(LargeNameOf(ChmodMin(i), [b]))
                else Flat(p.fms)[1].hardlinkTo == Some([a]) && !LinksPlain(x, v))
  {
    var kids, v := [Kid(a, File(0)), Kid(b, File(0))], [Leaf([a], 0), Leaf([b], 0)];
    PairPrepares(x, a, b, i);
    RecordIs(x, kids);
    assert Rep(x, v, 1) == 0 ==> !PlainLink(x, v, 1);
  }

  /** The same pair with any second name. If that is special to Git then the first commit
      succeeds, and no other once the image has been restored. If it is git.pickle then the
      next commit stores a file that the first did not. */
  lemma LargePairAgain(x: Context, a: Name, b: Name, i: Inode)
    requires LargeTwice(x, a, b, i) && LargeNameOf(ChmodMin(i), [a]) !in x.store
    ensures var kids, v := [Kid(a, File(0)), Kid(b, File(0))], LeavesKids([Kid(a, File(0)), Kid(b, File(0))], []);
            && Admissible(x, kids) && Prepare(x, kids).PreparedKids? && Known(x, v) && |v| == 2
            && (BlockedLink(x, v, 1) <==> !GitCompatible(b)) && (GitTree.PickleLink(x, v, 1) <==> b == PICKLE_NAME)
  {
    PairPrepares(x, a, b, i);
    PairLinks(x, [Leaf([a], 0), Leaf([b], 0)], i);
  }

  lemma PairLinks(x: Context, v: seq<Leaf>, i: Inode)
    requires |v| == 2 && Known(x, v) && v[0].ino == v[1].ino == 0 && Rep(x, v, 0) == Rep(x, v, 1) == 0
    requires x.inodes == map[0 := i] && i.kind.Reg? && |i.kind.content| >= x.c.threshold && BaseName(v[0]) != PICKLE_NAME
    ensures BlockedLink(x, v, 1) <==> !GitCompatible(BaseName(v[1]))
    ensures GitTree.PickleLink(x, v, 1) <==> BaseName(v[1]) == PICKLE_NAME
  {
    assert LastLink(x, v, 1);
    EscapeKeepsPickle(BaseName(v[1]));
  }
}
