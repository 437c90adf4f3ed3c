/**
  What preparing and restoring do together: after a commit (quick restore) and
  after a checkout (full restore) the tree is the original one. Types, contents,
  names, modes, times, empty directories, FIFOs and large files always come back
  (`RoundTrip`); hard link groups come back exactly if no group is entirely in
  the tree and loses its first link while preparing (`LinksRoundTrip`). What is
  on disk in between is a hypothesis here, and proved in `GitTree`.
 */
module RoundTrip {
  import opened FileMetadata

  // ---------------------------------------------------------------------------
  // Files of a tree, in the order of the walk

  datatype Leaf = Leaf(path: Path, ino: nat)

  function LeavesKid(kid: Kid, path: Path): seq<Leaf>
    decreases kid.node, 1
  {
    match kid.node
    case File(ino) => [Leaf(path, ino)]
    case Dir(_, _, kids) => LeavesKids(kids, path)
  }

  function LeavesKids(kids: seq<Kid>, path: Path): seq<Leaf>
    decreases kids, 0
  {
    if kids == [] then []
    else
      var n := |kids| - 1;
      LeavesKids(kids[..n], path) + LeavesKid(kids[n], path + [kids[n].name])
  }

  /** The inode numbers alone. */
  function InosKid(kid: Kid): seq<nat>
    decreases kid.node, 1
  {
    match kid.node
    case File(ino) => [ino]
    case Dir(_, _, kids) => InosKids(kids)
  }

  function InosKids(kids: seq<Kid>): seq<nat>
    decreases kids, 0
  {
    if kids == [] then [] else InosKids(kids[..|kids| - 1]) + InosKid(kids[|kids| - 1])
  }

  /** How many of the leaves are names of inode `x`. */
  function Count(v: seq<Leaf>, x: nat): nat {
    if v == [] then 0 else Count(v[..|v| - 1], x) + (if v[|v| - 1].ino == x then 1 else 0)
  }

  /** The index of the first name of inode `x`, or |v|. */
  function First(v: seq<Leaf>, x: nat): (f: nat)
    ensures f <= |v|
    ensures f < |v| ==> v[f].ino == x
  {
    if v == [] then 0
    else
      var n := |v| - 1;
      var f := First(v[..n], x);
      if f < n then f else if v[n].ino == x then n else n + 1
  }

  lemma Extend(v: seq<Leaf>, l: Leaf, x: nat)
    ensures Count(v + [l], x) == Count(v, x) + (if l.ino == x then 1 else 0)
    ensures First(v + [l], x)
         == if First(v, x) < |v| then First(v, x) else if l.ino == x then |v| else |v| + 1
  {
    assert (v + [l])[..|v|] == v;
  }

  lemma {:induction false} FirstIsFirst(v: seq<Leaf>, x: nat)
    ensures forall i :: 0 <= i < First(v, x) ==> v[i].ino != x
    ensures Count(v, x) > 0 <==> First(v, x) < |v|
    ensures Count(v, x) <= |v|
  {
    if v != [] {
      FirstIsFirst(v[..|v| - 1], x);
    }
  }

  // ---------------------------------------------------------------------------
  // When a link is lost

  /** What is fixed during one prepare and restore: the two configurations, and
      the inodes and the large file store before preparing. */
  datatype Context = Context(c: PrepConfig, rc: RestConfig, inodes: map<nat, Inode>, store: Store)

  predicate KnownLeaf(x: Context, l: Leaf) { l.ino in x.inodes && l.path != [] }

  /** Preparing deletes the first link to a FIFO, and the first link to a large
      file that is already in the store. It moves or keeps any other first link. */
  predicate Deletes(x: Context, l: Leaf)
    requires KnownLeaf(x, l)
  {
    var i := x.inodes[l.ino];
    || i.kind.Fifo?
    || (IsLarge(x.c, l.path[|l.path| - 1], i) && LargeNameOf(ChmodMin(i), l.path) in x.store)
  }

  /** A file that preparing deletes or moves away: it comes back as a new one. */
  predicate Special(x: Context, l: Leaf)
    requires KnownLeaf(x, l)
  {
    x.inodes[l.ino].kind.Fifo? || IsLarge(x.c, l.path[|l.path| - 1], x.inodes[l.ino])
  }

  predicate Known(x: Context, v: seq<Leaf>) {
    forall i :: 0 <= i < |v| ==> KnownLeaf(x, v[i])
  }

  predicate FirstDeleted(x: Context, v: seq<Leaf>, ino: nat)
    requires Known(x, v)
  {
    First(v, ino) < |v| && Deletes(x, v[First(v, ino)])
  }

  /** Leaf `j` is the last of all the names of a file whose first was deleted. It
      then looks like a file with one name, and is not recorded as a link. */
  predicate Lost(x: Context, v: seq<Leaf>, j: nat)
    requires Known(x, v) && j < |v|
  {
    var ino := v[j].ino;
    && First(v, ino) < j
    && Count(v[..j + 1], ino) == x.inodes[ino].nlink
    && FirstDeleted(x, v, ino)
  }

  /** The leaf whose inode leaf `j` gets. */
  function Rep(x: Context, v: seq<Leaf>, j: nat): nat
    requires Known(x, v) && j < |v|
  {
    if Lost(x, v, j) then j else First(v, v[j].ino)
  }

  lemma RepStable(x: Context, v: seq<Leaf>, l: Leaf, j: nat)
    requires Known(x, v + [l]) && j < |v|
    ensures Known(x, v) && Rep(x, v + [l], j) == Rep(x, v, j) <= j
    ensures v[Rep(x, v, j)].ino == v[j].ino
  {
    assert forall i :: 0 <= i < |v| ==> v[i] == (v + [l])[i];
    Extend(v, l, v[j].ino);
    FirstIsFirst(v, v[j].ino);
    assert (v + [l])[..j + 1] == v[..j + 1];
  }

  lemma {:induction false} RepStableAll(x: Context, v: seq<Leaf>, w: seq<Leaf>, j: nat)
    requires Known(x, v + w) && j < |v|
    ensures Known(x, v) && Rep(x, v + w, j) == Rep(x, v, j)
    decreases |w|
  {
    if w == [] {
      assert v + w == v;
    } else {
      var m := |w| - 1;
      assert v + w == (v + w[..m]) + [w[m]];
      RepStable(x, v + w[..m], w[m], j);
      RepStableAll(x, v, w[..m], j);
    }
  }

  /** A large file that is not recorded as a link, and has a name special to Git: it
      is moved away, and then cannot be renamed. */
  predicate Blocked(x: Context, v: seq<Leaf>, j: nat)
    requires Known(x, v) && j < |v|
  {
    var name := v[j].path[|v[j].path| - 1];
    Rep(x, v, j) == j && IsLarge(x.c, name, x.inodes[v[j].ino]) && !GitCompatible(name)
  }

  ghost predicate Clear(x: Context, v: seq<Leaf>, from: nat) {
    Known(x, v) && forall j {:trigger Blocked(x, v, j)} :: from <= j < |v| ==> !Blocked(x, v, j)
  }

  lemma ClearSplit(x: Context, v: seq<Leaf>, w: seq<Leaf>, from: nat)
    requires from <= |v|
    ensures Clear(x, v + w, from) <==> Clear(x, v, from) && Clear(x, v + w, |v|)
  {
    if Known(x, v + w) {
      assert forall i :: 0 <= i < |v| ==> v[i] == (v + w)[i];
      forall j | 0 <= j < |v| ensures Blocked(x, v + w, j) == Blocked(x, v, j) { RepStableAll(x, v, w, j); }
    }
  }

  // ---------------------------------------------------------------------------
  // Preconditions

  /** A tree the round trip is promised for: no devices, sockets or RPM database
      files; `ch/git` is outside; no two siblings with the same escaped name. */
  predicate AdmissibleKid(x: Context, kid: Kid, path: Path)
    decreases kid.node, 1
  {
    && AdmissiblePath(path, kid.name)
    && match kid.node
       case File(ino) => ino in x.inodes && AdmissibleFile(x, kid.name, x.inodes[ino], path)
       case Dir(_, _, kids) => AdmissibleKids(x, kids, path)
  }

  predicate AdmissiblePath(path: Path, name: Name) {
    path != GIT_DIR && !RpmDb(path) && path != [] && path[|path| - 1] == name
  }

  predicate AdmissibleFile(x: Context, name: Name, i: Inode, path: Path) {
    && (i.kind.Reg? || i.kind.Lnk? || i.kind.Fifo?)
    && i.nlink > 0
    && (IsLarge(x.c, name, i) ==> StoreAgrees(x.store, i, path))
  }

  predicate AdmissibleKids(x: Context, kids: seq<Kid>, path: Path)
    decreases kids, 0
  {
    && (forall i :: 0 <= i < |kids| ==> AdmissibleKid(x, kids[i], path + [kids[i].name]))
    && (forall i, j :: 0 <= i < j < |kids| ==> Escape(kids[i].name) != Escape(kids[j].name))
  }

  /** The large name determines the file. */
  predicate StoreAgrees(store: Store, i: Inode, path: Path) {
    var ln := LargeNameOf(ChmodMin(i), path);
    ln in store ==> store[ln].kind == i.kind && store[ln].perm == ln.perm && store[ln].mtime == ln.mtime
  }

  /** Every name in the tree is counted in its inode's link count. */
  ghost predicate CountsOk(x: Context, v: seq<Leaf>) {
    forall ino :: ino in x.inodes ==> Count(v, ino) <= x.inodes[ino].nlink
  }

  // ---------------------------------------------------------------------------
  // Preparing

  /** Preparing changes only permissions and link counts of inodes. */
  ghost predicate Tracks(i0: map<nat, Inode>, i1: map<nat, Inode>) {
    && i0.Keys == i1.Keys
    && forall n :: n in i0 ==>
         && i1[n].kind == i0[n].kind && i1[n].mtime == i0[n].mtime
         && ChmodMin(i1[n]).perm == ChmodMin(i0[n]).perm
  }

  ghost predicate Grows(s0: Store, s1: Store) {
    forall ln :: ln in s0 ==> ln in s1 && s1[ln] == s0[ln]
  }

  /** Nothing is left on disk of what this records. */
  predicate Gone(fm: Fm) { fm.Unstored() || fm.EmptyDir() }

  predicate AllGone(fms: seq<Fm>) { forall i :: 0 <= i < |fms| ==> Gone(fms[i]) }

  lemma AllGoneSplit(fms: seq<Fm>, fm: Fm)
    ensures AllGone(fms + [fm]) <==> AllGone(fms) && Gone(fm)
  {
    assert (fms + [fm])[|fms|] == fm;
    assert forall i :: 0 <= i < |fms| ==> (fms + [fm])[i] == fms[i];
  }

  /** Preparing has succeeded, and leaves nothing of exactly those files and directory
      trees that the record can restore without Git. */
  ghost predicate PreparedOk(x: Context, kid: Kid, st: PrepState, p: Prepared) {
    && p.Prepared? && p.fm.name == kid.name && !p.fm.dontRestore
    && (kid.node.Dir? <==> p.fm.kind.FDir?)
    && (p.left == [] <==> Gone(p.fm))
    && (p.left != [] ==> |p.left| == 1 && p.left[0].name == Escape(kid.name) && p.left[0].node.Dir? == kid.node.Dir?)
    && Tracks(x.inodes, p.st.inodes) && Grows(st.store, p.st.store)
  }

  ghost predicate PreparedKidsOk(x: Context, kids: seq<Kid>, st: PrepState, p: PreparedKids) {
    && p.PreparedKids? && |p.fms| == |kids|
    && (p.left == [] <==> AllGone(p.fms))
    && Tracks(x.inodes, p.st.inodes) && Grows(st.store, p.st.store)
  }

  lemma UnlinkTracks(i0: map<nat, Inode>, st: PrepState, ino: nat)
    requires Tracks(i0, st.inodes) && ino in st.inodes
    ensures Tracks(i0, Unlink(st, ino).inodes)
  {
  }

  lemma PrepStoredOk(x: Context, fm: Fm, ino: nat, path: Path, st: PrepState)
    requires Tracks(x.inodes, st.inodes) && ino in x.inodes
    requires AdmissibleFile(x, fm.name, x.inodes[ino], path) && FreshFm(fm, x.inodes[ino])
    ensures var p := PrepStored(x.c, fm, ino, path, st); p.Prepared? ==> PreparedOk(x, Kid(fm.name, File(ino)), st, p)
  {
    UnlinkTracks(x.inodes, st, ino);
  }

  /** A file's record before anything is decided. */
  predicate FreshFm(fm: Fm, i: Inode) {
    && fm.kind == KindOf(i.kind) && fm.children == []
    && !fm.dontRestore && fm.hardlinkTo.None? && fm.largeName.None?
  }

  lemma PrepLinkOk(x: Context, fm: Fm, ino: nat, path: Path, st: PrepState)
    requires Tracks(x.inodes, st.inodes) && ino in x.inodes
    requires AdmissibleFile(x, fm.name, x.inodes[ino], path) && FreshFm(fm, x.inodes[ino])
    ensures var p := PrepLink(x.c, fm, ino, path, st); p.Prepared? ==> PreparedOk(x, Kid(fm.name, File(ino)), st, p)
  {
    if st.inodes[ino].nlink <= 1 {
      PrepStoredOk(x, fm, ino, path, st);
    } else if ino in st.hardlinks {
      UnlinkTracks(x.inodes, st, ino);
    } else {
      PrepStoredOk(x, fm, ino, path, st.(hardlinks := st.hardlinks[ino := path]));
    }
  }

  /** An ordinary file's record before anything is decided, and the state. */
  function FileRecord(name: Name, i: Inode): Fm {
    Fm(name, KindOf(i.kind), i.perm, i.mtime, Size(i.kind), [], false, None, None)
  }

  function Widened(st: PrepState, ino: nat): PrepState
    requires ino in st.inodes
  {
    st.(inodes := st.inodes[ino := ChmodMin(st.inodes[ino])])
  }

  lemma PrepFileLink(c: PrepConfig, name: Name, ino: nat, path: Path, st: PrepState)
    requires ino in st.inodes && path != GIT_DIR && !RpmDb(path)
    requires !st.inodes[ino].kind.Dev? && !st.inodes[ino].kind.Sock?
    ensures PrepFile(c, name, ino, path, st)
         == PrepLink(c, FileRecord(name, ChmodMin(st.inodes[ino])), ino, path, Widened(st, ino))
  {
  }

  lemma WidenedTracks(i0: map<nat, Inode>, st: PrepState, ino: nat)
    requires Tracks(i0, st.inodes) && ino in st.inodes
    ensures Tracks(i0, Widened(st, ino).inodes)
  {
  }

  lemma PrepFileOk(x: Context, name: Name, ino: nat, path: Path, st: PrepState)
    requires Tracks(x.inodes, st.inodes) && ino in x.inodes
    requires AdmissiblePath(path, name) && AdmissibleFile(x, name, x.inodes[ino], path)
    ensures var p := PrepFile(x.c, name, ino, path, st); p.Prepared? ==> PreparedOk(x, Kid(name, File(ino)), st, p)
  {
    PrepFileLink(x.c, name, ino, path, st);
    WidenedTracks(x.inodes, st, ino);
    PrepLinkOk(x, FileRecord(name, ChmodMin(st.inodes[ino])), ino, path, Widened(st, ino));
  }

  lemma {:induction false} PrepKidOk(x: Context, kid: Kid, path: Path, st: PrepState)
    requires AdmissibleKid(x, kid, path) && Tracks(x.inodes, st.inodes)
    ensures var p := PrepKid(x.c, kid, path, st); p.Prepared? ==> PreparedOk(x, kid, st, p)
    decreases kid.node, 1
  {
    match kid.node
    case File(ino) => PrepFileOk(x, kid.name, ino, path, st);
    case Dir(_, _, kids) =>
      PrepKidsOk(x, kids, path, st);
      var p := PrepKids(x.c, kids, path, st);
      if p.PreparedKids? { assert kid.node.Dir? && PrepKid(x.c, kid, path, st).fm.children == p.fms; }
  }

  lemma {:induction false} PrepKidsOk(x: Context, kids: seq<Kid>, path: Path, st: PrepState)
    requires AdmissibleKids(x, kids, path) && Tracks(x.inodes, st.inodes)
    ensures var p := PrepKids(x.c, kids, path, st); p.PreparedKids? ==> PreparedKidsOk(x, kids, st, p)
    decreases kids, 0
  {
    if kids != [] {
      var n := |kids| - 1;
      AdmissibleInit(x, kids, path);
      PrepKidsOk(x, kids[..n], path, st);
      var p := PrepKids(x.c, kids[..n], path, st);
      if p.PreparedKids? {
        PrepKidOk(x, kids[n], path + [kids[n].name], p.st);
        var q := PrepKid(x.c, kids[n], path + [kids[n].name], p.st);
        if q.Prepared? { AllGoneSplit(p.fms, q.fm); }
      }
    }
  }

  lemma AdmissibleInit(x: Context, kids: seq<Kid>, path: Path)
    requires AdmissibleKids(x, kids, path) && kids != []
    ensures AdmissibleKids(x, kids[..|kids| - 1], path)
    ensures AdmissibleKid(x, kids[|kids| - 1], path + [kids[|kids| - 1].name])
  {
  }

  // ---------------------------------------------------------------------------
  // The invariant of preparing and restoring, run side by side. `v0` and `v1` are
  // the files walked so far, with their inodes before and after.

  /** The restored file is the original one, up to chmod_min. Symbolic links always keep
      their target, but their mode and times only in a quick restore. */
  predicate Same(quick: bool, i0: Inode, i1: Inode) {
    && i1.kind == i0.kind
    && (quick || !i0.kind.Lnk? ==> i1.perm == ChmodMin(i0).perm && i1.mtime == i0.mtime)
  }

  ghost predicate Lists(x: Context, v0: seq<Leaf>, v1: seq<Leaf>) {
    |v0| == |v1| && Known(x, v0) && forall i :: 0 <= i < |v0| ==> v1[i].path == v0[i].path
  }

  /** Link counts while preparing, and who is in the `hardlinks` dictionary. */
  ghost predicate NlinkOk(x: Context, v0: seq<Leaf>, st: PrepState, n: nat)
    requires Known(x, v0) && n in x.inodes && n in st.inodes
  {
    var c, nlink := Count(v0, n), x.inodes[n].nlink;
    && (c == 0 ==> st.inodes[n].nlink == nlink && n !in st.hardlinks)
    && (0 < c < nlink ==>
          && n in st.hardlinks
          && st.inodes[n].nlink == nlink - (if FirstDeleted(x, v0, n) then 1 else 0) - (c - 1))
  }

  ghost predicate NlinksOk(x: Context, v0: seq<Leaf>, st: PrepState)
    requires Known(x, v0) && Tracks(x.inodes, st.inodes)
  {
    forall n {:trigger NlinkOk(x, v0, st, n)} :: n in x.inodes ==> NlinkOk(x, v0, st, n)
  }

  /** The dictionary's paths lead to the restored first links. */
  ghost predicate LinkOk(v0: seq<Leaf>, v1: seq<Leaf>, st: PrepState, rs: RestState, n: nat)
    requires |v0| == |v1| && n in st.hardlinks
  {
    var f := First(v0, n);
    f < |v0| && st.hardlinks[n] == v0[f].path && v0[f].path in rs.done && rs.done[v0[f].path] == v1[f].ino
  }

  ghost predicate LinksOk(v0: seq<Leaf>, v1: seq<Leaf>, st: PrepState, rs: RestState)
    requires |v0| == |v1|
  {
    forall n {:trigger LinkOk(v0, v1, st, rs, n)} :: n in st.hardlinks ==> LinkOk(v0, v1, st, rs, n)
  }

  ghost function Reps(x: Context, v: seq<Leaf>): (r: seq<nat>)
    requires Known(x, v)
    ensures |r| == |v|
  {
    seq(|v|, j requires 0 <= j < |v| => Rep(x, v, j))
  }

  /** Files share an inode exactly if they have the same representative. */
  ghost predicate Share(r: seq<nat>, v: seq<Leaf>) {
    |r| == |v| && forall i, j :: 0 <= i < |r| && 0 <= j < |r| ==> (v[i].ino == v[j].ino <==> r[i] == r[j])
  }

  ghost predicate FilesOk(x: Context, v0: seq<Leaf>, v1: seq<Leaf>, rs: RestState)
    requires Lists(x, v0, v1)
  {
    && (forall i :: 0 <= i < |v1| ==> v1[i].ino in rs.inodes && Same(x.rc.quick, x.inodes[v0[i].ino], rs.inodes[v1[i].ino]))
    && (forall i :: 0 <= i < |v1| ==> v1[i].path in rs.done && rs.done[v1[i].path] == v1[i].ino)
    && (forall n :: n in rs.inodes ==> n < rs.next)
  }

  /** Link counts after restoring: no fewer than the names, and no more for a file that
      is new. */
  ghost predicate NameOk(x: Context, v0: seq<Leaf>, v1: seq<Leaf>, rs: RestState, y: nat)
    requires |v0| == |v1| && Known(x, v0)
  {
    var f := First(v1, y);
    Count(v1, y) > 0 ==>
      && f < |v1| && y in rs.inodes && Count(v1, y) <= rs.inodes[y].nlink
      && (Special(x, v0[f]) ==> Count(v1, y) == rs.inodes[y].nlink)
  }

  ghost predicate NamesOk(x: Context, v0: seq<Leaf>, v1: seq<Leaf>, rs: RestState)
    requires |v0| == |v1| && Known(x, v0)
  {
    forall y {:trigger NameOk(x, v0, v1, rs, y)} :: NameOk(x, v0, v1, rs, y)
  }

  ghost predicate Visited(v0: seq<Leaf>, p: Path) { exists i :: 0 <= i < |v0| && v0[i].path == p }

  ghost predicate StoreOk(x: Context, v0: seq<Leaf>, st: PrepState) {
    Grows(x.store, st.store) && forall ln :: ln in st.store && ln !in x.store ==> Visited(v0, ln.path)
  }

  ghost predicate Joint(x: Context, v0: seq<Leaf>, v1: seq<Leaf>, st: PrepState, rs: RestState) {
    && Lists(x, v0, v1)
    && Tracks(x.inodes, st.inodes)
    && NlinksOk(x, v0, st)
    && LinksOk(v0, v1, st, rs)
    && Share(Reps(x, v0), v1)
    && FilesOk(x, v0, v1, rs)
    && NamesOk(x, v0, v1, rs)
    && StoreOk(x, v0, st)
  }

  // One more file: how each part of the invariant moves.

  lemma ListsStep(x: Context, v0: seq<Leaf>, v1: seq<Leaf>, path: Path, ino: nat, y: nat)
    requires Lists(x, v0, v1) && ino in x.inodes && path != []
    ensures Lists(x, v0 + [Leaf(path, ino)], v1 + [Leaf(path, y)])
  {
  }

  lemma FirstDeletedStep(x: Context, v0: seq<Leaf>, l: Leaf, n: nat)
    requires KnownLeaf(x, l) && Known(x, v0 + [l])
    ensures Known(x, v0)
    ensures FirstDeleted(x, v0 + [l], n)
         == if First(v0, n) < |v0| then FirstDeleted(x, v0, n) else l.ino == n && Deletes(x, l)
  {
    assert forall i :: 0 <= i < |v0| ==> v0[i] == (v0 + [l])[i];
    Extend(v0, l, n);
  }

  /** A second or later link loses one link count. */
  lemma NlinksLinked(x: Context, v0: seq<Leaf>, l: Leaf, st: PrepState)
    requires KnownLeaf(x, l) && Known(x, v0) && Known(x, v0 + [l]) && Tracks(x.inodes, st.inodes) && NlinksOk(x, v0, st)
    requires l.ino in st.hardlinks && l.ino in st.inodes && st.inodes[l.ino].nlink > 1 && Count(v0, l.ino) > 0
    ensures Tracks(x.inodes, Unlink(st, l.ino).inodes)
    ensures NlinksOk(x, v0 + [l], Unlink(st, l.ino))
  {
    UnlinkTracks(x.inodes, st, l.ino);
    forall n | n in x.inodes ensures NlinkOk(x, v0 + [l], Unlink(st, l.ino), n) {
      assert NlinkOk(x, v0, st, n);
      Extend(v0, l, n);
      FirstDeletedStep(x, v0, l, n);
      FirstIsFirst(v0, n);
    }
  }

  /** A file that is not recorded as a link. */
  ghost predicate PrepMoves(x: Context, l: Leaf, st: PrepState, st': PrepState) {
    && KnownLeaf(x, l) && l.ino in st.inodes && l.ino in st'.inodes
    && st'.inodes == st.inodes[l.ino := st'.inodes[l.ino]]
    && (st.inodes[l.ino].nlink > 0 ==>
          st'.inodes[l.ino].nlink == st.inodes[l.ino].nlink - (if Deletes(x, l) then 1 else 0))
    && st'.hardlinks == if st.inodes[l.ino].nlink > 1 then st.hardlinks[l.ino := l.path] else st.hardlinks
  }

  lemma NlinksFresh(x: Context, v0: seq<Leaf>, l: Leaf, st: PrepState, st': PrepState)
    requires KnownLeaf(x, l) && Known(x, v0) && Known(x, v0 + [l]) && Tracks(x.inodes, st.inodes) && Tracks(x.inodes, st'.inodes)
    requires NlinksOk(x, v0, st) && l.ino in st'.inodes && PrepMoves(x, l, st, st')
    requires l.ino in st.inodes && (st.inodes[l.ino].nlink > 1 ==> l.ino !in st.hardlinks)
    requires x.inodes[l.ino].nlink > 0 && Count(v0, l.ino) < x.inodes[l.ino].nlink
    ensures NlinksOk(x, v0 + [l], st')
  {
    forall n | n in x.inodes ensures NlinkOk(x, v0 + [l], st', n) {
      assert NlinkOk(x, v0, st, n);
      Extend(v0, l, n);
      FirstDeletedStep(x, v0, l, n);
      FirstIsFirst(v0, n);
    }
  }

  /** A leaf recorded as a link shares the inode of the first one. */
  lemma LinkedRep(x: Context, v0: seq<Leaf>, l: Leaf, st: PrepState)
    requires KnownLeaf(x, l) && Known(x, v0) && Known(x, v0 + [l])
    requires Tracks(x.inodes, st.inodes) && NlinksOk(x, v0, st)
    requires l.ino in st.inodes && st.inodes[l.ino].nlink > 1
    requires First(v0, l.ino) < |v0| && Count(v0, l.ino) < x.inodes[l.ino].nlink
    ensures Rep(x, v0 + [l], |v0|) == First(v0, l.ino)
  {
    assert NlinkOk(x, v0, st, l.ino);
    Extend(v0, l, l.ino);
    FirstIsFirst(v0, l.ino);
    FirstDeletedStep(x, v0, l, l.ino);
    assert (v0 + [l])[..|v0| + 1] == v0 + [l];
  }

  lemma FirstRep(x: Context, v: seq<Leaf>, f: nat)
    requires Known(x, v) && f < |v| && First(v, v[f].ino) == f
    ensures Rep(x, v, f) == f
  {
  }

  lemma RepsStep(x: Context, v: seq<Leaf>, l: Leaf)
    requires Known(x, v) && KnownLeaf(x, l) && Known(x, v + [l])
    ensures Reps(x, v + [l]) == Reps(x, v) + [Rep(x, v + [l], |v|)]
    ensures forall i :: 0 <= i < |v| ==> Reps(x, v)[i] <= i
  {
    forall j | 0 <= j < |v| ensures Reps(x, v + [l])[j] == Reps(x, v)[j] <= j {
      RepStable(x, v, l, j);
    }
  }

  /** The pattern grows by a link to an earlier file or by a new file. */
  lemma ShareStep(r: seq<nat>, v: seq<Leaf>, f: nat, l: Leaf)
    requires Share(r, v) && f <= |r| && forall i :: 0 <= i < |r| ==> r[i] <= i
    requires f < |r| ==> r[f] == f && l.ino == v[f].ino
    requires f == |r| ==> forall i :: 0 <= i < |v| ==> v[i].ino != l.ino
    ensures Share(r + [f], v + [l])
  {
    var n := |r|;
    forall i | 0 <= i < n ensures v[i].ino == l.ino <==> r[i] == f {
    }
  }

  /** A file not recorded as a link is a first link or a lost one. */
  lemma FreshRep(x: Context, v0: seq<Leaf>, l: Leaf, st: PrepState)
    requires KnownLeaf(x, l) && Known(x, v0) && Known(x, v0 + [l]) && Tracks(x.inodes, st.inodes) && NlinksOk(x, v0, st)
    requires l.ino in st.inodes && (st.inodes[l.ino].nlink > 1 ==> l.ino !in st.hardlinks)
    requires Count(v0, l.ino) < x.inodes[l.ino].nlink
    ensures Rep(x, v0 + [l], |v0|) == |v0|
  {
    assert NlinkOk(x, v0, st, l.ino);
    Extend(v0, l, l.ino);
    FirstIsFirst(v0, l.ino);
    FirstDeletedStep(x, v0, l, l.ino);
    assert (v0 + [l])[..|v0| + 1] == v0 + [l];
  }

  lemma LinksStep(v0: seq<Leaf>, v1: seq<Leaf>, l: Leaf, y: nat, st: PrepState, st': PrepState,
                  rs: RestState, rs': RestState)
    requires |v0| == |v1| && LinksOk(v0, v1, st, rs) && !Visited(v0, l.path)
    requires rs'.done == rs.done[l.path := y]
    requires st'.hardlinks == st.hardlinks
          || (st'.hardlinks == st.hardlinks[l.ino := l.path] && First(v0, l.ino) == |v0|)
    ensures LinksOk(v0 + [l], v1 + [Leaf(l.path, y)], st', rs')
  {
    forall n {:trigger LinkOk(v0 + [l], v1 + [Leaf(l.path, y)], st', rs', n)} | n in st'.hardlinks
      ensures LinkOk(v0 + [l], v1 + [Leaf(l.path, y)], st', rs', n)
    {
      Extend(v0, l, n);
      if n in st.hardlinks && st'.hardlinks[n] == st.hardlinks[n] {
        assert LinkOk(v0, v1, st, rs, n);
      }
    }
  }

  lemma FilesStep(x: Context, v0: seq<Leaf>, v1: seq<Leaf>, l: Leaf, y: nat, rs: RestState, rs': RestState)
    requires Lists(x, v0, v1) && KnownLeaf(x, l) && Lists(x, v0 + [l], v1 + [Leaf(l.path, y)])
    requires FilesOk(x, v0, v1, rs)
    requires y in rs'.inodes && rs'.inodes == rs.inodes[y := rs'.inodes[y]]
    requires Same(x.rc.quick, x.inodes[l.ino], rs'.inodes[y]) && y < rs'.next && rs.next <= rs'.next
    requires rs'.done == rs.done[l.path := y] && !Visited(v0, l.path)
    requires forall i :: 0 <= i < |v1| && v1[i].ino == y ==> v0[i].ino == l.ino
    ensures FilesOk(x, v0 + [l], v1 + [Leaf(l.path, y)], rs')
  {
  }

  lemma NamesStep(x: Context, v0: seq<Leaf>, v1: seq<Leaf>, l: Leaf, y: nat, rs: RestState, rs': RestState)
    requires |v0| == |v1| && Known(x, v0) && KnownLeaf(x, l) && Known(x, v0 + [l]) && NamesOk(x, v0, v1, rs)
    requires y in rs'.inodes && rs'.inodes == rs.inodes[y := rs'.inodes[y]]
    requires if Count(v1, y) > 0 then y in rs.inodes && rs'.inodes[y].nlink == rs.inodes[y].nlink + 1
             else Newly(x, l, rs'.inodes[y])
    ensures NamesOk(x, v0 + [l], v1 + [Leaf(l.path, y)], rs')
  {
    forall z ensures NameOk(x, v0 + [l], v1 + [Leaf(l.path, y)], rs', z) {
      assert NameOk(x, v0, v1, rs, z);
      Extend(v1, Leaf(l.path, y), z);
      FirstIsFirst(v1, z);
    }
  }

  /** The first name of a restored file. */
  predicate Newly(x: Context, l: Leaf, i: Inode)
    requires KnownLeaf(x, l)
  {
    i.nlink > 0 && (Special(x, l) ==> i.nlink == 1)
  }

  lemma StoreStep(x: Context, v0: seq<Leaf>, l: Leaf, st: PrepState, st': PrepState, ln: LargeName, i: Inode)
    requires StoreOk(x, v0, st)
    requires st'.store == st.store || (ln !in st.store && st'.store == st.store[ln := i] && ln.path == l.path)
    ensures StoreOk(x, v0 + [l], st')
  {
    assert (v0 + [l])[|v0|] == l;
    forall ln | ln in st'.store && ln !in x.store ensures Visited(v0 + [l], ln.path) {
      if Visited(v0, ln.path) {
        var k :| 0 <= k < |v0| && v0[k].path == ln.path;
        assert (v0 + [l])[k].path == ln.path;
      }
    }
  }

  // ---------------------------------------------------------------------------
  // What Git gives back

  /** The tree on disk before restoring: that of the commit, with Git's own modes
      and times, and separate inodes for all files. Before a quick restore it is
      the prepared tree itself. */
  ghost predicate MatchKid(x: Context, a: Kid, b: Kid, inodes: map<nat, Inode>)
    decreases a.node, 1
  {
    && b.name == a.name
    && match a.node
       case File(ino) =>
         && b.node.File? && ino in x.inodes && b.node.ino in inodes
         && MatchFile(x, x.inodes[ino], inodes[b.node.ino])
       case Dir(_, _, kids) => b.node.Dir? && MatchKids(x, kids, b.node.kids, inodes)
  }

  ghost predicate MatchKids(x: Context, a: seq<Kid>, b: seq<Kid>, inodes: map<nat, Inode>)
    decreases a, 0
  {
    |a| == |b| && forall i :: 0 <= i < |a| ==> MatchKid(x, a[i], b[i], inodes)
  }

  predicate MatchFile(x: Context, i0: Inode, i1: Inode) {
    i1.kind == i0.kind && i1.nlink > 0 && (x.rc.quick ==> Same(true, i0, i1))
  }

  /** Files still to be claimed do not share inodes with each other or with what
      is already restored. */
  ghost predicate Separate(v1: seq<Leaf>, w: seq<nat>, rs: RestState) {
    && (forall i, j :: 0 <= i < |v1| && 0 <= j < |w| ==> v1[i].ino != w[j])
    && (forall i, j :: 0 <= i < j < |w| ==> w[i] != w[j])
    && (forall j :: 0 <= j < |w| ==> w[j] < rs.next)
  }

  /** What the rest of the listing may contain. */
  ghost predicate Apart(name: Name, rest: seq<Kid>) {
    !Has(rest, name) && !Has(rest, Escape(name))
  }

  lemma {:induction false} WithoutAbsent(disk: seq<Kid>, n: Name)
    requires !Has(disk, n)
    ensures Without(disk, n) == disk
  {
    if disk != [] {
      assert disk[0].name != n;
      assert forall i :: 0 <= i < |disk[1..]| ==> disk[1..][i] == disk[i + 1];
      WithoutAbsent(disk[1..], n);
    }
  }

  lemma HeadOf(k: Kid, rest: seq<Kid>)
    ensures Has([k] + rest, k.name) && Get([k] + rest, k.name) == k.node && Without([k] + rest, k.name) == rest
  {
    assert ([k] + rest)[0] == k;
    assert ([k] + rest)[1..] == rest;
  }

  // ---------------------------------------------------------------------------
  // One file

  lemma PrepLinkMoves(x: Context, fm: Fm, l: Leaf, st: PrepState, v0: seq<Leaf>)
    requires KnownLeaf(x, l) && Tracks(x.inodes, st.inodes) && StoreOk(x, v0, st) && !Visited(v0, l.path)
    requires l.path[|l.path| - 1] == fm.name && ChmodMin(st.inodes[l.ino]) == st.inodes[l.ino]
    requires AdmissibleFile(x, fm.name, x.inodes[l.ino], l.path)
    requires st.inodes[l.ino].nlink > 1 ==> l.ino !in st.hardlinks
    ensures var p := PrepLink(x.c, fm, l.ino, l.path, st);
            p.Prepared? ==> PrepMoves(x, l, st, p.st) && StoreOk(x, v0 + [l], p.st)
  {
    var st1 := if st.inodes[l.ino].nlink > 1 then st.(hardlinks := st.hardlinks[l.ino := l.path]) else st;
    var i := st.inodes[l.ino];
    PrepStoredMoves(x, fm, l, st1, v0);
    var p := PrepLink(x.c, fm, l.ino, l.path, st);
    if p.Prepared? { StoreStep(x, v0, l, st, p.st, LargeNameOf(i, l.path), i); }
  }

  lemma PrepStoredMoves(x: Context, fm: Fm, l: Leaf, st: PrepState, v0: seq<Leaf>)
    requires KnownLeaf(x, l) && Tracks(x.inodes, st.inodes) && StoreOk(x, v0, st) && !Visited(v0, l.path)
    requires l.path[|l.path| - 1] == fm.name && ChmodMin(st.inodes[l.ino]) == st.inodes[l.ino]
    requires AdmissibleFile(x, fm.name, x.inodes[l.ino], l.path)
    ensures var p, i := PrepStored(x.c, fm, l.ino, l.path, st), st.inodes[l.ino];
            p.Prepared? ==>
            && p.st.inodes == (if Deletes(x, l) then Unlink(st, l.ino) else st).inodes
            && p.st.hardlinks == st.hardlinks
            && (p.st.store == st.store
                || (LargeNameOf(i, l.path) !in st.store && p.st.store == st.store[LargeNameOf(i, l.path) := i]))
  {
    assert ChmodMin(x.inodes[l.ino]).perm == st.inodes[l.ino].perm;
  }

  /** The record of a file that looks like `i0` once restored. */
  predicate Records(fm: Fm, i0: Inode) {
    && fm.kind == KindOf(i0.kind) && fm.children == [] && !fm.dontRestore
    && fm.mtime == i0.mtime && (i0.kind.Lnk? || fm.perm == MinFilePerm(i0.perm))
  }

  /** Restoring has put a file with inode `y` at the record's path. */
  ghost predicate Places(quick: bool, fm: Fm, path: Path, rest: seq<Kid>, rs: RestState, y: nat, i0: Inode, r: Restored) {
    && r.Restored? && r.out == [Kid(fm.name, File(y))] && r.disk == rest
    && r.rs.done == rs.done[path := y]
    && rs.next <= r.rs.next && y < r.rs.next
    && y in r.rs.inodes && r.rs.inodes == rs.inodes[y := r.rs.inodes[y]]
    && Same(quick, i0, r.rs.inodes[y])
  }

  lemma RestoreLinked(c: RestConfig, fm: Fm, path: Path, disk: seq<Kid>, rs: RestState, i0: Inode)
    requires Records(fm, i0) && !RpmDb(path) && fm.hardlinkTo.Some? && fm.hardlinkTo.value in rs.done
    requires var y := rs.done[fm.hardlinkTo.value]; y in rs.inodes && y < rs.next && Same(c.quick, i0, rs.inodes[y])
    requires !Has(disk, fm.name)
    ensures Places(c.quick, fm, path, disk, rs, rs.done[fm.hardlinkTo.value], i0, RestoreKid(c, fm, path, disk, rs))
    ensures var y := rs.done[fm.hardlinkTo.value];
            RestoreKid(c, fm, path, disk, rs).rs.inodes[y].nlink == rs.inodes[y].nlink + 1
  {
  }

  lemma RestoreLarge(c: RestConfig, fm: Fm, path: Path, disk: seq<Kid>, rs: RestState, i0: Inode)
    requires Records(fm, i0) && !RpmDb(path) && fm.hardlinkTo.None? && fm.largeName.Some?
    requires fm.largeName.value in c.store && Same(c.quick, i0, c.store[fm.largeName.value])
    requires !Has(disk, fm.name)
    ensures Places(c.quick, fm, path, disk, rs, rs.next, i0, RestoreKid(c, fm, path, disk, rs))
    ensures RestoreKid(c, fm, path, disk, rs).rs.inodes[rs.next].nlink == 1
  {
    WithoutAbsent(disk, fm.name);
  }

  lemma RestoreFifo(c: RestConfig, fm: Fm, path: Path, disk: seq<Kid>, rs: RestState, i0: Inode)
    requires Records(fm, i0) && !RpmDb(path) && fm.hardlinkTo.None? && fm.largeName.None? && i0.kind.Fifo?
    requires !Has(disk, fm.name)
    ensures Places(c.quick, fm, path, disk, rs, rs.next, i0, RestoreKid(c, fm, path, disk, rs))
    ensures RestoreKid(c, fm, path, disk, rs).rs.inodes[rs.next].nlink == 1
  {
  }

  lemma RestoreKept(c: RestConfig, fm: Fm, path: Path, y: nat, rest: seq<Kid>, rs: RestState, i0: Inode)
    requires Records(fm, i0) && !RpmDb(path) && fm.hardlinkTo.None? && fm.largeName.None?
    requires i0.kind.Reg? || i0.kind.Lnk?
    requires y in rs.inodes && y < rs.next && rs.inodes[y].kind == i0.kind && (c.quick ==> Same(true, i0, rs.inodes[y]))
    ensures var r := RestoreKid(c, fm, path, [Kid(Escape(fm.name), File(y))] + rest, rs);
            Places(c.quick, fm, path, rest, rs, y, i0, r) && r.rs.inodes[y].nlink == rs.inodes[y].nlink
  {
    HeadOf(Kid(Escape(fm.name), File(y)), rest);
  }

  /** Only the inodes of the files just restored have changed, and these are
      earlier ones, claimed ones or new ones. */
  ghost predicate Consumes(v1: seq<Leaf>, o: seq<Leaf>, w: seq<nat>, rs: RestState, rs': RestState) {
    && rs.next <= rs'.next
    && (forall j :: 0 <= j < |o| ==> Owned(v1, o[j].ino) || o[j].ino in w || rs.next <= o[j].ino)
    && (forall n :: n in rs.inodes ==> n in rs'.inodes && (Owned(o, n) || rs'.inodes[n] == rs.inodes[n]))
  }

  ghost predicate Owned(v: seq<Leaf>, n: nat) { exists i :: 0 <= i < |v| && v[i].ino == n }

  /** The state around one file: the records agree and the listing is in order. */
  ghost predicate FileReady(x: Context, l: Leaf, name: Name, st: PrepState, rest: seq<Kid>, rs: RestState,
                            v0: seq<Leaf>, v1: seq<Leaf>) {
    && Joint(x, v0, v1, st, rs)
    && KnownLeaf(x, l) && AdmissiblePath(l.path, name) && AdmissibleFile(x, name, x.inodes[l.ino], l.path)
    && Count(v0, l.ino) < x.inodes[l.ino].nlink && !Visited(v0, l.path) && Apart(name, rest)
    && ChmodMin(st.inodes[l.ino]) == st.inodes[l.ino]
  }

  lemma LinkedFile(x: Context, l: Leaf, fm: Fm, st: PrepState, rest: seq<Kid>, rs: RestState,
                   v0: seq<Leaf>, v1: seq<Leaf>)
    requires FileReady(x, l, fm.name, st, rest, rs, v0, v1) && Records(fm, x.inodes[l.ino])
    requires st.inodes[l.ino].nlink > 1 && l.ino in st.hardlinks
    ensures var fm' := fm.(hardlinkTo := Some(st.hardlinks[l.ino]));
            var r := RestoreKid(x.rc, fm', l.path, rest, rs);
            exists y :: Places(x.rc.quick, fm', l.path, rest, rs, y, x.inodes[l.ino], r) && Owned(v1, y)
                     && Joint(x, v0 + [l], v1 + [Leaf(l.path, y)], Unlink(st, l.ino), r.rs)
  {
    assert LinkOk(v0, v1, st, rs, l.ino);
    var f := First(v0, l.ino);
    var y := v1[f].ino;
    var fm' := fm.(hardlinkTo := Some(st.hardlinks[l.ino]));
    RestoreLinked(x.rc, fm', l.path, rest, rs, x.inodes[l.ino]);
    var r := RestoreKid(x.rc, fm', l.path, rest, rs);
    ListsStep(x, v0, v1, l.path, l.ino, y);
    FirstIsFirst(v0, l.ino);
    NlinksLinked(x, v0, l, st);
    LinkedRep(x, v0, l, st);
    FirstRep(x, v0, f);
    RepsStep(x, v0, l);
    ShareStep(Reps(x, v0), v1, f, Leaf(l.path, y));
    SameOwner(x, v0, v1, f);
    FilesStep(x, v0, v1, l, y, rs, r.rs);
    FirstIsFirst(v1, y);
    CountOwned(v1, f);
    NamesStep(x, v0, v1, l, y, rs, r.rs);
    LinksStep(v0, v1, l, y, st, Unlink(st, l.ino), rs, r.rs);
    StoreStep(x, v0, l, st, Unlink(st, l.ino), LargeNameOf(x.inodes[l.ino], l.path), x.inodes[l.ino]);
    assert Places(x.rc.quick, fm', l.path, rest, rs, y, x.inodes[l.ino], r);
    assert Owned(v1, y);
  }

  lemma {:induction false} CountOwned(v: seq<Leaf>, f: nat)
    requires f < |v|
    ensures Count(v, v[f].ino) > 0
  {
    if f < |v| - 1 { CountOwned(v[..|v| - 1], f); }
  }

  lemma FirstOwned(v: seq<Leaf>, n: nat)
    ensures Count(v, n) > 0 ==> Owned(v, n)
  {
    FirstIsFirst(v, n);
    if First(v, n) < |v| { assert v[First(v, n)].ino == n; }
  }

  /** Restored files with one inode had one inode. */
  lemma SameOwner(x: Context, v0: seq<Leaf>, v1: seq<Leaf>, f: nat)
    requires Lists(x, v0, v1) && Share(Reps(x, v0), v1) && f < |v0|
    ensures forall i :: 0 <= i < |v1| && v1[i].ino == v1[f].ino ==> v0[i].ino == v0[f].ino
  {
    forall i | 0 <= i < |v1| && v1[i].ino == v1[f].ino ensures v0[i].ino == v0[f].ino {
      assert Reps(x, v0)[i] == Reps(x, v0)[f];
      RepOwner(x, v0, i);
      RepOwner(x, v0, f);
    }
  }

  lemma RepOwner(x: Context, v: seq<Leaf>, j: nat)
    requires Known(x, v) && j < |v|
    ensures Rep(x, v, j) < |v| && v[Rep(x, v, j)].ino == v[j].ino
  {
    FirstIsFirst(v, v[j].ino);
  }

  /** A file that is not recorded as a link, restored with inode `y`. */
  lemma FreshFile(x: Context, l: Leaf, fm: Fm, st: PrepState, st': PrepState, rest: seq<Kid>, rs: RestState,
                  v0: seq<Leaf>, v1: seq<Leaf>, y: nat, r: Restored)
    requires FileReady(x, l, fm.name, st, rest, rs, v0, v1)
    requires st.inodes[l.ino].nlink > 1 ==> l.ino !in st.hardlinks
    requires PrepMoves(x, l, st, st') && Tracks(x.inodes, st'.inodes) && StoreOk(x, v0 + [l], st')
    requires Places(x.rc.quick, fm, l.path, rest, rs, y, x.inodes[l.ino], r) && Newly(x, l, r.rs.inodes[y]) && !Owned(v1, y)
    ensures Joint(x, v0 + [l], v1 + [Leaf(l.path, y)], st', r.rs)
  {
    FirstOwned(v1, y);
    NamesStep(x, v0, v1, l, y, rs, r.rs);
    ListsStep(x, v0, v1, l.path, l.ino, y);
    NlinksFresh(x, v0, l, st, st');
    FreshRep(x, v0, l, st);
    RepsStep(x, v0, l);
    ShareStep(Reps(x, v0), v1, |v0|, Leaf(l.path, y));
    FilesStep(x, v0, v1, l, y, rs, r.rs);
    FirstIsFirst(v0, l.ino);
    assert NlinkOk(x, v0, st, l.ino);
    LinksStep(v0, v1, l, y, st, st', rs, r.rs);
  }

  lemma NotOwned(x: Context, v0: seq<Leaf>, v1: seq<Leaf>, st: PrepState, rs: RestState, w: seq<nat>, y: nat)
    requires Joint(x, v0, v1, st, rs) && Separate(v1, w, rs) && (y == rs.next || y in w)
    ensures !Owned(v1, y)
  {
    if y == rs.next {
      forall i | 0 <= i < |v1| ensures v1[i].ino != y { assert v1[i].ino in rs.inodes; }
    }
  }

  lemma StoredJoint(x: Context, l: Leaf, fm: Fm, st: PrepState, st': PrepState, rest: seq<Kid>, rs: RestState,
                    v0: seq<Leaf>, v1: seq<Leaf>, w: seq<nat>, y: nat, r: Restored)
    requires FileReady(x, l, fm.name, st, rest, rs, v0, v1) && Separate(v1, w, rs) && (y == rs.next || y in w)
    requires st.inodes[l.ino].nlink > 1 ==> l.ino !in st.hardlinks
    requires PrepMoves(x, l, st, st') && Tracks(x.inodes, st'.inodes) && StoreOk(x, v0 + [l], st')
    requires Places(x.rc.quick, fm, l.path, rest, rs, y, x.inodes[l.ino], r) && Newly(x, l, r.rs.inodes[y])
    ensures Joint(x, v0 + [l], v1 + [Leaf(l.path, y)], st', r.rs)
  {
    NotOwned(x, v0, v1, st, rs, w, y);
    FreshFile(x, l, fm, st, st', rest, rs, v0, v1, y, r);
  }

  lemma StoredPlaces(x: Context, l: Leaf, fm: Fm, st: PrepState, cs: seq<Kid>, rest: seq<Kid>, rs: RestState,
                     v0: seq<Leaf>, v1: seq<Leaf>) returns (y: nat)
    requires FileReady(x, l, fm.name, st, rest, rs, v0, v1)
    requires Records(fm, x.inodes[l.ino]) && fm.hardlinkTo.None? && fm.largeName.None?
    requires st.inodes[l.ino].nlink > 1 ==> l.ino !in st.hardlinks
    requires var p := PrepLink(x.c, fm, l.ino, l.path, st);
             p.Prepared? && MatchKids(x, p.left, cs, rs.inodes) && Grows(p.st.store, x.rc.store)
    ensures var p := PrepLink(x.c, fm, l.ino, l.path, st);
            var r := RestoreKid(x.rc, p.fm, l.path, cs + rest, rs);
            Places(x.rc.quick, p.fm, l.path, rest, rs, y, x.inodes[l.ino], r) && Newly(x, l, r.rs.inodes[y])
    ensures y == rs.next || y in InosKids(cs)
  {
    assert ChmodMin(x.inodes[l.ino]).perm == st.inodes[l.ino].perm;
    y := RestoreStored(x, l, fm, st, cs, rest, rs);
  }

  lemma PrepLinkName(c: PrepConfig, fm: Fm, ino: nat, path: Path, st: PrepState)
    requires ino in st.inodes && PrepLink(c, fm, ino, path, st).Prepared?
    ensures PrepLink(c, fm, ino, path, st).fm.name == fm.name
  {
  }

  /** A file that is not recorded as a link comes back from the store, from the
      record alone or from Git. */
  lemma StoredFile(x: Context, l: Leaf, fm: Fm, st: PrepState, cs: seq<Kid>, rest: seq<Kid>, rs: RestState,
                   v0: seq<Leaf>, v1: seq<Leaf>) returns (y: nat)
    requires FileReady(x, l, fm.name, st, rest, rs, v0, v1)
    requires Records(fm, x.inodes[l.ino]) && fm.hardlinkTo.None? && fm.largeName.None?
    requires st.inodes[l.ino].nlink > 1 ==> l.ino !in st.hardlinks
    requires var p := PrepLink(x.c, fm, l.ino, l.path, st);
             && p.Prepared? && MatchKids(x, p.left, cs, rs.inodes) && Grows(p.st.store, x.rc.store)
             && Tracks(x.inodes, p.st.inodes)
    requires Separate(v1, InosKids(cs), rs)
    ensures var p := PrepLink(x.c, fm, l.ino, l.path, st);
            var r := RestoreKid(x.rc, p.fm, l.path, cs + rest, rs);
            && Places(x.rc.quick, p.fm, l.path, rest, rs, y, x.inodes[l.ino], r)
            && (y == rs.next || y in InosKids(cs))
            && Joint(x, v0 + [l], v1 + [Leaf(l.path, y)], p.st, r.rs)
  {
    var p := PrepLink(x.c, fm, l.ino, l.path, st);
    y := StoredPlaces(x, l, fm, st, cs, rest, rs, v0, v1);
    PrepLinkMoves(x, fm, l, st, v0);
    PrepLinkName(x.c, fm, l.ino, l.path, st);
    StoredJoint(x, l, p.fm, st, p.st, rest, rs, v0, v1, InosKids(cs), y, RestoreKid(x.rc, p.fm, l.path, cs + rest, rs));
  }

  lemma InosOne(k: Kid)
    ensures InosKids([k]) == InosKid(k)
  {
    assert [k][..0] == [];
  }

  lemma RestoreStored(x: Context, l: Leaf, fm: Fm, st: PrepState, cs: seq<Kid>, rest: seq<Kid>, rs: RestState)
      returns (y: nat)
    requires KnownLeaf(x, l) && l.ino in st.inodes && Apart(fm.name, rest) && AdmissiblePath(l.path, fm.name)
    requires AdmissibleFile(x, fm.name, x.inodes[l.ino], l.path) && Grows(x.store, st.store)
    requires st.inodes[l.ino].kind == x.inodes[l.ino].kind
    requires Records(fm, x.inodes[l.ino]) && fm.hardlinkTo.None? && fm.largeName.None?
    requires st.inodes[l.ino].nlink > 1 ==> l.ino !in st.hardlinks
    requires var p := PrepLink(x.c, fm, l.ino, l.path, st);
             p.Prepared? && MatchKids(x, p.left, cs, rs.inodes) && Grows(p.st.store, x.rc.store)
    requires forall i :: i in rs.inodes ==> i < rs.next
    requires Same(true, x.inodes[l.ino], st.inodes[l.ino]) && StoreAgreesNow(x, fm.name, l, st)
    ensures var p := PrepLink(x.c, fm, l.ino, l.path, st);
            var r := RestoreKid(x.rc, p.fm, l.path, cs + rest, rs);
            Places(x.rc.quick, p.fm, l.path, rest, rs, y, x.inodes[l.ino], r) && Newly(x, l, r.rs.inodes[y])
    ensures y == rs.next || y in InosKids(cs)
  {
    var i0, p := x.inodes[l.ino], PrepLink(x.c, fm, l.ino, l.path, st);
    if p.left == [] {
      assert cs + rest == rest;
      y := rs.next;
      if p.fm.largeName.Some? {
        RestoreLarge(x.rc, p.fm, l.path, rest, rs, i0);
      } else {
        RestoreFifo(x.rc, p.fm, l.path, rest, rs, i0);
      }
    } else {
      assert MatchKid(x, p.left[0], cs[0], rs.inodes);
      y := cs[0].node.ino;
      assert cs == [Kid(Escape(fm.name), File(y))];
      InosOne(cs[0]);
      RestoreKept(x.rc, p.fm, l.path, y, rest, rs, i0);
    }
  }

  /** A stored large file with this name is this file. */
  predicate StoreAgreesNow(x: Context, name: Name, l: Leaf, st: PrepState)
    requires l.ino in st.inodes
  {
    var i := st.inodes[l.ino];
    var ln := LargeNameOf(i, l.path);
    IsLarge(x.c, name, i) && ln in st.store ==> Same(true, i, st.store[ln])
  }

  // ---------------------------------------------------------------------------
  // One directory entry, and all of them

  predicate SameKid(a: Kid, b: Kid)
    decreases a.node, 1
  {
    && b.name == a.name
    && match a.node
       case File(_) => b.node.File?
       case Dir(perm, mtime, kids) =>
         b.node.Dir? && b.node.perm == MinDirPerm(perm) && b.node.mtime == mtime && SameKids(kids, b.node.kids)
  }

  /** The same names, directory structure, directory modes and directory times. */
  predicate SameKids(a: seq<Kid>, b: seq<Kid>)
    decreases a, 0
  {
    |a| == |b| && forall i :: 0 <= i < |a| ==> SameKid(a[i], b[i])
  }

  ghost predicate Unvisited(v: seq<Leaf>, path: Path) {
    forall i :: 0 <= i < |v| ==> !(path <= v[i].path)
  }

  ghost predicate KidDone(x: Context, kid: Kid, path: Path, pst: PrepState, w: seq<nat>, rest: seq<Kid>,
                          rs: RestState, v0: seq<Leaf>, v1: seq<Leaf>, r: Restored) {
    && r.Restored? && r.disk == rest && |r.out| == 1 && SameKid(kid, r.out[0])
    && Joint(x, v0 + LeavesKid(kid, path), v1 + LeavesKid(r.out[0], path), pst, r.rs)
    && Consumes(v1, LeavesKid(r.out[0], path), w, rs, r.rs)
  }

  ghost predicate KidsDone(x: Context, kids: seq<Kid>, path: Path, pst: PrepState, w: seq<nat>, rest: seq<Kid>,
                           rs: RestState, v0: seq<Leaf>, v1: seq<Leaf>, r: Restored) {
    && r.Restored? && r.disk == rest && SameKids(kids, r.out)
    && Joint(x, v0 + LeavesKids(kids, path), v1 + LeavesKids(r.out, path), pst, r.rs)
    && Consumes(v1, LeavesKids(r.out, path), w, rs, r.rs)
  }

  lemma NlinksChmod(x: Context, v0: seq<Leaf>, st: PrepState, ino: nat)
    requires Known(x, v0) && Tracks(x.inodes, st.inodes) && NlinksOk(x, v0, st) && ino in st.inodes
    ensures Tracks(x.inodes, Widened(st, ino).inodes) && NlinksOk(x, v0, Widened(st, ino))
  {
    WidenedTracks(x.inodes, st, ino);
    forall n | n in x.inodes ensures NlinkOk(x, v0, Widened(st, ino), n) { assert NlinkOk(x, v0, st, n); }
  }

  lemma JointChmod(x: Context, v0: seq<Leaf>, v1: seq<Leaf>, st: PrepState, rs: RestState, ino: nat)
    requires Joint(x, v0, v1, st, rs) && ino in st.inodes
    ensures Joint(x, v0, v1, st.(inodes := st.inodes[ino := ChmodMin(st.inodes[ino])]), rs)
  {
    var st' := st.(inodes := st.inodes[ino := ChmodMin(st.inodes[ino])]);
    NlinksChmod(x, v0, st, ino);
    forall n | n in st'.hardlinks ensures LinkOk(v0, v1, st', rs, n) { assert LinkOk(v0, v1, st, rs, n); }
  }

  lemma PlacesConsumes(quick: bool, fm: Fm, path: Path, rest: seq<Kid>, rs: RestState, y: nat, i0: Inode, r: Restored,
                       v1: seq<Leaf>, w: seq<nat>)
    requires Places(quick, fm, path, rest, rs, y, i0, r) && (y == rs.next || y in w || Owned(v1, y))
    ensures LeavesKid(r.out[0], path) == [Leaf(path, y)]
    ensures Consumes(v1, [Leaf(path, y)], w, rs, r.rs)
  {
    var o := [Leaf(path, y)];
    assert o[0].ino == y;
    assert Owned(o, y);
  }

  lemma JointFile(x: Context, name: Name, l: Leaf, st: PrepState, cs: seq<Kid>, rest: seq<Kid>, rs: RestState,
                  v0: seq<Leaf>, v1: seq<Leaf>)
    requires Joint(x, v0, v1, st, rs) && KnownLeaf(x, l)
    requires AdmissiblePath(l.path, name) && AdmissibleFile(x, name, x.inodes[l.ino], l.path)
    requires Count(v0, l.ino) < x.inodes[l.ino].nlink && Unvisited(v0, l.path) && Apart(name, rest)
    requires var p := PrepFile(x.c, name, l.ino, l.path, st);
             p.Prepared? && MatchKids(x, p.left, cs, rs.inodes) && Grows(p.st.store, x.rc.store)
    requires Separate(v1, InosKids(cs), rs)
    ensures var p := PrepFile(x.c, name, l.ino, l.path, st);
            KidDone(x, Kid(name, File(l.ino)), l.path, p.st, InosKids(cs), rest, rs, v0, v1,
                    RestoreKid(x.rc, p.fm, l.path, cs + rest, rs))
  {
    PrepFileOk(x, name, l.ino, l.path, st);
    PrepFileLink(x.c, name, l.ino, l.path, st);
    FileNow(x, name, l, st, rest, rs, v0, v1);
    JointLink(x, l, FileRecord(name, ChmodMin(st.inodes[l.ino])), Widened(st, l.ino), cs, rest, rs, v0, v1);
  }

  lemma FileNow(x: Context, name: Name, l: Leaf, st: PrepState, rest: seq<Kid>, rs: RestState, v0: seq<Leaf>, v1: seq<Leaf>)
    requires Joint(x, v0, v1, st, rs) && KnownLeaf(x, l)
    requires AdmissiblePath(l.path, name) && AdmissibleFile(x, name, x.inodes[l.ino], l.path)
    requires Count(v0, l.ino) < x.inodes[l.ino].nlink && Unvisited(v0, l.path) && Apart(name, rest)
    ensures FileReady(x, l, name, Widened(st, l.ino), rest, rs, v0, v1)
    ensures Records(FileRecord(name, ChmodMin(st.inodes[l.ino])), x.inodes[l.ino])
  {
    JointChmod(x, v0, v1, st, rs, l.ino);
    assert ChmodMin(x.inodes[l.ino]).perm == ChmodMin(st.inodes[l.ino]).perm;
  }

  lemma JointLink(x: Context, l: Leaf, fm: Fm, st: PrepState, cs: seq<Kid>, rest: seq<Kid>, rs: RestState,
                  v0: seq<Leaf>, v1: seq<Leaf>)
    requires FileReady(x, l, fm.name, st, rest, rs, v0, v1)
    requires Records(fm, x.inodes[l.ino]) && fm.hardlinkTo.None? && fm.largeName.None?
    requires var p := PrepLink(x.c, fm, l.ino, l.path, st);
             && p.Prepared? && MatchKids(x, p.left, cs, rs.inodes) && Grows(p.st.store, x.rc.store)
             && Tracks(x.inodes, p.st.inodes)
    requires Separate(v1, InosKids(cs), rs)
    ensures var p := PrepLink(x.c, fm, l.ino, l.path, st);
            KidDone(x, Kid(fm.name, File(l.ino)), l.path, p.st, InosKids(cs), rest, rs, v0, v1,
                    RestoreKid(x.rc, p.fm, l.path, cs + rest, rs))
  {
    if st.inodes[l.ino].nlink > 1 && l.ino in st.hardlinks {
      assert cs + rest == rest;
      LinkedDone(x, l, fm, st, rest, rs, v0, v1);
      assert InosKids(cs) == [];
    } else {
      FreshDone(x, l, fm, st, cs, rest, rs, v0, v1);
    }
  }

  lemma FreshDone(x: Context, l: Leaf, fm: Fm, st: PrepState, cs: seq<Kid>, rest: seq<Kid>, rs: RestState,
                  v0: seq<Leaf>, v1: seq<Leaf>)
    requires FileReady(x, l, fm.name, st, rest, rs, v0, v1)
    requires Records(fm, x.inodes[l.ino]) && fm.hardlinkTo.None? && fm.largeName.None?
    requires st.inodes[l.ino].nlink > 1 ==> l.ino !in st.hardlinks
    requires var p := PrepLink(x.c, fm, l.ino, l.path, st);
             && p.Prepared? && MatchKids(x, p.left, cs, rs.inodes) && Grows(p.st.store, x.rc.store)
             && Tracks(x.inodes, p.st.inodes)
    requires Separate(v1, InosKids(cs), rs)
    ensures var p := PrepLink(x.c, fm, l.ino, l.path, st);
            KidDone(x, Kid(fm.name, File(l.ino)), l.path, p.st, InosKids(cs), rest, rs, v0, v1,
                    RestoreKid(x.rc, p.fm, l.path, cs + rest, rs))
  {
    var p := PrepLink(x.c, fm, l.ino, l.path, st);
    var r := RestoreKid(x.rc, p.fm, l.path, cs + rest, rs);
    PrepLinkName(x.c, fm, l.ino, l.path, st);
    var y := StoredFile(x, l, fm, st, cs, rest, rs, v0, v1);
    PlacesConsumes(x.rc.quick, p.fm, l.path, rest, rs, y, x.inodes[l.ino], r, v1, InosKids(cs));
  }

  lemma LinkedDone(x: Context, l: Leaf, fm: Fm, st: PrepState, rest: seq<Kid>, rs: RestState,
                   v0: seq<Leaf>, v1: seq<Leaf>)
    requires FileReady(x, l, fm.name, st, rest, rs, v0, v1) && Records(fm, x.inodes[l.ino])
    requires st.inodes[l.ino].nlink > 1 && l.ino in st.hardlinks && Separate(v1, [], rs)
    ensures var p := PrepLink(x.c, fm, l.ino, l.path, st);
            && p.Prepared?
            && KidDone(x, Kid(fm.name, File(l.ino)), l.path, p.st, [], rest, rs, v0, v1,
                       RestoreKid(x.rc, p.fm, l.path, rest, rs))
  {
    var p := PrepLink(x.c, fm, l.ino, l.path, st);
    var r := RestoreKid(x.rc, p.fm, l.path, rest, rs);
    LinkedFile(x, l, fm, st, rest, rs, v0, v1);
    var y :| Places(x.rc.quick, p.fm, l.path, rest, rs, y, x.inodes[l.ino], r) && Owned(v1, y)
      && Joint(x, v0 + [l], v1 + [Leaf(l.path, y)], p.st, r.rs);
    PlacesConsumes(x.rc.quick, p.fm, l.path, rest, rs, y, x.inodes[l.ino], r, v1, []);
  }

  // Pieces of the induction over the entries of a directory.

  lemma {:induction false} CountMono(v: seq<Leaf>, w: seq<Leaf>, n: nat)
    ensures Count(v, n) <= Count(v + w, n)
    decreases |w|
  {
    if w == [] {
      assert v + w == v;
    } else {
      var m := |w| - 1;
      CountMono(v, w[..m], n);
      Extend(v + w[..m], w[m], n);
      assert v + w == (v + w[..m]) + [w[m]];
    }
  }

  lemma CountsPrefix(x: Context, v: seq<Leaf>, w: seq<Leaf>)
    requires CountsOk(x, v + w)
    ensures CountsOk(x, v)
  {
    forall n | n in x.inodes ensures Count(v, n) <= x.inodes[n].nlink { CountMono(v, w, n); }
  }

  lemma {:induction false} LeavesKidUnder(kid: Kid, path: Path)
    ensures forall i :: 0 <= i < |LeavesKid(kid, path)| ==> path <= LeavesKid(kid, path)[i].path
    decreases kid.node, 1
  {
    match kid.node
    case File(_) =>
    case Dir(_, _, kids) => LeavesKidsUnder(kids, path);
  }

  /** `p` is the path of one of the entries, or below it. */
  ghost predicate Under(kids: seq<Kid>, path: Path, p: Path) {
    path <= p && exists k :: 0 <= k < |kids| && path + [kids[k].name] <= p
  }

  lemma {:induction false} LeavesKidsUnder(kids: seq<Kid>, path: Path)
    ensures forall i :: 0 <= i < |LeavesKids(kids, path)| ==> Under(kids, path, LeavesKids(kids, path)[i].path)
    decreases kids, 0
  {
    if kids != [] {
      var n := |kids| - 1;
      LeavesKidsUnder(kids[..n], path);
      LeavesKidUnder(kids[n], path + [kids[n].name]);
      var a, v := LeavesKids(kids[..n], path), LeavesKids(kids, path);
      forall i | 0 <= i < |v| ensures Under(kids, path, v[i].path) {
        if i < |a| {
          assert v[i] == a[i];
          var k :| 0 <= k < n && path + [kids[..n][k].name] <= a[i].path;
          assert path + [kids[k].name] <= v[i].path;
        } else {
          assert v[i] == LeavesKid(kids[n], path + [kids[n].name])[i - |a|];
          assert path + [kids[n].name] <= v[i].path && path <= path + [kids[n].name];
        }
      }
    }
  }

  /** The last entry is not visited while walking the others. */
  lemma LastUnvisited(kids: seq<Kid>, path: Path, v0: seq<Leaf>)
    requires kids != [] && Unvisited(v0, path)
    requires forall i, j :: 0 <= i < j < |kids| ==> Escape(kids[i].name) != Escape(kids[j].name)
    ensures var n := |kids| - 1; Unvisited(v0 + LeavesKids(kids[..n], path), path + [kids[n].name])
  {
    var n := |kids| - 1;
    var init, a := kids[..n], LeavesKids(kids[..n], path);
    LeavesKidsUnder(init, path);
    var v, p := v0 + a, path + [kids[n].name];
    forall i | 0 <= i < |v| ensures !(p <= v[i].path) {
      ChildOf(path, kids[n].name, v[i].path);
      if i >= |v0| {
        assert v[i] == a[i - |v0|];
        assert Under(init, path, v[i].path);
        var k :| 0 <= k < n && path + [init[k].name] <= a[i - |v0|].path;
        ChildOf(path, init[k].name, v[i].path);
        assert kids[k].name == init[k].name;
      }
    }
  }

  lemma ChildOf(path: Path, n: Name, x: Path)
    ensures path + [n] <= x ==> path <= x && |x| > |path| && x[|path|] == n
  {
    if path + [n] <= x { assert path == (path + [n])[..|path|]; }
  }

  ghost predicate NamesApart(kids: seq<Kid>, rest: seq<Kid>) {
    forall i :: 0 <= i < |kids| ==> Apart(kids[i].name, rest)
  }

  /** A sibling's stored name is in nobody else's way. */
  lemma SiblingApart(name: Name, k: Kid, rest: seq<Kid>, other: Name)
    requires Apart(name, rest) && k.name == Escape(other) && Escape(name) != Escape(other)
    ensures Apart(name, [k] + rest)
  {
    EscapeCompatible(other);
    assert forall i :: 0 < i < |[k] + rest| ==> ([k] + rest)[i] == rest[i - 1];
  }

  lemma {:induction false} MatchKidFrame(x: Context, a: Kid, b: Kid, i0: map<nat, Inode>, i1: map<nat, Inode>)
    requires MatchKid(x, a, b, i0)
    requires forall n :: n in InosKid(b) && n in i0 ==> n in i1 && i1[n] == i0[n]
    ensures MatchKid(x, a, b, i1)
    decreases a.node, 1
  {
    match a.node
    case File(_) => assert b.node.ino in InosKid(b);
    case Dir(_, _, kids) => MatchKidsFrame(x, kids, b.node.kids, i0, i1);
  }

  lemma {:induction false} MatchKidsFrame(x: Context, a: seq<Kid>, b: seq<Kid>, i0: map<nat, Inode>, i1: map<nat, Inode>)
    requires MatchKids(x, a, b, i0)
    requires forall n :: n in InosKids(b) && n in i0 ==> n in i1 && i1[n] == i0[n]
    ensures MatchKids(x, a, b, i1)
    decreases a, 0
  {
    forall i | 0 <= i < |a| ensures MatchKid(x, a[i], b[i], i1) {
      InosMember(b, i);
      MatchKidFrame(x, a[i], b[i], i0, i1);
    }
  }

  lemma {:induction false} InosMember(b: seq<Kid>, i: nat)
    requires i < |b|
    ensures forall n :: n in InosKid(b[i]) ==> n in InosKids(b)
  {
    var m := |b| - 1;
    if i < m { InosMember(b[..m], i); }
  }

  lemma {:induction false} InosSplit(a: seq<Kid>, b: seq<Kid>)
    ensures InosKids(a + b) == InosKids(a) + InosKids(b)
    decreases |b|
  {
    if b == [] {
      assert a + b == a;
    } else {
      var m := |b| - 1;
      InosSplit(a, b[..m]);
      assert (a + b)[..|a + b| - 1] == a + b[..m] && (a + b)[|a + b| - 1] == b[m];
    }
  }

  /** Claiming some files leaves the others as they were. */
  lemma SeparateRest(v1: seq<Leaf>, o: seq<Leaf>, w1: seq<nat>, w2: seq<nat>, rs: RestState, rs': RestState)
    requires Separate(v1, w1 + w2, rs) && Consumes(v1, o, w1, rs, rs')
    ensures Separate(v1, w1, rs) && Separate(v1 + o, w2, rs')
    ensures forall n :: n in w2 && n in rs.inodes ==> n in rs'.inodes && rs'.inodes[n] == rs.inodes[n]
  {
    var w := w1 + w2;
    assert forall j :: 0 <= j < |w1| ==> w[j] == w1[j];
    assert forall j :: 0 <= j < |w2| ==> w[|w1| + j] == w2[j];
    forall j, k | 0 <= j < |o| && 0 <= k < |w2| ensures o[j].ino != w2[k] {
      if o[j].ino in w1 {
        var i :| 0 <= i < |w1| && w1[i] == o[j].ino;
        assert w[i] != w[|w1| + k];
      }
    }
  }

  lemma ConsumesBoth(v1: seq<Leaf>, o1: seq<Leaf>, o2: seq<Leaf>, w1: seq<nat>, w2: seq<nat>,
                     rs: RestState, rs1: RestState, rs2: RestState)
    requires Consumes(v1, o1, w1, rs, rs1) && Consumes(v1 + o1, o2, w2, rs1, rs2)
    ensures Consumes(v1, o1 + o2, w1 + w2, rs, rs2)
  {
    var o, w := o1 + o2, w1 + w2;
    forall n | Owned(o1, n) ensures Owned(o, n) {
      var i :| 0 <= i < |o1| && o1[i].ino == n;
      assert o[i].ino == n;
    }
    forall n | Owned(o2, n) ensures Owned(o, n) {
      var i :| 0 <= i < |o2| && o2[i].ino == n;
      assert o[|o1| + i].ino == n;
    }
    forall j | 0 <= j < |o| ensures Owned(v1, o[j].ino) || o[j].ino in w || rs.next <= o[j].ino {
      if j >= |o1| && Owned(v1 + o1, o[j].ino) {
        var i :| 0 <= i < |v1 + o1| && (v1 + o1)[i].ino == o[j].ino;
        if i >= |v1| { assert o1[i - |v1|].ino == o[j].ino; } else { assert v1[i].ino == o[j].ino; }
      }
    }
  }

  // The induction itself.

  ghost predicate KidReady(x: Context, kid: Kid, path: Path, st: PrepState, cs: seq<Kid>, rest: seq<Kid>,
                           rs: RestState, v0: seq<Leaf>, v1: seq<Leaf>) {
    && Joint(x, v0, v1, st, rs) && AdmissibleKid(x, kid, path)
    && CountsOk(x, v0 + LeavesKid(kid, path)) && Unvisited(v0, path) && Apart(kid.name, rest)
    && Separate(v1, InosKids(cs), rs)
    && var p := PrepKid(x.c, kid, path, st);
       p.Prepared? && MatchKids(x, p.left, cs, rs.inodes) && Grows(p.st.store, x.rc.store)
  }

  ghost predicate KidsReady(x: Context, kids: seq<Kid>, path: Path, st: PrepState, cs: seq<Kid>, rest: seq<Kid>,
                            rs: RestState, v0: seq<Leaf>, v1: seq<Leaf>) {
    && Joint(x, v0, v1, st, rs) && AdmissibleKids(x, kids, path)
    && CountsOk(x, v0 + LeavesKids(kids, path)) && Unvisited(v0, path) && NamesApart(kids, rest)
    && Separate(v1, InosKids(cs), rs)
    && var p := PrepKids(x.c, kids, path, st);
       p.PreparedKids? && MatchKids(x, p.left, cs, rs.inodes) && Grows(p.st.store, x.rc.store)
  }

  /** The record of a directory. */
  predicate RecordsDir(fm: Fm) {
    fm.kind.FDir? && !fm.dontRestore && fm.hardlinkTo.None? && fm.largeName.None?
  }

  lemma RestoreEmptyDir(c: RestConfig, fm: Fm, path: Path, disk: seq<Kid>, rs: RestState)
    requires RecordsDir(fm) && !RpmDb(path) && fm.EmptyDir() && !Has(disk, fm.name)
    requires var r := RestoreKids(c, fm.children, path, [], rs); r.Restored? && r.disk == []
    ensures var r := RestoreKids(c, fm.children, path, [], rs);
            RestoreKid(c, fm, path, disk, rs) == Restored([Kid(fm.name, Dir(fm.perm, fm.mtime, r.out))], disk, r.rs)
  {
    var r := RestoreKids(c, fm.children, path, [], rs);
    assert r.out + [] == r.out;
  }

  lemma RestoreFullDir(c: RestConfig, fm: Fm, path: Path, k: Kid, rest: seq<Kid>, rs: RestState)
    requires RecordsDir(fm) && !RpmDb(path) && !fm.EmptyDir() && k.name == Escape(fm.name) && k.node.Dir?
    requires var r := RestoreKids(c, fm.children, path, k.node.kids, rs); r.Restored? && r.disk == []
    ensures var r := RestoreKids(c, fm.children, path, k.node.kids, rs);
            RestoreKid(c, fm, path, [k] + rest, rs) == Restored([Kid(fm.name, Dir(fm.perm, fm.mtime, r.out))], rest, r.rs)
  {
    HeadOf(k, rest);
    var r := RestoreKids(c, fm.children, path, k.node.kids, rs);
    assert r.out + [] == r.out;
  }

  /** A directory is restored once its entries are. */
  lemma DirDone(x: Context, kid: Kid, path: Path, pst: PrepState, w: seq<nat>, rest: seq<Kid>, rs: RestState,
                v0: seq<Leaf>, v1: seq<Leaf>, r: Restored, fm: Fm)
    requires kid.node.Dir? && fm.name == kid.name && fm.perm == MinDirPerm(kid.node.perm) && fm.mtime == kid.node.mtime
    requires KidsDone(x, kid.node.kids, path, pst, w, [], rs, v0, v1, r)
    ensures KidDone(x, kid, path, pst, w, rest, rs, v0, v1,
                    Restored([Kid(fm.name, Dir(fm.perm, fm.mtime, r.out))], rest, r.rs))
  {
  }

  lemma {:induction false} JointKid(x: Context, kid: Kid, path: Path, st: PrepState, cs: seq<Kid>, rest: seq<Kid>,
                                    rs: RestState, v0: seq<Leaf>, v1: seq<Leaf>)
    requires KidReady(x, kid, path, st, cs, rest, rs, v0, v1)
    ensures var p := PrepKid(x.c, kid, path, st);
            KidDone(x, kid, path, p.st, InosKids(cs), rest, rs, v0, v1, RestoreKid(x.rc, p.fm, path, cs + rest, rs))
    decreases kid.node, 1
  {
    match kid.node
    case File(ino) =>
      Extend(v0, Leaf(path, ino), ino);
      JointFile(x, kid.name, Leaf(path, ino), st, cs, rest, rs, v0, v1);
    case Dir(_, _, kids) =>
      DirReady(x, kid, path, st, cs, rest, rs, v0, v1);
      JointKids(x, kids, path, st, Inner(cs), [], rs, v0, v1);
      assert Inner(cs) + [] == Inner(cs);
      DirRestored(x, kid, path, st, cs, rest, rs, v0, v1);
  }

  /** The entries on disk of the directory, if there is one. */
  function Inner(cs: seq<Kid>): seq<Kid> {
    if cs == [] || cs[0].node.File? then [] else cs[0].node.kids
  }

  lemma DirReady(x: Context, kid: Kid, path: Path, st: PrepState, cs: seq<Kid>, rest: seq<Kid>,
                 rs: RestState, v0: seq<Leaf>, v1: seq<Leaf>)
    requires KidReady(x, kid, path, st, cs, rest, rs, v0, v1) && kid.node.Dir?
    ensures KidsReady(x, kid.node.kids, path, st, Inner(cs), [], rs, v0, v1)
  {
    PrepKidsOk(x, kid.node.kids, path, st);
    DirMatch(x, kid, path, st, cs, rs);
  }

  lemma DirRestored(x: Context, kid: Kid, path: Path, st: PrepState, cs: seq<Kid>, rest: seq<Kid>,
                    rs: RestState, v0: seq<Leaf>, v1: seq<Leaf>)
    requires KidReady(x, kid, path, st, cs, rest, rs, v0, v1) && kid.node.Dir?
    requires var ps := PrepKids(x.c, kid.node.kids, path, st);
             ps.PreparedKids? && KidsDone(x, kid.node.kids, path, ps.st, InosKids(Inner(cs)), [], rs, v0, v1,
                                          RestoreKids(x.rc, ps.fms, path, Inner(cs), rs))
    ensures var p := PrepKid(x.c, kid, path, st);
            KidDone(x, kid, path, p.st, InosKids(cs), rest, rs, v0, v1, RestoreKid(x.rc, p.fm, path, cs + rest, rs))
  {
    DirMatch(x, kid, path, st, cs, rs);
    var p, ps := PrepKid(x.c, kid, path, st), PrepKids(x.c, kid.node.kids, path, st);
    var r := RestoreKids(x.rc, ps.fms, path, Inner(cs), rs);
    PrepKidOk(x, kid, path, st);
    DirDone(x, kid, path, ps.st, InosKids(Inner(cs)), rest, rs, v0, v1, r, p.fm);
    RestoreDir(x.rc, p.fm, path, cs, rest, rs);
  }

  lemma RestoreDir(c: RestConfig, fm: Fm, path: Path, cs: seq<Kid>, rest: seq<Kid>, rs: RestState)
    requires RecordsDir(fm) && !RpmDb(path) && !Has(rest, fm.name) && (cs == [] <==> fm.EmptyDir())
    requires cs != [] ==> cs == [cs[0]] && cs[0].name == Escape(fm.name) && cs[0].node.Dir?
    requires var r := RestoreKids(c, fm.children, path, Inner(cs), rs); r.Restored? && r.disk == []
    ensures var r := RestoreKids(c, fm.children, path, Inner(cs), rs);
            RestoreKid(c, fm, path, cs + rest, rs) == Restored([Kid(fm.name, Dir(fm.perm, fm.mtime, r.out))], rest, r.rs)
  {
    if cs == [] {
      assert cs + rest == rest;
      RestoreEmptyDir(c, fm, path, rest, rs);
    } else {
      RestoreFullDir(c, fm, path, cs[0], rest, rs);
    }
  }

  /** What is on disk for a directory: nothing if it is recorded as empty. */
  lemma DirMatch(x: Context, kid: Kid, path: Path, st: PrepState, cs: seq<Kid>, rs: RestState)
    requires kid.node.Dir? && AdmissibleKid(x, kid, path) && Tracks(x.inodes, st.inodes)
    requires var p := PrepKid(x.c, kid, path, st); p.Prepared? && MatchKids(x, p.left, cs, rs.inodes)
    ensures var p, ps := PrepKid(x.c, kid, path, st), PrepKids(x.c, kid.node.kids, path, st);
            && ps.PreparedKids? && p.st == ps.st && RecordsDir(p.fm) && p.fm.children == ps.fms
            && p.fm.perm == MinDirPerm(kid.node.perm) && p.fm.mtime == kid.node.mtime
            && (cs == [] <==> p.fm.EmptyDir())
            && (cs != [] ==> cs == [cs[0]] && cs[0].name == Escape(kid.name) && cs[0].node.Dir?)
            && MatchKids(x, ps.left, Inner(cs), rs.inodes)
            && InosKids(cs) == InosKids(Inner(cs))
  {
    PrepKidOk(x, kid, path, st);
    PrepKidsOk(x, kid.node.kids, path, st);
    var p := PrepKid(x.c, kid, path, st);
    if p.left != [] {
      assert MatchKid(x, p.left[0], cs[0], rs.inodes);
      InosOne(cs[0]);
    }
  }

  lemma {:induction false} JointKids(x: Context, kids: seq<Kid>, path: Path, st: PrepState, cs: seq<Kid>, rest: seq<Kid>,
                                     rs: RestState, v0: seq<Leaf>, v1: seq<Leaf>)
    requires KidsReady(x, kids, path, st, cs, rest, rs, v0, v1)
    ensures var p := PrepKids(x.c, kids, path, st);
            KidsDone(x, kids, path, p.st, InosKids(cs), rest, rs, v0, v1, RestoreKids(x.rc, p.fms, path, cs + rest, rs))
    decreases kids, 0
  {
    if kids == [] {
      assert cs + rest == rest && v0 + [] == v0 && v1 + [] == v1;
    } else {
      var n := |kids| - 1;
      var init, last, lastPath := kids[..n], kids[n], path + [kids[n].name];
      var m := InitReady(x, kids, path, st, cs, rest, rs, v0, v1);
      var cs1, cs2 := cs[..m], cs[m..];
      CutAt(cs, m, rest);
      JointKids(x, init, path, st, cs1, cs2 + rest, rs, v0, v1);
      var p1 := PrepKids(x.c, init, path, st);
      var p2 := PrepKid(x.c, last, lastPath, p1.st);
      var r1 := RestoreKids(x.rc, p1.fms, path, cs1 + (cs2 + rest), rs);
      LastReady(x, kids, path, st, cs, m, rest, rs, v0, v1, p1.st, r1);
      JointKid(x, last, lastPath, p1.st, cs2, rest, r1.rs, v0 + LeavesKids(init, path), v1 + LeavesKids(r1.out, path));
      FinishKids(x, kids, path, st, cs, m, rest, rs, v0, v1);
    }
  }

  lemma CutAt(cs: seq<Kid>, m: nat, rest: seq<Kid>)
    requires m <= |cs|
    ensures cs[..m] + (cs[m..] + rest) == cs + rest
  {
  }

  /** The last entry's restore put after the others'. */
  lemma FinishKids(x: Context, kids: seq<Kid>, path: Path, st: PrepState, cs: seq<Kid>, m: nat, rest: seq<Kid>,
                   rs: RestState, v0: seq<Leaf>, v1: seq<Leaf>)
    requires kids != [] && m <= |cs| && AdmissibleKids(x, kids, path) && Tracks(x.inodes, st.inodes)
    requires PrepKids(x.c, kids[..|kids| - 1], path, st).PreparedKids?
    requires var n := |kids| - 1;
             var p1 := PrepKids(x.c, kids[..n], path, st);
             var p2 := PrepKid(x.c, kids[n], path + [kids[n].name], p1.st);
             && p2.Prepared?
             && var r1 := RestoreKids(x.rc, p1.fms, path, cs + rest, rs);
             && KidsDone(x, kids[..n], path, p1.st, InosKids(cs[..m]), cs[m..] + rest, rs, v0, v1, r1)
             && KidDone(x, kids[n], path + [kids[n].name], p2.st, InosKids(cs[m..]), rest, r1.rs,
                        v0 + LeavesKids(kids[..n], path), v1 + LeavesKids(r1.out, path),
                        RestoreKid(x.rc, p2.fm, path + [kids[n].name], cs[m..] + rest, r1.rs))
    ensures var p := PrepKids(x.c, kids, path, st);
            KidsDone(x, kids, path, p.st, InosKids(cs), rest, rs, v0, v1, RestoreKids(x.rc, p.fms, path, cs + rest, rs))
  {
    var n, lastPath := |kids| - 1, path + [kids[|kids| - 1].name];
    var p1 := PrepKids(x.c, kids[..n], path, st);
    var p2 := PrepKid(x.c, kids[n], lastPath, p1.st);
    var r1 := RestoreKids(x.rc, p1.fms, path, cs + rest, rs);
    var r2 := RestoreKid(x.rc, p2.fm, lastPath, cs[m..] + rest, r1.rs);
    BothDone(x, kids, path, p1.st, p2.st, cs, m, rest, rs, v0, v1, r1, r2);
    PrepSnoc(x, kids, path, st);
    RestoreSnoc(x.rc, p1.fms, p2.fm, path, cs + rest, rs);
  }

  /** The entries but the last are ready, with the last one's file in the rest. */
  lemma InitReady(x: Context, kids: seq<Kid>, path: Path, st: PrepState, cs: seq<Kid>, rest: seq<Kid>,
                  rs: RestState, v0: seq<Leaf>, v1: seq<Leaf>) returns (m: nat)
    requires KidsReady(x, kids, path, st, cs, rest, rs, v0, v1) && kids != []
    ensures m <= |cs|
    ensures KidsReady(x, kids[..|kids| - 1], path, st, cs[..m], cs[m..] + rest, rs, v0, v1)
    ensures LastMatch(x, kids, path, st, cs[m..], rs)
  {
    var n := |kids| - 1;
    m := InitMatch(x, kids, path, st, cs, rest, rs);
    AdmissibleInit(x, kids, path);
    assert cs == cs[..m] + cs[m..];
    InosSplit(cs[..m], cs[m..]);
    SeparateFirst(v1, InosKids(cs[..m]), InosKids(cs[m..]), rs);
    LastCounts(x, kids, path, v0);
    CountsPrefix(x, v0 + LeavesKids(kids[..n], path), LeavesKid(kids[n], path + [kids[n].name]));
  }

  lemma InitMatch(x: Context, kids: seq<Kid>, path: Path, st: PrepState, cs: seq<Kid>, rest: seq<Kid>, rs: RestState)
      returns (m: nat)
    requires AdmissibleKids(x, kids, path) && Tracks(x.inodes, st.inodes) && kids != [] && NamesApart(kids, rest)
    requires var p := PrepKids(x.c, kids, path, st);
             p.PreparedKids? && MatchKids(x, p.left, cs, rs.inodes) && Grows(p.st.store, x.rc.store)
    ensures m <= |cs|
    ensures var p1 := PrepKids(x.c, kids[..|kids| - 1], path, st);
            p1.PreparedKids? && MatchKids(x, p1.left, cs[..m], rs.inodes) && Grows(p1.st.store, x.rc.store)
    ensures LastMatch(x, kids, path, st, cs[m..], rs)
    ensures NamesApart(kids[..|kids| - 1], cs[m..] + rest)
  {
    var n := |kids| - 1;
    PrepSnoc(x, kids, path, st);
    AdmissibleInit(x, kids, path);
    PrepKidsOk(x, kids[..n], path, st);
    var p1 := PrepKids(x.c, kids[..n], path, st);
    PrepKidOk(x, kids[n], path + [kids[n].name], p1.st);
    var p2 := PrepKid(x.c, kids[n], path + [kids[n].name], p1.st);
    m := |p1.left|;
    SplitMatch(x, p1.left, p2.left, cs, rs.inodes);
    if cs[m..] != [] { assert MatchKid(x, p2.left[0], cs[m..][0], rs.inodes); }
    InitApart(x, kids, cs[m..], rest);
  }

  lemma SeparateFirst(v1: seq<Leaf>, w1: seq<nat>, w2: seq<nat>, rs: RestState)
    requires Separate(v1, w1 + w2, rs)
    ensures Separate(v1, w1, rs)
  {
    assert forall j :: 0 <= j < |w1| ==> (w1 + w2)[j] == w1[j];
  }

  ghost predicate LastMatch(x: Context, kids: seq<Kid>, path: Path, st: PrepState, cs2: seq<Kid>, rs: RestState)
    requires kids != []
  {
    var n := |kids| - 1;
    var p1 := PrepKids(x.c, kids[..n], path, st);
    && p1.PreparedKids?
    && var p2 := PrepKid(x.c, kids[n], path + [kids[n].name], p1.st);
       p2.Prepared? && MatchKids(x, p2.left, cs2, rs.inodes)
  }
  /** Restoring the others has not touched the last entry's files. */
  lemma LastUntouched(x: Context, v1: seq<Leaf>, o1: seq<Leaf>, cs: seq<Kid>, m: nat, left: seq<Kid>,
                      rs: RestState, rs1: RestState)
    requires m <= |cs| && Separate(v1, InosKids(cs), rs) && Consumes(v1, o1, InosKids(cs[..m]), rs, rs1)
    requires MatchKids(x, left, cs[m..], rs.inodes)
    ensures Separate(v1 + o1, InosKids(cs[m..]), rs1) && MatchKids(x, left, cs[m..], rs1.inodes)
  {
    assert cs == cs[..m] + cs[m..];
    InosSplit(cs[..m], cs[m..]);
    SeparateRest(v1, o1, InosKids(cs[..m]), InosKids(cs[m..]), rs, rs1);
    MatchKidsFrame(x, left, cs[m..], rs.inodes, rs1.inodes);
  }

  lemma PrepSnoc(x: Context, kids: seq<Kid>, path: Path, st: PrepState)
    requires kids != [] && AdmissibleKids(x, kids, path) && Tracks(x.inodes, st.inodes)
    requires PrepKids(x.c, kids, path, st).PreparedKids?
    ensures PrepKids(x.c, kids[..|kids| - 1], path, st).PreparedKids?
    ensures var n := |kids| - 1;
            var p1 := PrepKids(x.c, kids[..n], path, st);
            var p2 := PrepKid(x.c, kids[n], path + [kids[n].name], p1.st);
            && p2.Prepared? && p2.fm.name == kids[n].name
            && PrepKids(x.c, kids, path, st) == PreparedKids(p1.fms + [p2.fm], p1.left + p2.left, p2.st)
  {
    var n := |kids| - 1;
    AdmissibleInit(x, kids, path);
    PrepKidsOk(x, kids[..n], path, st);
    PrepKidOk(x, kids[n], path + [kids[n].name], PrepKids(x.c, kids[..n], path, st).st);
  }

  lemma RestoreSnoc(c: RestConfig, fms: seq<Fm>, fm: Fm, path: Path, disk: seq<Kid>, rs: RestState)
    requires var r1 := RestoreKids(c, fms, path, disk, rs);
             r1.Restored? && RestoreKid(c, fm, path + [fm.name], r1.disk, r1.rs).Restored?
    ensures var r1 := RestoreKids(c, fms, path, disk, rs);
            var r2 := RestoreKid(c, fm, path + [fm.name], r1.disk, r1.rs);
            RestoreKids(c, fms + [fm], path, disk, rs) == Restored(r1.out + r2.out, r2.disk, r2.rs)
  {
    assert (fms + [fm])[..|fms|] == fms;
  }

  lemma LastCounts(x: Context, kids: seq<Kid>, path: Path, v0: seq<Leaf>)
    requires kids != [] && CountsOk(x, v0 + LeavesKids(kids, path))
    ensures var n := |kids| - 1;
            CountsOk(x, v0 + LeavesKids(kids[..n], path) + LeavesKid(kids[n], path + [kids[n].name]))
  {
    var n := |kids| - 1;
    assert v0 + LeavesKids(kids, path)
        == v0 + LeavesKids(kids[..n], path) + LeavesKid(kids[n], path + [kids[n].name]);
  }

  /** Once the others are restored the last entry is ready. */
  lemma LastReady(x: Context, kids: seq<Kid>, path: Path, st: PrepState, cs: seq<Kid>, m: nat, rest: seq<Kid>,
                  rs: RestState, v0: seq<Leaf>, v1: seq<Leaf>, pst1: PrepState, r1: Restored)
    requires KidsReady(x, kids, path, st, cs, rest, rs, v0, v1) && kids != [] && m <= |cs|
    requires LastMatch(x, kids, path, st, cs[m..], rs) && pst1 == PrepKids(x.c, kids[..|kids| - 1], path, st).st
    requires KidsDone(x, kids[..|kids| - 1], path, pst1, InosKids(cs[..m]), cs[m..] + rest, rs, v0, v1, r1)
    ensures var n := |kids| - 1;
            KidReady(x, kids[n], path + [kids[n].name], pst1, cs[m..], rest, r1.rs,
                     v0 + LeavesKids(kids[..n], path), v1 + LeavesKids(r1.out, path))
  {
    var n := |kids| - 1;
    PrepSnoc(x, kids, path, st);
    var p2 := PrepKid(x.c, kids[n], path + [kids[n].name], pst1);
    LastUntouched(x, v1, LeavesKids(r1.out, path), cs, m, p2.left, rs, r1.rs);
    LastCounts(x, kids, path, v0);
    LastUnvisited(kids, path, v0);
    AdmissibleInit(x, kids, path);
    assert Apart(kids[n].name, rest);
  }

  lemma BothDone(x: Context, kids: seq<Kid>, path: Path, pst1: PrepState, pst2: PrepState, cs: seq<Kid>, m: nat,
                 rest: seq<Kid>, rs: RestState, v0: seq<Leaf>, v1: seq<Leaf>, r1: Restored, r2: Restored)
    requires kids != [] && m <= |cs|
    requires var n := |kids| - 1;
             && KidsDone(x, kids[..n], path, pst1, InosKids(cs[..m]), cs[m..] + rest, rs, v0, v1, r1)
             && KidDone(x, kids[n], path + [kids[n].name], pst2, InosKids(cs[m..]), rest, r1.rs,
                        v0 + LeavesKids(kids[..n], path), v1 + LeavesKids(r1.out, path), r2)
    ensures KidsDone(x, kids, path, pst2, InosKids(cs), rest, rs, v0, v1, Restored(r1.out + r2.out, r2.disk, r2.rs))
  {
    var n := |kids| - 1;
    assert cs == cs[..m] + cs[m..];
    InosSplit(cs[..m], cs[m..]);
    ConsumesBoth(v1, LeavesKids(r1.out, path), LeavesKid(r2.out[0], path + [kids[n].name]),
                 InosKids(cs[..m]), InosKids(cs[m..]), rs, r1.rs, r2.rs);
    JoinLast(kids, path, r1.out, r2.out[0], v0, v1);
    assert r2.out == [r2.out[0]];
  }

  lemma SplitMatch(x: Context, a: seq<Kid>, b: seq<Kid>, cs: seq<Kid>, inodes: map<nat, Inode>)
    requires MatchKids(x, a + b, cs, inodes)
    ensures |a| <= |cs| && MatchKids(x, a, cs[..|a|], inodes) && MatchKids(x, b, cs[|a|..], inodes)
  {
    assert forall i :: 0 <= i < |a| ==> (a + b)[i] == a[i];
    assert forall i :: 0 <= i < |b| ==> (a + b)[|a| + i] == b[i];
  }

  lemma InitApart(x: Context, kids: seq<Kid>, cs2: seq<Kid>, rest: seq<Kid>)
    requires kids != [] && NamesApart(kids, rest)
    requires forall i, j :: 0 <= i < j < |kids| ==> Escape(kids[i].name) != Escape(kids[j].name)
    requires |cs2| <= 1 && (cs2 != [] ==> cs2[0].name == Escape(kids[|kids| - 1].name))
    ensures NamesApart(kids[..|kids| - 1], cs2 + rest)
  {
    var n := |kids| - 1;
    if cs2 == [] {
      assert cs2 + rest == rest;
    } else {
      assert cs2 == [cs2[0]];
      forall i | 0 <= i < n ensures Apart(kids[i].name, cs2 + rest) {
        SiblingApart(kids[i].name, cs2[0], rest, kids[n].name);
      }
    }
  }

  lemma JoinLast(kids: seq<Kid>, path: Path, out: seq<Kid>, k: Kid, v0: seq<Leaf>, v1: seq<Leaf>)
    requires kids != [] && SameKids(kids[..|kids| - 1], out) && SameKid(kids[|kids| - 1], k)
    ensures SameKids(kids, out + [k])
    ensures var p := path + [kids[|kids| - 1].name];
            && LeavesKids(out + [k], path) == LeavesKids(out, path) + LeavesKid(k, p)
            && v0 + LeavesKids(kids, path) == v0 + LeavesKids(kids[..|kids| - 1], path) + LeavesKid(kids[|kids| - 1], p)
            && v1 + LeavesKids(out + [k], path) == v1 + LeavesKids(out, path) + LeavesKid(k, p)
  {
    assert (out + [k])[..|out|] == out;
  }

  // ---------------------------------------------------------------------------
  // Main results

  /** A whole image tree to be prepared. */
  ghost predicate Admissible(x: Context, kids: seq<Kid>) {
    AdmissibleKids(x, kids, []) && CountsOk(x, LeavesKids(kids, []))
  }

  function Prepare(x: Context, kids: seq<Kid>): PreparedKids {
    PrepKids(x.c, kids, [], PrepState(x.inodes, map[], x.store))
  }

  function Restore(x: Context, kids: seq<Kid>, disk: seq<Kid>, rs: RestState): Restored
    requires Prepare(x, kids).PreparedKids?
  {
    RestoreKids(x.rc, Prepare(x, kids).fms, [], disk, rs)
  }

  /** What is on disk before restoring: the tree Git has stored and checked out,
      or before a quick restore the prepared tree. Large files are in the store. */
  ghost predicate OnDisk(x: Context, kids: seq<Kid>, disk: seq<Kid>, rs: RestState) {
    && Prepare(x, kids).PreparedKids?
    && MatchKids(x, Prepare(x, kids).left, disk, rs.inodes)
    && Separate([], InosKids(disk), rs)
    && (forall n :: n in rs.inodes ==> n < rs.next)
    && rs.done == map[]
    && Grows(Prepare(x, kids).st.store, x.rc.store)
  }

  /** The same tree, up to chmod_min: directories, and files path by path. */
  ghost predicate SameTree(x: Context, kids: seq<Kid>, out: seq<Kid>, inodes: map<nat, Inode>) {
    var l0, l1 := LeavesKids(kids, []), LeavesKids(out, []);
    && SameKids(kids, out)
    && |l0| == |l1|
    && forall i :: 0 <= i < |l0| ==>
         && l1[i].path == l0[i].path && l0[i].ino in x.inodes && l1[i].ino in inodes
         && Same(x.rc.quick, x.inodes[l0[i].ino], inodes[l1[i].ino])
  }

  /** Two paths are names of one file before if and only if they are afterwards. */
  ghost predicate SameLinks(l0: seq<Leaf>, l1: seq<Leaf>) {
    |l0| == |l1| && forall i, j :: 0 <= i < |l0| && 0 <= j < |l0| ==>
      (l0[i].ino == l0[j].ino <==> l1[i].ino == l1[j].ino)
  }

  /** The paths under which link(2) looks for targets are those of the tree. */
  ghost predicate Resolves(done: map<Path, nat>, v: seq<Leaf>) {
    forall i :: 0 <= i < |v| ==> v[i].path in done && done[v[i].path] == v[i].ino
  }

  lemma JointStart(x: Context, rs: RestState)
    requires (forall n :: n in rs.inodes ==> n < rs.next) && rs.done == map[]
    ensures Joint(x, [], [], PrepState(x.inodes, map[], x.store), rs)
  {
    var st := PrepState(x.inodes, map[], x.store);
    forall n | n in x.inodes ensures NlinkOk(x, [], st, n) {}
  }

  lemma Everything(x: Context, kids: seq<Kid>, disk: seq<Kid>, rs: RestState)
    requires Admissible(x, kids) && OnDisk(x, kids, disk, rs)
    ensures KidsDone(x, kids, [], Prepare(x, kids).st, InosKids(disk), [], rs, [], [], Restore(x, kids, disk, rs))
  {
    assert [] + LeavesKids(kids, []) == LeavesKids(kids, []);
    JointStart(x, rs);
    JointKids(x, kids, [], PrepState(x.inodes, map[], x.store), disk, [], rs, [], []);
    assert disk + [] == disk;
  }

  /** Restoring an admissible tree from what Git gives back succeeds, and the result is
      the same tree: names, types, contents, modes, times, empty directories, FIFOs,
      large files and `.git*` names. */
  lemma RoundTrip(x: Context, kids: seq<Kid>, disk: seq<Kid>, rs: RestState)
    requires Admissible(x, kids) && OnDisk(x, kids, disk, rs)
    ensures var r := Restore(x, kids, disk, rs);
            && r.Restored? && r.disk == [] && SameTree(x, kids, r.out, r.rs.inodes)
            && Resolves(r.rs.done, LeavesKids(r.out, []))
  {
    Everything(x, kids, disk, rs);
    var r := Restore(x, kids, disk, rs);
    assert [] + LeavesKids(kids, []) == LeavesKids(kids, []) && [] + LeavesKids(r.out, []) == LeavesKids(r.out, []);
  }

  /** All names of file `ino` are in the tree, there are several, and preparing
      deletes the first of them. */
  ghost predicate GroupAtRisk(x: Context, v: seq<Leaf>, ino: nat)
    requires Known(x, v) && ino in x.inodes
  {
    Count(v, ino) == x.inodes[ino].nlink >= 2 && FirstDeleted(x, v, ino)
  }

  ghost predicate LinksSafe(x: Context, v: seq<Leaf>)
    requires Known(x, v)
  {
    forall ino {:trigger GroupAtRisk(x, v, ino)} :: ino in x.inodes ==> !GroupAtRisk(x, v, ino)
  }

  lemma SafeLinksShared(x: Context, v: seq<Leaf>, w: seq<Leaf>)
    requires Known(x, v) && CountsOk(x, v) && LinksSafe(x, v) && Share(Reps(x, v), w)
    ensures SameLinks(v, w)
  {
    forall i, j | 0 <= i < |v| && 0 <= j < |v| ensures v[i].ino == v[j].ino <==> w[i].ino == w[j].ino {
      assert Reps(x, v)[i] == Rep(x, v, i) && Reps(x, v)[j] == Rep(x, v, j);
      NotLost(x, v, i);
      NotLost(x, v, j);
      RepOwner(x, v, i);
      RepOwner(x, v, j);
    }
  }

  lemma RiskyLinksNotShared(x: Context, v: seq<Leaf>, w: seq<Leaf>, ino: nat)
    requires Known(x, v) && ino in x.inodes && GroupAtRisk(x, v, ino) && Share(Reps(x, v), w)
    ensures !SameLinks(v, w)
  {
    var j := LastName(v, ino);
    OnlyOne(v[..j + 1], ino);
    FirstOfPrefix(v, j + 1, ino);
    var i := First(v, ino);
    assert Lost(x, v, j) && !Lost(x, v, i);
    assert Reps(x, v)[i] == Rep(x, v, i) == i && Reps(x, v)[j] == Rep(x, v, j) == j;
  }

  /** Hard link groups come back if and only if no group is at risk: the test
      `st_nlink > 1` no longer sees the last link of such a group, because the
      first one is gone. */
  lemma LinksRoundTrip(x: Context, kids: seq<Kid>, disk: seq<Kid>, rs: RestState)
    requires Admissible(x, kids) && OnDisk(x, kids, disk, rs)
    ensures Restore(x, kids, disk, rs).Restored? && Known(x, LeavesKids(kids, []))
    ensures SameLinks(LeavesKids(kids, []), LeavesKids(Restore(x, kids, disk, rs).out, []))
       <==> LinksSafe(x, LeavesKids(kids, []))
  {
    Everything(x, kids, disk, rs);
    var v, w := LeavesKids(kids, []), LeavesKids(Restore(x, kids, disk, rs).out, []);
    assert [] + v == v && [] + w == w;
    if LinksSafe(x, v) {
      SafeLinksShared(x, v, w);
    } else {
      var ino :| ino in x.inodes && GroupAtRisk(x, v, ino);
      RiskyLinksNotShared(x, v, w, ino);
    }
  }

  lemma NotLost(x: Context, v: seq<Leaf>, j: nat)
    requires Known(x, v) && j < |v| && LinksSafe(x, v) && CountsOk(x, v)
    ensures !Lost(x, v, j)
  {
    if Lost(x, v, j) {
      var ino := v[j].ino;
      assert v == v[..j + 1] + v[j + 1..];
      CountMono(v[..j + 1], v[j + 1..], ino);
      FirstOfPrefix(v, j + 1, ino);
      TwoNames(v[..j + 1], ino);
      assert GroupAtRisk(x, v, ino);
    }
  }

  lemma {:induction false} FirstOfPrefix(v: seq<Leaf>, m: nat, n: nat)
    requires m <= |v|
    ensures First(v, n) < m ==> First(v[..m], n) == First(v, n)
    ensures First(v[..m], n) < m ==> First(v[..m], n) == First(v, n)
  {
    if m < |v| {
      FirstOfPrefix(v[..|v| - 1], m, n);
      assert v[..|v| - 1][..m] == v[..m];
    } else {
      assert v[..m] == v;
    }
  }

  /** The last leaf and an earlier one are names of `n`. */
  lemma TwoNames(v: seq<Leaf>, n: nat)
    requires |v| > 0 && v[|v| - 1].ino == n && First(v, n) < |v| - 1
    ensures Count(v, n) >= 2
  {
    var m := |v| - 1;
    FirstOfPrefix(v, m, n);
    FirstIsFirst(v[..m], n);
  }

  lemma OnlyOne(v: seq<Leaf>, n: nat)
    requires Count(v, n) >= 2
    ensures First(v, n) < |v| - 1
  {
    var m := |v| - 1;
    FirstIsFirst(v, n);
    if First(v, n) == m {
      FirstOfPrefix(v, m, n);
      FirstIsFirst(v[..m], n);
    }
  }

  lemma {:induction false} LastName(v: seq<Leaf>, n: nat) returns (j: nat)
    requires Count(v, n) > 0
    ensures j < |v| && v[j].ino == n && Count(v[..j + 1], n) == Count(v, n)
  {
    var m := |v| - 1;
    if v[m].ino == n {
      j := m;
      assert v[..j + 1] == v;
    } else {
      j := LastName(v[..m], n);
      assert v[..m][..j + 1] == v[..j + 1];
    }
  }

  // ---------------------------------------------------------------------------
  // What preparing leaves on disk

  /** Git can store this exactly: no name special to Git, no FIFO, no large file,
      no empty directory. */
  predicate CleanKid(x: Context, k: Kid)
    decreases k.node, 1
  {
    && GitCompatible(k.name)
    && match k.node
       case File(ino) =>
         && ino in x.inodes
         && (x.inodes[ino].kind.Reg? || x.inodes[ino].kind.Lnk?)
         && !IsLarge(x.c, k.name, x.inodes[ino])
       case Dir(_, _, kids) => kids != [] && CleanKids(x, kids)
  }

  predicate CleanKids(x: Context, kids: seq<Kid>)
    decreases kids, 0
  {
    forall i :: 0 <= i < |kids| ==> CleanKid(x, kids[i])
  }

  ghost predicate Distinct(w: seq<nat>) { forall i, j :: 0 <= i < j < |w| ==> w[i] != w[j] }

  /** A file left on disk is not left there twice, and is already as it should be. */
  ghost predicate KeptOk(x: Context, v0: seq<Leaf>, st: PrepState, n: nat)
    requires Known(x, v0)
  {
    && n in x.inodes && n in st.inodes && Same(true, x.inodes[n], st.inodes[n]) && st.inodes[n].nlink > 0
    && 0 < Count(v0, n)
    && (FirstDeleted(x, v0, n) ==> Count(v0, n) == x.inodes[n].nlink)
  }

  ghost predicate PrepJoint(x: Context, v0: seq<Leaf>, st: PrepState, w: seq<nat>) {
    && Known(x, v0) && Tracks(x.inodes, st.inodes) && NlinksOk(x, v0, st) && StoreOk(x, v0, st)
    && Distinct(w)
    && forall n {:trigger KeptOk(x, v0, st, n)} :: n in w ==> KeptOk(x, v0, st, n)
  }

  lemma KeptStep(x: Context, v0: seq<Leaf>, l: Leaf, st: PrepState, st': PrepState, w: seq<nat>)
    requires PrepJoint(x, v0, st, w) && KnownLeaf(x, l) && Known(x, v0 + [l]) && Tracks(x.inodes, st'.inodes)
    requires Count(v0, l.ino) < x.inodes[l.ino].nlink
    requires forall n :: n in st.inodes ==> st'.inodes[n].perm == st.inodes[n].perm
    requires forall n :: n in st.inodes && n != l.ino ==> st'.inodes[n].nlink == st.inodes[n].nlink
    requires l.ino in w ==> l.ino in st'.inodes && st'.inodes[l.ino].nlink > 0
    ensures forall n {:trigger KeptOk(x, v0 + [l], st', n)} :: n in w ==> KeptOk(x, v0 + [l], st', n)
  {
    forall n | n in w ensures KeptOk(x, v0 + [l], st', n) {
      assert KeptOk(x, v0, st, n);
      Extend(v0, l, n);
      FirstDeletedStep(x, v0, l, n);
      FirstIsFirst(v0, n);
    }
  }

  lemma PrepChmod(x: Context, v0: seq<Leaf>, st: PrepState, w: seq<nat>, ino: nat)
    requires PrepJoint(x, v0, st, w) && ino in st.inodes
    ensures PrepJoint(x, v0, st.(inodes := st.inodes[ino := ChmodMin(st.inodes[ino])]), w)
  {
    var st' := st.(inodes := st.inodes[ino := ChmodMin(st.inodes[ino])]);
    NlinksChmod(x, v0, st, ino);
    forall n | n in w ensures KeptOk(x, v0, st', n) { assert KeptOk(x, v0, st, n); }
  }

  lemma EscapeKeepsPickle(n: Name)
    ensures Escape(n) == PICKLE_NAME <==> n == PICKLE_NAME
  {
    assert PICKLE_NAME[0] == 'g';
    if !GitCompatible(n) { assert Escape(n)[0] == '.' && n[0] == '.'; }
  }

  ghost predicate LeftReady(x: Context, name: Name, l: Leaf, st: PrepState, v0: seq<Leaf>, w: seq<nat>) {
    && PrepJoint(x, v0, st, w) && KnownLeaf(x, l) && Known(x, v0 + [l])
    && l.path[|l.path| - 1] == name && ChmodMin(st.inodes[l.ino]) == st.inodes[l.ino]
    && AdmissibleFile(x, name, x.inodes[l.ino], l.path)
    && Count(v0, l.ino) < x.inodes[l.ino].nlink && !Visited(v0, l.path)
  }

  lemma LinkedNames(x: Context, name: Name, l: Leaf, st: PrepState, v0: seq<Leaf>, w: seq<nat>)
    requires LeftReady(x, name, l, st, v0, w) && st.inodes[l.ino].nlink > 1 && l.ino in st.hardlinks
    ensures Count(v0, l.ino) > 0 && Clear(x, v0 + [l], |v0|)
  {
    assert NlinkOk(x, v0, st, l.ino);
    FirstIsFirst(v0, l.ino);
    LinkedRep(x, v0, l, st);
  }

  lemma LeftLinked(x: Context, name: Name, l: Leaf, st: PrepState, v0: seq<Leaf>, w: seq<nat>)
    requires LeftReady(x, name, l, st, v0, w) && st.inodes[l.ino].nlink > 1 && l.ino in st.hardlinks
    ensures PrepJoint(x, v0 + [l], Unlink(st, l.ino), w) && Clear(x, v0 + [l], |v0|)
  {
    LinkedNames(x, name, l, st, v0, w);
    NlinksLinked(x, v0, l, st);
    KeptStep(x, v0, l, st, Unlink(st, l.ino), w);
    StoreStep(x, v0, l, st, Unlink(st, l.ino), LargeNameOf(st.inodes[l.ino], l.path), st.inodes[l.ino]);
  }

  /** Preparing a file that is not recorded as a link fails exactly if it is blocked. */
  lemma FreshClear(x: Context, fm: Fm, l: Leaf, st: PrepState, v0: seq<Leaf>, w: seq<nat>)
    requires LeftReady(x, fm.name, l, st, v0, w) && (st.inodes[l.ino].nlink > 1 ==> l.ino !in st.hardlinks)
    ensures PrepLink(x.c, fm, l.ino, l.path, st).Prepared? <==> Clear(x, v0 + [l], |v0|)
  {
    FreshRep(x, v0, l, st);
    FreshFails(x.c, fm, l, st);
    assert st.inodes[l.ino].kind == x.inodes[l.ino].kind;
    assert Clear(x, v0 + [l], |v0|) <==> !Blocked(x, v0 + [l], |v0|);
  }

  lemma FreshFails(c: PrepConfig, fm: Fm, l: Leaf, st: PrepState)
    requires l.ino in st.inodes && (st.inodes[l.ino].nlink > 1 ==> l.ino !in st.hardlinks)
    ensures PrepLink(c, fm, l.ino, l.path, st).PrepErr? <==> IsLarge(c, fm.name, st.inodes[l.ino]) && !GitCompatible(fm.name)
  {
  }

  lemma FreshPart(x: Context, fm: Fm, l: Leaf, st: PrepState, v0: seq<Leaf>, w: seq<nat>)
    requires LeftReady(x, fm.name, l, st, v0, w) && (st.inodes[l.ino].nlink > 1 ==> l.ino !in st.hardlinks)
    ensures var p := PrepLink(x.c, fm, l.ino, l.path, st);
            && (p.Prepared? <==> Clear(x, v0 + [l], |v0|))
            && (p.Prepared? ==> PrepMoves(x, l, st, p.st) && PrepJoint(x, v0 + [l], p.st, w))
  {
    var p := PrepLink(x.c, fm, l.ino, l.path, st);
    FreshClear(x, fm, l, st, v0, w);
    PrepLinkMoves(x, fm, l, st, v0);
    PrepLinkNlink(x.c, fm, l.ino, l.path, st);
    if p.Prepared? { FreshMoves(x, fm.name, l, st, p.st, v0, w); }
  }

  predicate OnlyNlink(st: PrepState, st': PrepState, ino: nat) {
    ino in st.inodes && ino in st'.inodes && st'.inodes[ino] == st.inodes[ino].(nlink := st'.inodes[ino].nlink)
  }

  lemma PrepLinkNlink(c: PrepConfig, fm: Fm, ino: nat, path: Path, st: PrepState)
    requires ino in st.inodes
    ensures PrepLink(c, fm, ino, path, st).Prepared? ==> OnlyNlink(st, PrepLink(c, fm, ino, path, st).st, ino)
  {
  }

  /** A file that is still on disk under an earlier name is recorded as a link. */
  lemma FreshNotKept(x: Context, name: Name, l: Leaf, st: PrepState, v0: seq<Leaf>, w: seq<nat>)
    requires LeftReady(x, name, l, st, v0, w) && (st.inodes[l.ino].nlink > 1 ==> l.ino !in st.hardlinks)
    ensures l.ino !in w
  {
    assert NlinkOk(x, v0, st, l.ino);
    assert l.ino in w ==> KeptOk(x, v0, st, l.ino);
  }

  lemma FreshMoves(x: Context, name: Name, l: Leaf, st: PrepState, st': PrepState, v0: seq<Leaf>, w: seq<nat>)
    requires LeftReady(x, name, l, st, v0, w) && (st.inodes[l.ino].nlink > 1 ==> l.ino !in st.hardlinks)
    requires PrepMoves(x, l, st, st') && StoreOk(x, v0 + [l], st') && OnlyNlink(st, st', l.ino)
    ensures PrepJoint(x, v0 + [l], st', w)
  {
    assert NlinkOk(x, v0, st, l.ino);
    FirstIsFirst(v0, l.ino);
    assert Tracks(x.inodes, st'.inodes);
    NlinksFresh(x, v0, l, st, st');
    FreshNotKept(x, name, l, st, v0, w);
    KeptStep(x, v0, l, st, st', w);
  }

  lemma LeftFresh(x: Context, fm: Fm, l: Leaf, st: PrepState, v0: seq<Leaf>, w: seq<nat>)
    requires LeftReady(x, fm.name, l, st, v0, w) && (st.inodes[l.ino].nlink > 1 ==> l.ino !in st.hardlinks)
    ensures var p := PrepLink(x.c, fm, l.ino, l.path, st);
            && (p.Prepared? <==> Clear(x, v0 + [l], |v0|))
            && (p.Prepared? ==> PrepJoint(x, v0 + [l], p.st, w + InosKids(p.left)) && CleanKids(x, p.left))
  {
    var p := PrepLink(x.c, fm, l.ino, l.path, st);
    FreshPart(x, fm, l, st, v0, w);
    if p.PrepErr? {
    } else if p.left == [] {
      assert w + InosKids(p.left) == w;
    } else {
      assert p.left == [Kid(Escape(fm.name), File(l.ino))];
      InosOne(p.left[0]);
      LeftKept(x, fm.name, l, st, v0, w, p.st);
    }
  }

  lemma LeftKept(x: Context, name: Name, l: Leaf, st: PrepState, v0: seq<Leaf>, w: seq<nat>, st': PrepState)
    requires LeftReady(x, name, l, st, v0, w) && (st.inodes[l.ino].nlink > 1 ==> l.ino !in st.hardlinks)
    requires !IsLarge(x.c, name, x.inodes[l.ino]) && !x.inodes[l.ino].kind.Fifo?
    requires l.ino in st'.inodes && st'.inodes[l.ino] == st.inodes[l.ino]
    ensures CleanKid(x, Kid(Escape(name), File(l.ino)))
    ensures l.ino !in w && KeptOk(x, v0 + [l], st', l.ino)
  {
    FreshNotKept(x, name, l, st, v0, w);
    assert NlinkOk(x, v0, st, l.ino);
    FirstIsFirst(v0, l.ino);
    EscapeCompatible(name);
    EscapeKeepsPickle(name);
    Extend(v0, l, l.ino);
    FirstDeletedStep(x, v0, l, l.ino);
    assert ChmodMin(x.inodes[l.ino]).perm == st.inodes[l.ino].perm;
  }

  lemma LeftFile(x: Context, name: Name, l: Leaf, st: PrepState, v0: seq<Leaf>, w: seq<nat>)
    requires PrepJoint(x, v0, st, w) && KnownLeaf(x, l)
    requires AdmissiblePath(l.path, name) && AdmissibleFile(x, name, x.inodes[l.ino], l.path)
    requires Count(v0, l.ino) < x.inodes[l.ino].nlink && Unvisited(v0, l.path)
    ensures var p := PrepFile(x.c, name, l.ino, l.path, st);
            && (p.Prepared? <==> Clear(x, v0 + [l], |v0|))
            && (p.Prepared? ==> PrepJoint(x, v0 + [l], p.st, w + InosKids(p.left)) && CleanKids(x, p.left))
  {
    PrepChmod(x, v0, st, w, l.ino);
    PrepFileLink(x.c, name, l.ino, l.path, st);
    LeftLink(x, FileRecord(name, ChmodMin(st.inodes[l.ino])), l, Widened(st, l.ino), v0, w);
  }

  lemma LeftLink(x: Context, fm: Fm, l: Leaf, st: PrepState, v0: seq<Leaf>, w: seq<nat>)
    requires LeftReady(x, fm.name, l, st, v0, w)
    ensures var p := PrepLink(x.c, fm, l.ino, l.path, st);
            && (p.Prepared? <==> Clear(x, v0 + [l], |v0|))
            && (p.Prepared? ==> PrepJoint(x, v0 + [l], p.st, w + InosKids(p.left)) && CleanKids(x, p.left))
  {
    if st.inodes[l.ino].nlink > 1 && l.ino in st.hardlinks {
      LeftLinked(x, fm.name, l, st, v0, w);
      assert w + InosKids([]) == w;
    } else {
      LeftFresh(x, fm, l, st, v0, w);
    }
  }

  lemma {:induction false} LeftKid(x: Context, kid: Kid, path: Path, st: PrepState, v0: seq<Leaf>, w: seq<nat>)
    requires PrepJoint(x, v0, st, w) && AdmissibleKid(x, kid, path)
    requires CountsOk(x, v0 + LeavesKid(kid, path)) && Unvisited(v0, path)
    ensures var p := PrepKid(x.c, kid, path, st);
            && (p.Prepared? <==> Clear(x, v0 + LeavesKid(kid, path), |v0|))
            && (p.Prepared? ==> PrepJoint(x, v0 + LeavesKid(kid, path), p.st, w + InosKids(p.left)) && CleanKids(x, p.left))
    decreases kid.node, 1
  {
    match kid.node
    case File(ino) =>
      Extend(v0, Leaf(path, ino), ino);
      LeftFile(x, kid.name, Leaf(path, ino), st, v0, w);
    case Dir(_, _, kids) =>
      LeftKids(x, kids, path, st, v0, w);
      DirLeft(x, kid, path, st);
  }

  /** A directory is prepared when its entries are, and leaves what they leave. */
  lemma DirLeft(x: Context, kid: Kid, path: Path, st: PrepState)
    requires kid.node.Dir? && AdmissibleKid(x, kid, path) && Tracks(x.inodes, st.inodes)
    ensures var p, ps := PrepKid(x.c, kid, path, st), PrepKids(x.c, kid.node.kids, path, st);
            && (p.Prepared? <==> ps.PreparedKids?)
            && (p.Prepared? ==> p.st == ps.st && InosKids(p.left) == InosKids(ps.left)
                                && (CleanKids(x, ps.left) ==> CleanKids(x, p.left)))
  {
    PrepKidOk(x, kid, path, st);
    PrepKidsOk(x, kid.node.kids, path, st);
    EscapeCompatible(kid.name);
    var p := PrepKid(x.c, kid, path, st);
    if p.Prepared? && p.left != [] { InosOne(p.left[0]); }
  }

  lemma {:induction false} LeftKids(x: Context, kids: seq<Kid>, path: Path, st: PrepState, v0: seq<Leaf>, w: seq<nat>)
    requires PrepJoint(x, v0, st, w) && AdmissibleKids(x, kids, path)
    requires CountsOk(x, v0 + LeavesKids(kids, path)) && Unvisited(v0, path)
    ensures var p := PrepKids(x.c, kids, path, st);
            && (p.PreparedKids? <==> Clear(x, v0 + LeavesKids(kids, path), |v0|))
            && (p.PreparedKids? ==>
                  PrepJoint(x, v0 + LeavesKids(kids, path), p.st, w + InosKids(p.left)) && CleanKids(x, p.left))
    decreases kids, 0
  {
    if kids == [] {
      assert v0 + [] == v0 && w + [] == w;
    } else {
      var n := |kids| - 1;
      var init, last, lastPath := kids[..n], kids[n], path + [kids[n].name];
      LastCounts(x, kids, path, v0);
      CountsPrefix(x, v0 + LeavesKids(init, path), LeavesKid(last, lastPath));
      AdmissibleInit(x, kids, path);
      LeftKids(x, init, path, st, v0, w);
      LastUnvisited(kids, path, v0);
      var p1 := PrepKids(x.c, init, path, st);
      ClearLast(x, kids, path, v0);
      if p1.PreparedKids? {
        var p2 := PrepKid(x.c, last, lastPath, p1.st);
        LeftKid(x, last, lastPath, p1.st, v0 + LeavesKids(init, path), w + InosKids(p1.left));
        if p2.Prepared? { LeftBoth(x, kids, path, v0, w, p1, p2); }
      }
    }
  }

  lemma ClearLast(x: Context, kids: seq<Kid>, path: Path, v0: seq<Leaf>)
    requires kids != []
    ensures var n := |kids| - 1;
            var v1, t := v0 + LeavesKids(kids[..n], path), LeavesKid(kids[n], path + [kids[n].name]);
            Clear(x, v0 + LeavesKids(kids, path), |v0|) <==> Clear(x, v1, |v0|) && Clear(x, v1 + t, |v1|)
  {
    var n := |kids| - 1;
    var v1, t := v0 + LeavesKids(kids[..n], path), LeavesKid(kids[n], path + [kids[n].name]);
    assert v0 + LeavesKids(kids, path) == v1 + t;
    ClearSplit(x, v1, t, |v0|);
  }

  lemma LeftBoth(x: Context, kids: seq<Kid>, path: Path, v0: seq<Leaf>, w: seq<nat>, p1: PreparedKids, p2: Prepared)
    requires kids != [] && p1.PreparedKids? && p2.Prepared? && CleanKids(x, p1.left) && CleanKids(x, p2.left)
    requires var n := |kids| - 1;
             PrepJoint(x, v0 + LeavesKids(kids[..n], path) + LeavesKid(kids[n], path + [kids[n].name]), p2.st,
                       w + InosKids(p1.left) + InosKids(p2.left))
    ensures PrepJoint(x, v0 + LeavesKids(kids, path), p2.st, w + InosKids(p1.left + p2.left))
    ensures CleanKids(x, p1.left + p2.left)
  {
    var n := |kids| - 1;
    assert v0 + LeavesKids(kids, path)
        == v0 + LeavesKids(kids[..n], path) + LeavesKid(kids[n], path + [kids[n].name]);
    InosSplit(p1.left, p2.left);
    assert w + InosKids(p1.left + p2.left) == w + InosKids(p1.left) + InosKids(p2.left);
  }

  /** Preparing succeeds just when no large file that is not recorded as a link has a
      name special to Git. After it, nothing is left that Git would ignore, alter or
      choke on: no empty directory, FIFO, large file, `.git*` name or second hard link.
      In particular every rmdir has acted on a directory that was really empty. */
  lemma PreparedIsClean(x: Context, kids: seq<Kid>)
    requires Admissible(x, kids)
    ensures var p, v := Prepare(x, kids), LeavesKids(kids, []);
            && Known(x, v) && (p.PreparedKids? <==> forall j :: 0 <= j < |v| ==> !Blocked(x, v, j))
            && (p.PreparedKids? ==>
                  && CleanKids(x, p.left) && Distinct(InosKids(p.left))
                  && forall n :: n in InosKids(p.left) ==>
                       && n in x.inodes && n in p.st.inodes
                       && Same(true, x.inodes[n], p.st.inodes[n]) && p.st.inodes[n].nlink > 0)
  {
    var st, p := PrepState(x.inodes, map[], x.store), Prepare(x, kids);
    assert [] + LeavesKids(kids, []) == LeavesKids(kids, []);
    assert PrepJoint(x, [], st, []) by {
      forall n | n in x.inodes ensures NlinkOk(x, [], st, n) {}
    }
    KnownKids(x, kids, []);
    LeftKids(x, kids, [], st, [], []);
    if p.PreparedKids? {
      assert [] + InosKids(p.left) == InosKids(p.left);
      forall n | n in InosKids(p.left)
        ensures n in x.inodes && n in p.st.inodes && Same(true, x.inodes[n], p.st.inodes[n]) && p.st.inodes[n].nlink > 0
      {
        assert KeptOk(x, [] + LeavesKids(kids, []), p.st, n);
      }
    }
  }

  lemma {:induction false} KnownKid(x: Context, kid: Kid, path: Path)
    requires AdmissibleKid(x, kid, path)
    ensures Known(x, LeavesKid(kid, path))
    decreases kid.node, 1
  {
    match kid.node
    case File(_) =>
    case Dir(_, _, kids) => KnownKids(x, kids, path);
  }

  lemma {:induction false} KnownKids(x: Context, kids: seq<Kid>, path: Path)
    requires AdmissibleKids(x, kids, path)
    ensures Known(x, LeavesKids(kids, path))
    decreases kids, 0
  {
    if kids != [] {
      AdmissibleInit(x, kids, path);
      KnownKids(x, kids[..|kids| - 1], path);
      KnownKid(x, kids[|kids| - 1], path + [kids[|kids| - 1].name]);
    }
  }

  lemma {:induction false} MatchSelf(x: Context, a: Kid, inodes: map<nat, Inode>)
    requires forall n :: n in InosKid(a) ==>
               n in x.inodes && n in inodes && Same(true, x.inodes[n], inodes[n]) && inodes[n].nlink > 0
    ensures MatchKid(x, a, a, inodes)
    decreases a.node, 1
  {
    match a.node
    case File(ino) => assert ino in InosKid(a);
    case Dir(_, _, kids) =>
      forall i | 0 <= i < |kids| ensures MatchKid(x, kids[i], kids[i], inodes) {
        InosMember(kids, i);
        MatchSelf(x, kids[i], inodes);
      }
  }

  /** A commit leaves the image as it was: preparing, and then restoring quickly
      what is still on disk, without touching the modes and times of files that
      were never away. Hard link groups are left alone unless one is at risk. */
  lemma CommitKeepsTree(x: Context, kids: seq<Kid>, next: nat)
    requires Admissible(x, kids) && x.rc.quick && Prepare(x, kids).PreparedKids?
    requires Grows(Prepare(x, kids).st.store, x.rc.store)
    requires forall n :: n in x.inodes ==> n < next
    ensures var p, v := Prepare(x, kids), LeavesKids(kids, []);
            var r := Restore(x, kids, p.left, RestState(p.st.inodes, next, map[]));
            && r.Restored? && r.disk == [] && SameTree(x, kids, r.out, r.rs.inodes)
            && Known(x, v) && (SameLinks(v, LeavesKids(r.out, [])) <==> LinksSafe(x, v))
  {
    PreparedIsClean(x, kids);
    PrepKidsOk(x, kids, [], PrepState(x.inodes, map[], x.store));
    var p := Prepare(x, kids);
    forall i | 0 <= i < |p.left| ensures MatchKid(x, p.left[i], p.left[i], p.st.inodes) {
      InosMember(p.left, i);
      MatchSelf(x, p.left[i], p.st.inodes);
    }
    assert Separate([], InosKids(p.left), RestState(p.st.inodes, next, map[])) by {
      forall j | 0 <= j < |InosKids(p.left)| ensures InosKids(p.left)[j] < next {
        assert InosKids(p.left)[j] in InosKids(p.left);
      }
    }
    assert OnDisk(x, kids, p.left, RestState(p.st.inodes, next, map[]));
    RoundTrip(x, kids, p.left, RestState(p.st.inodes, next, map[]));
    LinksRoundTrip(x, kids, p.left, RestState(p.st.inodes, next, map[]));
  }
}
