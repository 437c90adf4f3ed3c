/**
  Commits that are given the list of files that changed. Instead of walking the
  image, `File_Metadata.update` replaces the records of those files in the record
  that is held since the last commit or checkout. `CommitListed` says when the result
  is the record that a full walk would make.
 */
module FileListCommit {
  import opened FileMetadata
  import opened RoundTrip
  import opened Records

  /** File_Metadata.update, below the root's children. */
  function Update(fms: seq<Fm>, p: Path, fm: Fm): seq<Fm>
    requires p != []
    decreases |p|, |fms|
  {
    if fms == [] then []
    else
      var n := |fms| - 1;
      if fms[n].name != p[0] then Update(fms[..n], p, fm) + [fms[n]]
      else fms[..n] + [if |p| == 1 then fm else fms[n].(children := Update(fms[n].children, p[1..], fm))]
  }

  /** The file at `p` is inode `ino`, and `ino` is nowhere else in the tree. */
  ghost predicate OnlyAt(kids: seq<Kid>, p: Path, ino: nat)
    requires p != []
    decreases |p|, |kids|
  {
    kids != [] &&
    var n := |kids| - 1;
    if kids[n].name != p[0] then ino !in InosKid(kids[n]) && OnlyAt(kids[..n], p, ino)
    else
      && ino !in InosKids(kids[..n])
      && if |p| == 1 then kids[n].node == File(ino) else kids[n].node.Dir? && OnlyAt(kids[n].node.kids, p[1..], ino)
  }

  /** An ordinary file that needs no special handling: not a hard link, not large,
      readable by its owner. */
  predicate Ordinary(c: PrepConfig, i: Inode) {
    i.kind.Reg? && i.nlink == 1 && |i.kind.content| < c.threshold && i.perm.r
  }

  /** The two states differ in what is in `ino` only. */
  ghost predicate ButFor(s: PrepState, t: PrepState, ino: nat, i0: Inode, i1: Inode) {
    && s.hardlinks == t.hardlinks && s.store == t.store
    && ino in s.inodes && s.inodes[ino] == i0 && t.inodes == s.inodes[ino := i1]
  }

  ghost predicate SameResult(p: Prepared, q: Prepared, ino: nat, i0: Inode, i1: Inode) {
    match p
    case PrepErr(e) => q == p
    case Prepared(fm, left, s) => q.Prepared? && q.fm == fm && q.left == left && ButFor(s, q.st, ino, i0, i1)
  }

  ghost predicate SameResults(p: PreparedKids, q: PreparedKids, ino: nat, i0: Inode, i1: Inode) {
    match p
    case KidsErr(e) => q == p
    case PreparedKids(fms, left, s) => q.PreparedKids? && q.fms == fms && q.left == left && ButFor(s, q.st, ino, i0, i1)
  }

  lemma UpdateOther(s: PrepState, t: PrepState, other: nat, x: Inode, ino: nat, i0: Inode, i1: Inode)
    requires ButFor(s, t, ino, i0, i1) && other != ino
    ensures ButFor(s.(inodes := s.inodes[other := x]), t.(inodes := t.inodes[other := x]), ino, i0, i1)
  {
  }

  lemma ElsewhereStored(
      c: PrepConfig, fm: Fm, other: nat, path: Path, s: PrepState, t: PrepState, ino: nat, i0: Inode, i1: Inode)
    requires ButFor(s, t, ino, i0, i1) && other != ino && other in s.inodes
    ensures SameResult(PrepStored(c, fm, other, path, s), PrepStored(c, fm, other, path, t), ino, i0, i1)
  {
    UpdateOther(s, t, other, Unlink(s, other).inodes[other], ino, i0, i1);
  }

  lemma ElsewhereLink(
      c: PrepConfig, fm: Fm, other: nat, path: Path, s: PrepState, t: PrepState, ino: nat, i0: Inode, i1: Inode)
    requires ButFor(s, t, ino, i0, i1) && other != ino && other in s.inodes
    ensures SameResult(PrepLink(c, fm, other, path, s), PrepLink(c, fm, other, path, t), ino, i0, i1)
  {
    if s.inodes[other].nlink <= 1 {
      ElsewhereStored(c, fm, other, path, s, t, ino, i0, i1);
    } else if other in s.hardlinks {
      UpdateOther(s, t, other, Unlink(s, other).inodes[other], ino, i0, i1);
    } else {
      ElsewhereStored(c, fm, other, path, s.(hardlinks := s.hardlinks[other := path]), t.(hardlinks := t.hardlinks[other := path]), ino, i0, i1);
    }
  }

  lemma ElsewhereFile(
      c: PrepConfig, name: Name, other: nat, path: Path, s: PrepState, t: PrepState, ino: nat, i0: Inode, i1: Inode)
    requires ButFor(s, t, ino, i0, i1) && other != ino
    ensures SameResult(PrepFile(c, name, other, path, s), PrepFile(c, name, other, path, t), ino, i0, i1)
  {
    if other in s.inodes && path != GIT_DIR {
      var i := ChmodMin(s.inodes[other]);
      UpdateOther(s, t, other, i, ino, i0, i1);
      var s1, t1 := s.(inodes := s.inodes[other := i]), t.(inodes := t.inodes[other := i]);
      UpdateOther(s1, t1, other, Unlink(s1, other).inodes[other], ino, i0, i1);
      ElsewhereLink(c, FileRecord(name, i),
                    other, path, s1, t1, ino, i0, i1);
    }
  }

  /** Other files are recorded as before. */
  lemma {:induction false} Elsewhere(
      c: PrepConfig, kid: Kid, path: Path, s: PrepState, t: PrepState, ino: nat, i0: Inode, i1: Inode)
    requires ButFor(s, t, ino, i0, i1) && ino !in InosKid(kid)
    ensures SameResult(PrepKid(c, kid, path, s), PrepKid(c, kid, path, t), ino, i0, i1)
    decreases kid.node, 1
  {
    match kid.node
    case File(other) =>
      assert other in InosKid(kid);
      ElsewhereFile(c, kid.name, other, path, s, t, ino, i0, i1);
    case Dir(_, _, kids) =>
      if path != GIT_DIR { ElsewhereKids(c, kids, path, s, t, ino, i0, i1); }
  }

  lemma {:induction false} ElsewhereKids(
      c: PrepConfig, kids: seq<Kid>, path: Path, s: PrepState, t: PrepState, ino: nat, i0: Inode, i1: Inode)
    requires ButFor(s, t, ino, i0, i1) && ino !in InosKids(kids)
    ensures SameResults(PrepKids(c, kids, path, s), PrepKids(c, kids, path, t), ino, i0, i1)
    decreases kids, 0
  {
    if kids != [] {
      var n := |kids| - 1;
      assert InosKids(kids) == InosKids(kids[..n]) + InosKid(kids[n]);
      ElsewhereKids(c, kids[..n], path, s, t, ino, i0, i1);
      var p, q := PrepKids(c, kids[..n], path, s), PrepKids(c, kids[..n], path, t);
      if p.PreparedKids? { Elsewhere(c, kids[n], path + [kids[n].name], p.st, q.st, ino, i0, i1); }
    }
  }

  /** Where the walk goes. */
  predicate Walked(path: Path) { !(GIT_DIR <= path) && !RpmDb(path) }

  lemma TargetFile(c: PrepConfig, name: Name, path: Path, s: PrepState, t: PrepState, ino: nat, i0: Inode, i1: Inode)
    requires ButFor(s, t, ino, i0, i1) && Ordinary(c, i0) && Ordinary(c, i1) && GitCompatible(name) && Walked(path)
    ensures var p, q := PrepFile(c, name, ino, path, s), PrepFile(c, name, ino, path, t);
            && p.Prepared? && q == Prepared(FileRecord(name, i1), p.left, q.st) && p.left != []
            && ButFor(p.st, q.st, ino, i0, i1) && !p.fm.Unstored() && !p.fm.EmptyDir()
  {
    assert s.inodes[ino := i0] == s.inodes && t.inodes[ino := i1] == t.inodes;
  }

  /** One record of a listing, replaced by another. */
  ghost predicate UpdatedKid(p: Prepared, q: Prepared, at: Path, fm: Fm, ino: nat, i0: Inode, i1: Inode)
    requires at != []
  {
    p.Prepared? ==>
      && q.Prepared? && q.left == p.left && p.left != [] && ButFor(p.st, q.st, ino, i0, i1)
      && q.fm == (if |at| == 1 then fm else p.fm.(children := Update(p.fm.children, at[1..], fm)))
      && !Gone(p.fm) && !Gone(q.fm)
  }

  /** A listing with a record somewhere in it replaced. */
  ghost predicate UpdatedKids(p: PreparedKids, q: PreparedKids, at: Path, fm: Fm, ino: nat, i0: Inode, i1: Inode)
    requires at != []
  {
    p.PreparedKids? ==>
      && q.PreparedKids? && q.fms == Update(p.fms, at, fm) && q.left == p.left && p.left != []
      && ButFor(p.st, q.st, ino, i0, i1) && !AllGone(p.fms) && !AllGone(q.fms)
  }

  lemma UpdateEarlier(fms: seq<Fm>, x: Fm, at: Path, fm: Fm)
    requires at != [] && x.name != at[0]
    ensures Update(fms + [x], at, fm) == Update(fms, at, fm) + [x]
  {
    assert (fms + [x])[..|fms|] == fms;
  }

  lemma UpdateLast(fms: seq<Fm>, x: Fm, at: Path, fm: Fm)
    requires at != [] && x.name == at[0]
    ensures Update(fms + [x], at, fm)
            == fms + [if |at| == 1 then fm else x.(children := Update(x.children, at[1..], fm))]
  {
    assert (fms + [x])[..|fms|] == fms;
  }

  lemma PrepName(c: PrepConfig, kid: Kid, path: Path, s: PrepState)
    ensures PrepKid(c, kid, path, s).Prepared? ==> PrepKid(c, kid, path, s).fm.name == kid.name
  {
  }

  lemma JoinEarlier(
      a: PreparedKids, b: PreparedKids, x: Prepared, y: Prepared, at: Path, fm: Fm, ino: nat, i0: Inode, i1: Inode)
    requires at != [] && a.PreparedKids? && x.Prepared? && UpdatedKids(a, b, at, fm, ino, i0, i1)
    requires SameResult(x, y, ino, i0, i1) && x.fm.name != at[0]
    ensures UpdatedKids(PreparedKids(a.fms + [x.fm], a.left + x.left, x.st),
                        PreparedKids(b.fms + [y.fm], b.left + y.left, y.st), at, fm, ino, i0, i1)
  {
    UpdateEarlier(a.fms, x.fm, at, fm);
    AllGoneSplit(a.fms, x.fm);
    AllGoneSplit(b.fms, y.fm);
  }

  lemma JoinLast(
      a: PreparedKids, b: PreparedKids, x: Prepared, y: Prepared, at: Path, fm: Fm, ino: nat, i0: Inode, i1: Inode)
    requires at != [] && a.PreparedKids? && x.Prepared? && UpdatedKid(x, y, at, fm, ino, i0, i1)
    requires SameResults(a, b, ino, i0, i1) && x.fm.name == at[0]
    ensures UpdatedKids(PreparedKids(a.fms + [x.fm], a.left + x.left, x.st),
                        PreparedKids(b.fms + [y.fm], b.left + y.left, y.st), at, fm, ino, i0, i1)
  {
    UpdateLast(a.fms, x.fm, at, fm);
    AllGoneSplit(a.fms, x.fm);
    AllGoneSplit(b.fms, y.fm);
  }

  /** A directory above the file. */
  lemma TargetDir(
      c: PrepConfig, kid: Kid, path: Path, s: PrepState, t: PrepState, at: Path, fm: Fm, ino: nat, i0: Inode, i1: Inode)
    requires |at| > 1 && kid.node.Dir? && path != GIT_DIR
    requires UpdatedKids(PrepKids(c, kid.node.kids, path, s), PrepKids(c, kid.node.kids, path, t), at[1..], fm, ino, i0, i1)
    ensures UpdatedKid(PrepKid(c, kid, path, s), PrepKid(c, kid, path, t), at, fm, ino, i0, i1)
  {
  }

  /** The incremental record is the one that a new walk would make, the listed file
      being the only one that changed: for every tree that a walk gets through,
      and every file that is ordinary before and after. */
  lemma {:induction false} UpdateIsPrepare(
      c: PrepConfig, kids: seq<Kid>, path: Path, s: PrepState, t: PrepState, at: Path, ino: nat, i0: Inode, i1: Inode)
    requires at != [] && OnlyAt(kids, at, ino) && ButFor(s, t, ino, i0, i1)
    requires Ordinary(c, i0) && Ordinary(c, i1) && GitCompatible(at[|at| - 1]) && Walked(path + at)
    ensures UpdatedKids(PrepKids(c, kids, path, s), PrepKids(c, kids, path, t), at, FileRecord(at[|at| - 1], i1), ino, i0, i1)
    decreases |at|, |kids|
  {
    var n, fm := |kids| - 1, FileRecord(at[|at| - 1], i1);
    var last, own := kids[n], path + [kids[n].name];
    var a, b := PrepKids(c, kids[..n], path, s), PrepKids(c, kids[..n], path, t);
    if last.name != at[0] {
      UpdateIsPrepare(c, kids[..n], path, s, t, at, ino, i0, i1);
      if a.PreparedKids? {
        var x, y := PrepKid(c, last, own, a.st), PrepKid(c, last, own, b.st);
        Elsewhere(c, last, own, a.st, b.st, ino, i0, i1);
        PrepName(c, last, own, a.st);
        if x.Prepared? { JoinEarlier(a, b, x, y, at, fm, ino, i0, i1); }
      }
    } else {
      ElsewhereKids(c, kids[..n], path, s, t, ino, i0, i1);
      if a.PreparedKids? {
        var x, y := PrepKid(c, last, own, a.st), PrepKid(c, last, own, b.st);
        TargetKid(c, last, own, a.st, b.st, path, at, ino, i0, i1);
        PrepName(c, last, own, a.st);
        if x.Prepared? { JoinLast(a, b, x, y, at, fm, ino, i0, i1); }
      }
    }
  }

  lemma {:induction false} TargetKid(
      c: PrepConfig, kid: Kid, own: Path, s: PrepState, t: PrepState, path: Path, at: Path, ino: nat, i0: Inode, i1: Inode)
    requires at != [] && kid.name == at[0] && own == path + [kid.name] && ButFor(s, t, ino, i0, i1)
    requires if |at| == 1 then kid.node == File(ino) else kid.node.Dir? && OnlyAt(kid.node.kids, at[1..], ino)
    requires Ordinary(c, i0) && Ordinary(c, i1) && GitCompatible(at[|at| - 1]) && Walked(path + at)
    ensures UpdatedKid(PrepKid(c, kid, own, s), PrepKid(c, kid, own, t), at, FileRecord(at[|at| - 1], i1), ino, i0, i1)
    decreases |at|, 0
  {
    if |at| == 1 {
      assert path + at == own;
      TargetFile(c, kid.name, own, s, t, ino, i0, i1);
    } else {
      assert path + at == own + at[1..];
      assert own <= path + at;
      UpdateIsPrepare(c, kid.node.kids, own, s, t, at[1..], ino, i0, i1);
      TargetDir(c, kid, own, s, t, at, FileRecord(at[|at| - 1], i1), ino, i0, i1);
    }
  }

  // ---------------------------------------------------------------------------
  // A list of files

  /** A listed file and what it has become. */
  datatype Change = Change(path: Path, ino: nat, inode: Inode)

  /** What the instruction has done to the files. */
  function Changed(inodes: map<nat, Inode>, ch: seq<Change>): map<nat, Inode> {
    if ch == [] then inodes else Changed(inodes, ch[..|ch| - 1])[ch[|ch| - 1].ino := ch[|ch| - 1].inode]
  }

  /** `for path in files: file_metadata.update(path)` */
  function Updates(fms: seq<Fm>, ch: seq<Change>): seq<Fm>
    requires forall i :: 0 <= i < |ch| ==> ch[i].path != []
  {
    if ch == [] then fms
    else
      var last := ch[|ch| - 1];
      Update(Updates(fms, ch[..|ch| - 1]), last.path, FileRecord(last.path[|last.path| - 1], last.inode))
  }

  ghost predicate ListedFile(c: PrepConfig, kids: seq<Kid>, inodes: map<nat, Inode>, h: Change) {
    && h.path != [] && OnlyAt(kids, h.path, h.ino) && h.ino in inodes
    && Ordinary(c, inodes[h.ino]) && Ordinary(c, h.inode) && GitCompatible(h.path[|h.path| - 1]) && Walked(h.path)
  }

  /** Different ordinary files, before and after. */
  ghost predicate ListedAll(c: PrepConfig, kids: seq<Kid>, inodes: map<nat, Inode>, ch: seq<Change>) {
    && (forall i :: 0 <= i < |ch| ==> ListedFile(c, kids, inodes, ch[i]))
    && (forall i, j :: 0 <= i < j < |ch| ==> ch[i].ino != ch[j].ino)
  }

  lemma {:induction false} ChangedOther(inodes: map<nat, Inode>, ch: seq<Change>, n: nat)
    requires n in inodes && forall i :: 0 <= i < |ch| ==> ch[i].ino != n
    ensures n in Changed(inodes, ch) && Changed(inodes, ch)[n] == inodes[n]
  {
    if ch != [] { ChangedOther(inodes, ch[..|ch| - 1], n); }
  }

  /** The record as a list of files changes, and the tree for Git, which only has other
      contents. */
  lemma {:induction false} UpdatesArePrepare(c: PrepConfig, kids: seq<Kid>, inodes: map<nat, Inode>, store: Store, ch: seq<Change>)
    requires ListedAll(c, kids, inodes, ch)
    requires PrepKids(c, kids, [], PrepState(inodes, map[], store)).PreparedKids?
    ensures var p := PrepKids(c, kids, [], PrepState(inodes, map[], store));
            var q := PrepKids(c, kids, [], PrepState(Changed(inodes, ch), map[], store));
            q.PreparedKids? && q.fms == Updates(p.fms, ch) && q.left == p.left && q.st.store == p.st.store
  {
    if ch != [] {
      var n := |ch| - 1;
      var h := ch[n];
      assert ListedFile(c, kids, inodes, h);
      assert forall i :: 0 <= i < n ==> ch[..n][i] == ch[i];
      UpdatesArePrepare(c, kids, inodes, store, ch[..n]);
      ChangedOther(inodes, ch[..n], h.ino);
      var s, t := PrepState(Changed(inodes, ch[..n]), map[], store), PrepState(Changed(inodes, ch), map[], store);
      assert ButFor(s, t, h.ino, inodes[h.ino], h.inode);
      assert [] + h.path == h.path;
      UpdateIsPrepare(c, kids, [], s, t, h.path, h.ino, inodes[h.ino], h.inode);
    }
  }

  // ---------------------------------------------------------------------------
  // Updating does not touch the records of other files

  ghost predicate ButAt(kids: seq<Kid>, f: seq<Fm>, g: seq<Fm>, path: Path, inos: set<nat>) {
    var v := LeavesKids(kids, path);
    && DirsIn(kids, f) && DirsIn(kids, g) && |Flat(f)| == |Flat(g)| == |v|
    && forall j :: 0 <= j < |v| && v[j].ino !in inos ==> Flat(g)[j] == Flat(f)[j]
  }

  lemma SnocSame(u: seq<Leaf>, t: seq<Leaf>, fu: seq<Fm>, ft: seq<Fm>, gu: seq<Fm>, gt: seq<Fm>, inos: set<nat>)
    requires |fu| == |gu| == |u| && |ft| == |gt| == |t|
    requires forall j :: 0 <= j < |u| && u[j].ino !in inos ==> gu[j] == fu[j]
    requires forall j :: 0 <= j < |t| && t[j].ino !in inos ==> gt[j] == ft[j]
    ensures forall j :: 0 <= j < |u + t| && (u + t)[j].ino !in inos ==> (gu + gt)[j] == (fu + ft)[j]
  {
  }

  lemma ButAtSnoc(kids: seq<Kid>, f: seq<Fm>, g: seq<Fm>, a: Fm, b: Fm, path: Path, inos: set<nat>)
    requires kids != [] && ButAt(kids[..|kids| - 1], f, g, path, inos)
    requires ButAtKid(kids[|kids| - 1], a, b, path + [kids[|kids| - 1].name], inos)
    ensures ButAt(kids, f + [a], g + [b], path, inos)
  {
    var n := |kids| - 1;
    var u, t := LeavesKids(kids[..n], path), LeavesKid(kids[n], path + [kids[n].name]);
    assert LeavesKids(kids, path) == u + t;
    FlatSnoc(f, a);
    FlatSnoc(g, b);
    SnocSame(u, t, Flat(f), FlatFm(a), Flat(g), FlatFm(b), inos);
    DirsSnoc(kids, f, a);
    DirsSnoc(kids, g, b);
  }

  lemma DirsSnoc(kids: seq<Kid>, f: seq<Fm>, a: Fm)
    requires kids != [] && DirsIn(kids[..|kids| - 1], f) && DirsOf(kids[|kids| - 1], a)
    ensures DirsIn(kids, f + [a])
  {
    forall i | 0 <= i < |kids| ensures DirsOf(kids[i], (f + [a])[i]) {
      if i < |kids| - 1 { assert DirsOf(kids[..|kids| - 1][i], f[i]); }
    }
  }

  ghost predicate ButAtKid(k: Kid, a: Fm, b: Fm, path: Path, inos: set<nat>) {
    var t := LeavesKid(k, path);
    && DirsOf(k, a) && DirsOf(k, b) && |FlatFm(a)| == |FlatFm(b)| == |t|
    && forall j :: 0 <= j < |t| && t[j].ino !in inos ==> FlatFm(b)[j] == FlatFm(a)[j]
  }

  lemma ButAtSelf(kids: seq<Kid>, f: seq<Fm>, path: Path, inos: set<nat>)
    requires DirsIn(kids, f)
    ensures ButAt(kids, f, f, path, inos)
  {
    FlatLength(kids, f, path);
  }

  lemma {:induction false} UpdateFlat(kids: seq<Kid>, f: seq<Fm>, p: Path, ino: nat, fm: Fm, path: Path)
    requires p != [] && OnlyAt(kids, p, ino) && DirsIn(kids, f) && !fm.kind.FDir? && fm.name == p[|p| - 1]
    ensures ButAt(kids, f, Update(f, p, fm), path, {ino})
    decreases |p|, |kids|
  {
    var n := |kids| - 1;
    var own := path + [kids[n].name];
    assert f == f[..n] + [f[n]];
    if kids[n].name != p[0] {
      UpdateFlat(kids[..n], f[..n], p, ino, fm, path);
      FlatLengthFm(kids[n], f[n], own);
      ButAtSnoc(kids, f[..n], Update(f[..n], p, fm), f[n], f[n], path, {ino});
    } else {
      ButAtSelf(kids[..n], f[..n], path, {ino});
      if |p| == 1 {
        assert FlatFm(f[n]) == [f[n]] && FlatFm(fm) == [fm];
        ButAtSnoc(kids, f[..n], f[..n], f[n], fm, path, {ino});
      } else {
        UpdateFlat(kids[n].node.kids, f[n].children, p[1..], ino, fm, own);
        var g := f[n].(children := Update(f[n].children, p[1..], fm));
        ButAtSnoc(kids, f[..n], f[..n], f[n], g, path, {ino});
      }
    }
  }

  function InosOf(ch: seq<Change>): set<nat> {
    if ch == [] then {} else InosOf(ch[..|ch| - 1]) + {ch[|ch| - 1].ino}
  }

  lemma ButAtTrans(kids: seq<Kid>, f: seq<Fm>, g: seq<Fm>, h: seq<Fm>, path: Path, a: set<nat>, b: set<nat>)
    requires ButAt(kids, f, g, path, a) && ButAt(kids, g, h, path, b)
    ensures ButAt(kids, f, h, path, a + b)
  {
  }

  lemma {:induction false} UpdatesFlat(c: PrepConfig, kids: seq<Kid>, inodes: map<nat, Inode>, f: seq<Fm>, ch: seq<Change>)
    requires DirsIn(kids, f) && ListedAll(c, kids, inodes, ch)
    requires forall i :: 0 <= i < |ch| ==> ch[i].path != []
    ensures ButAt(kids, f, Updates(f, ch), [], InosOf(ch))
  {
    if ch == [] {
      ButAtSelf(kids, f, [], {});
    } else {
      var n := |ch| - 1;
      var h := ch[n];
      assert forall i :: 0 <= i < n ==> ch[..n][i] == ch[i];
      assert ListedFile(c, kids, inodes, h);
      UpdatesFlat(c, kids, inodes, f, ch[..n]);
      var g := Updates(f, ch[..n]);
      UpdateFlat(kids, g, h.path, h.ino, FileRecord(h.path[|h.path| - 1], h.inode), []);
      ButAtTrans(kids, f, g, Updates(f, ch), [], InosOf(ch[..n]), {h.ino});
    }
  }

  // ---------------------------------------------------------------------------
  // The held record

  lemma {:induction false} InosOfHas(ch: seq<Change>, n: nat)
    ensures n in InosOf(ch) <==> exists i :: 0 <= i < |ch| && ch[i].ino == n
  {
    if ch != [] {
      var m := |ch| - 1;
      InosOfHas(ch[..m], n);
      assert forall i :: 0 <= i < m ==> ch[..m][i] == ch[i];
      assert ch[m].ino == n ==> exists i :: 0 <= i < |ch| && ch[i].ino == n;
    }
  }

  /** A changed file is what the list says, any other is as it was. */
  lemma {:induction false} ChangedAt(inodes: map<nat, Inode>, ch: seq<Change>, n: nat)
    requires n in inodes
    ensures n in Changed(inodes, ch)
    ensures n !in InosOf(ch) ==> Changed(inodes, ch)[n] == inodes[n]
    ensures n in InosOf(ch) ==> exists i :: 0 <= i < |ch| && ch[i].ino == n && Changed(inodes, ch)[n] == ch[i].inode
  {
    if ch != [] {
      var m := |ch| - 1;
      ChangedAt(inodes, ch[..m], n);
      if n in InosOf(ch) {
        if ch[m].ino == n {
        } else {
          var i :| 0 <= i < m && ch[..m][i].ino == n && Changed(inodes, ch[..m])[n] == ch[..m][i].inode;
          assert ch[i].ino == n && Changed(inodes, ch)[n] == ch[i].inode;
        }
      }
    }
  }

  /** `t` is `y` after the changes `c` to files that were and are ordinary. */
  ghost predicate After(y: Context, t: Context, w: seq<Leaf>, c: set<nat>) {
    && t.c == y.c && t.store == y.store && Known(y, w) && Known(t, w)
    && forall j :: 0 <= j < |w| ==>
         if w[j].ino in c then Ordinary(y.c, y.inodes[w[j].ino]) && Ordinary(y.c, t.inodes[w[j].ino])
         else t.inodes[w[j].ino] == y.inodes[w[j].ino]
  }

  lemma ListedAfter(kids: seq<Kid>, y: Context, w: seq<Leaf>, ch: seq<Change>)
    requires ListedAll(y.c, kids, y.inodes, ch) && Known(y, w)
    ensures After(y, y.(inodes := Changed(y.inodes, ch)), w, InosOf(ch))
  {
    forall j | 0 <= j < |w|
      ensures w[j].ino in Changed(y.inodes, ch)
      ensures var i0, i1 := y.inodes[w[j].ino], Changed(y.inodes, ch)[w[j].ino];
              if w[j].ino in InosOf(ch) then Ordinary(y.c, i0) && Ordinary(y.c, i1) else i1 == i0
    {
      ChangedAt(y.inodes, ch, w[j].ino);
      if w[j].ino in InosOf(ch) {
        var i :| 0 <= i < |ch| && ch[i].ino == w[j].ino && Changed(y.inodes, ch)[w[j].ino] == ch[i].inode;
        assert ListedFile(y.c, kids, y.inodes, ch[i]);
      }
    }
  }

  /** Other files are recorded as before the changes. */
  lemma OthersRecorded(y: Context, t: Context, w: seq<Leaf>, c: set<nat>, j: nat)
    requires After(y, t, w, c) && j < |w| && w[j].ino !in c
    ensures RecordAt(t, w, j) == RecordAt(y, w, j)
  {
    FirstIsFirst(w, w[j].ino);
  }

  /** An ordinary file was recorded as one. */
  lemma OrdinaryRecorded(x: Context, v: seq<Leaf>, y: Context, w: seq<Leaf>, j: nat)
    requires Redone(x, v, y, w) && j < |v| && Ordinary(y.c, y.inodes[w[j].ino])
    ensures RecordAt(y, w, j) == RecordAt(x, v, j)
  {
    RecordAgain(x, v, y, w, j);
    assert Same(x.rc.quick, x.inodes[v[j].ino], y.inodes[w[j].ino]);
    if First(w, w[j].ino) < j { TwoBefore(w, j); }
  }

  lemma {:induction false} DirsSame(a: seq<Kid>, b: seq<Kid>, f: seq<Fm>)
    requires SameKids(a, b) && DirsIn(a, f)
    ensures DirsIn(b, f)
    decreases a, 0
  {
    forall i | 0 <= i < |b| ensures DirsOf(b[i], f[i]) { DirsSameKid(a[i], b[i], f[i]); }
  }

  lemma {:induction false} DirsSameKid(a: Kid, b: Kid, f: Fm)
    requires SameKid(a, b) && DirsOf(a, f)
    ensures DirsOf(b, f)
    decreases a.node, 1
  {
    if a.node.Dir? { DirsSame(a.node.kids, b.node.kids, f.children); }
  }

  /** The changed tree can be prepared again as far as the restored one could. */
  lemma AfterAdmissible(x: Context, kids: seq<Kid>, y: Context, t: Context, out: seq<Kid>, c: set<nat>)
    requires Admissible(x, kids) && SameKids(kids, out) && CountsOk(y, LeavesKids(out, []))
    requires FilesFine(y, LeavesKids(out, [])) && After(y, t, LeavesKids(out, []), c)
    ensures Admissible(t, out)
  {
    var w := LeavesKids(out, []);
    forall j | 0 <= j < |w| ensures AdmissibleFile(t, BaseName(w[j]), t.inodes[w[j].ino], w[j].path) {
      assert AdmissibleFile(y, BaseName(w[j]), y.inodes[w[j].ino], w[j].path);
    }
    AdmissibleAgain(x, kids, t, out, []);
    forall n | n in t.inodes ensures Count(w, n) <= t.inodes[n].nlink {
      FirstIsFirst(w, n);
      assert First(w, n) < |w| ==> w[First(w, n)].ino == n;
    }
  }

  /** A commit with a list of files, after a commit or checkout of `kids`: updating the
      record that is held gives the record of a full walk if and only if no link was
      recorded to a FIFO or a large file and symbolic links have kept their mode and
      times. Then what a full walk leaves on disk and in the store does not depend on the
      changes. What such a commit gives Git is in `ListedTree`. */
  lemma CommitListed(x: Context, kids: seq<Kid>, disk: seq<Kid>, rs: RestState, y: Context, ch: seq<Change>)
    requires Admissible(x, kids) && Next(x, kids, disk, rs, y)
    requires ListedAll(y.c, Restore(x, kids, disk, rs).out, y.inodes, ch)
    ensures var out, v := Restore(x, kids, disk, rs).out, LeavesKids(kids, []);
            var q := Prepare(y.(inodes := Changed(y.inodes, ch)), out);
            && Known(x, v) && |LeavesKids(out, [])| == |v|
            && (q.PreparedKids? && q.fms == Updates(Prepare(x, kids).fms, ch) <==>
                  LinksPlain(x, v) && SymlinksKept(x, v, y, LeavesKids(out, [])))
            && (LinksPlain(x, v) && SymlinksKept(x, v, y, LeavesKids(out, [])) ==>
                  && Prepare(y, out).PreparedKids?
                  && q.left == Prepare(y, out).left && q.st.store == Prepare(y, out).st.store)
  {
    var out, v := Restore(x, kids, disk, rs).out, LeavesKids(kids, []);
    var w, t := LeavesKids(out, []), y.(inodes := Changed(y.inodes, ch));
    Reproduces(x, kids, disk, rs, y);
    if LinksPlain(x, v) && SymlinksKept(x, v, y, w) {
      UpdatesArePrepare(y.c, out, y.inodes, y.store, ch);
    } else {
      NextRedone(x, kids, disk, rs, y);
      FilesAgain(x, kids, y, w);
      ListedAfter(out, y, w, ch);
      HeldDiffers(x, kids, y, t, out, ch);
    }
  }

  lemma HeldDiffers(x: Context, kids: seq<Kid>, y: Context, t: Context, out: seq<Kid>, ch: seq<Change>)
    requires Admissible(x, kids) && Prepare(x, kids).PreparedKids? && SameKids(kids, out)
    requires Redone(x, LeavesKids(kids, []), y, LeavesKids(out, [])) && FilesFine(y, LeavesKids(out, []))
    requires ListedAll(y.c, out, y.inodes, ch) && After(y, t, LeavesKids(out, []), InosOf(ch))
    requires !(LinksPlain(x, LeavesKids(kids, [])) && SymlinksKept(x, LeavesKids(kids, []), y, LeavesKids(out, [])))
    ensures Prepare(t, out).PreparedKids? ==> Prepare(t, out).fms != Updates(Prepare(x, kids).fms, ch)
  {
    var v, w, h := LeavesKids(kids, []), LeavesKids(out, []), Prepare(x, kids).fms;
    CountsAgain(x, v, y, w);
    AfterAdmissible(x, kids, y, t, out, InosOf(ch));
    RecordIs(x, kids);
    DirsSame(kids, out, h);
    UpdatesFlat(y.c, out, y.inodes, h, ch);
    RecordsAgain(x, v, y, w);
    var j := DifferentRecord(x, v, y, w);
    assert w[j].ino !in InosOf(ch) by { OrdinaryUnlike(x, v, y, t, w, InosOf(ch), j); }
    OthersRecorded(y, t, w, InosOf(ch), j);
    if Prepare(t, out).PreparedKids? {
      RecordIs(t, out);
      assert Flat(Prepare(t, out).fms)[j] != Flat(Updates(h, ch))[j];
    }
  }

  lemma DifferentRecord(x: Context, v: seq<Leaf>, y: Context, w: seq<Leaf>) returns (j: nat)
    requires Known(x, v) && Known(y, w) && |v| == |w| && !SameRecords(x, v, y, w)
    ensures j < |v| && RecordAt(y, w, j) != RecordAt(x, v, j)
  {
    j :| 0 <= j < |v| && RecordAt(y, w, j) != RecordAt(x, v, j);
  }

  lemma OrdinaryUnlike(x: Context, v: seq<Leaf>, y: Context, t: Context, w: seq<Leaf>, c: set<nat>, j: nat)
    requires Redone(x, v, y, w) && After(y, t, w, c) && j < |v| && RecordAt(y, w, j) != RecordAt(x, v, j)
    ensures w[j].ino !in c
  {
    if Ordinary(y.c, y.inodes[w[j].ino]) { OrdinaryRecorded(x, v, y, w, j); }
  }
}
