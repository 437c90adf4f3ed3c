/**
  The Git tree of a commit that is given a list of files. Such a commit makes no walk: it
  updates the record that is held, and adds the listed files to the tree of HEAD. The tree
  is that of a full commit exactly if Git sees what was listed (`CommitListedTree`), and a
  later checkout gives the image, whether or not the record is that of a full commit
  (`ListedRestores`).
 */
module ListedTree {
  import opened FileMetadata
  import opened RoundTrip
  import opened Records
  import opened GitTree
  import opened FileListCommit

  // ---------------------------------------------------------------------------
  // git add with a list

  predicate GitPath(p: Path) { forall i :: 0 <= i < |p| ==> GitCompatible(p[i]) }

  /** The tree with this file at this path. */
  function Enter(es: seq<GEntry>, p: Path, node: GNode): seq<GEntry>
    requires p != []
    decreases |p|, |es|
  {
    if es == [] then [GEntry(p[0], if |p| == 1 then node else Tree(Enter([], p[1..], node)))]
    else
      var n := |es| - 1;
      var e := es[n];
      if e.name != p[0] then Enter(es[..n], p, node) + [e]
      else
        es[..n] + [GEntry(e.name, if |p| == 1 then node
                                  else Tree(Enter(if e.node.Tree? then e.node.entries else [], p[1..], node)))]
  }

  /** git add of one file. Paths with names special to Git are ignored. */
  function Add(es: seq<GEntry>, h: Change): seq<GEntry>
    requires h.path != [] && h.inode.kind.Reg?
  {
    if GitPath(h.path) then Enter(es, h.path, StoreFile(h.inode)) else es
  }

  function Adds(es: seq<GEntry>, ch: seq<Change>): seq<GEntry>
    requires forall i :: 0 <= i < |ch| ==> ch[i].path != [] && ch[i].inode.kind.Reg?
  {
    if ch == [] then es else Add(Adds(es, ch[..|ch| - 1]), ch[|ch| - 1])
  }

  /** The inodes with the changes that Git sees. */
  function Seen(inodes: map<nat, Inode>, ch: seq<Change>): map<nat, Inode> {
    if ch == [] then inodes
    else
      var h, m := ch[|ch| - 1], Seen(inodes, ch[..|ch| - 1]);
      if GitPath(h.path) then m[h.ino := h.inode] else m
  }

  // ---------------------------------------------------------------------------
  // Where a listed file is once the tree is prepared

  function Escaped(p: Path): (q: Path)
    ensures |q| == |p|
  {
    if p == [] then [] else [Escape(p[0])] + Escaped(p[1..])
  }

  lemma {:induction false} EscapedSelf(p: Path)
    requires GitPath(p)
    ensures Escaped(p) == p
  {
    if p != [] {
      assert forall i :: 0 <= i < |p[1..]| ==> p[1..][i] == p[i + 1];
      EscapedSelf(p[1..]);
      assert p == [p[0]] + p[1..];
    }
  }

  lemma {:induction false} LeftInosKid(c: PrepConfig, kid: Kid, path: Path, st: PrepState)
    requires PrepKid(c, kid, path, st).Prepared?
    ensures forall n :: n in InosKids(PrepKid(c, kid, path, st).left) ==> n in InosKid(kid)
    decreases kid.node, 1
  {
    var p := PrepKid(c, kid, path, st);
    if p.left != [] {
      assert p.left == [p.left[0]];
      InosOne(p.left[0]);
      if kid.node.Dir? && path != GIT_DIR { LeftInos(c, kid.node.kids, path, st); }
    }
  }

  /** Preparing leaves nothing that was not there. */
  lemma {:induction false} LeftInos(c: PrepConfig, kids: seq<Kid>, path: Path, st: PrepState)
    requires PrepKids(c, kids, path, st).PreparedKids?
    ensures forall n :: n in InosKids(PrepKids(c, kids, path, st).left) ==> n in InosKids(kids)
    decreases kids, 0
  {
    if kids != [] {
      var n := |kids| - 1;
      var p := PrepKids(c, kids[..n], path, st);
      LeftInos(c, kids[..n], path, st);
      LeftInosKid(c, kids[n], path + [kids[n].name], p.st);
      InosSplit(p.left, PrepKid(c, kids[n], path + [kids[n].name], p.st).left);
    }
  }

  /** The name is one of the listing's. */
  lemma {:induction false} OnlyAtNamed(kids: seq<Kid>, at: Path, ino: nat) returns (i: nat)
    requires at != [] && OnlyAt(kids, at, ino)
    ensures i < |kids| && kids[i].name == at[0]
    decreases |kids|
  {
    i := |kids| - 1;
    if kids[i].name != at[0] { i := OnlyAtNamed(kids[..i], at, ino); }
  }

  lemma OnlyAtEarlier(left: seq<Kid>, more: seq<Kid>, at: Path, ino: nat)
    requires at != [] && OnlyAt(left, at, ino) && |more| <= 1
    requires more != [] ==> more[0].name != at[0] && ino !in InosKid(more[0])
    ensures OnlyAt(left + more, at, ino)
  {
    if more == [] {
      assert left + more == left;
    } else {
      assert (left + more)[..|left + more| - 1] == left && (left + more)[|left + more| - 1] == more[0];
    }
  }

  lemma OnlyAtLast(left: seq<Kid>, k: Kid, at: Path, ino: nat)
    requires at != [] && k.name == at[0] && ino !in InosKids(left)
    requires if |at| == 1 then k.node == File(ino) else k.node.Dir? && OnlyAt(k.node.kids, at[1..], ino)
    ensures OnlyAt(left + [k], at, ino)
  {
    assert (left + [k])[..|left + [k]| - 1] == left && (left + [k])[|left + [k]| - 1] == k;
  }

  /** An ordinary file, not yet walked, that will be. */
  ghost predicate Pending(x: Context, kids: seq<Kid>, path: Path, st: PrepState, at: Path, ino: nat) {
    && at != [] && OnlyAt(kids, at, ino) && GitCompatible(at[|at| - 1]) && Walked(path + at)
    && AdmissibleKids(x, kids, path) && Tracks(x.inodes, st.inodes) && ino in st.inodes && Ordinary(x.c, st.inodes[ino])
  }

  /** The walk of other files does not touch it. */
  lemma StillOrdinary(x: Context, kids: seq<Kid>, path: Path, st: PrepState, ino: nat)
    requires AdmissibleKids(x, kids, path) && Tracks(x.inodes, st.inodes) && ino in st.inodes && ino !in InosKids(kids)
    requires PrepKids(x.c, kids, path, st).PreparedKids?
    ensures var p := PrepKids(x.c, kids, path, st);
            ino in p.st.inodes && p.st.inodes[ino] == st.inodes[ino] && ino !in InosKids(p.left)
  {
    assert ButFor(st, st, ino, st.inodes[ino], st.inodes[ino]) by {
      assert st.inodes[ino := st.inodes[ino]] == st.inodes;
    }
    ElsewhereKids(x.c, kids, path, st, st, ino, st.inodes[ino], st.inodes[ino]);
    LeftInos(x.c, kids, path, st);
  }

  lemma {:induction false} LeftAt(x: Context, kids: seq<Kid>, path: Path, st: PrepState, at: Path, ino: nat)
    requires Pending(x, kids, path, st, at, ino) && PrepKids(x.c, kids, path, st).PreparedKids?
    ensures OnlyAt(PrepKids(x.c, kids, path, st).left, Escaped(at), ino)
    decreases |at|, |kids|
  {
    var n := |kids| - 1;
    var last, own := kids[n], path + [kids[n].name];
    LastTracked(x, kids, path, st);
    var p1 := PrepKids(x.c, kids[..n], path, st);
    var p2 := PrepKid(x.c, last, own, p1.st);
    if last.name != at[0] {
      LeftAt(x, kids[..n], path, st, at, ino);
      LeftInosKid(x.c, last, own, p1.st);
      LeftElsewhere(x, kids, path, p1.st, at, ino);
      OnlyAtEarlier(p1.left, p2.left, Escaped(at), ino);
    } else {
      StillOrdinary(x, kids[..n], path, st, ino);
      LeftAtKid(x, last, path, p1.st, at, ino);
      assert p2.left == [p2.left[0]];
      OnlyAtLast(p1.left, p2.left[0], Escaped(at), ino);
    }
  }

  lemma LeftElsewhere(x: Context, kids: seq<Kid>, path: Path, st: PrepState, at: Path, ino: nat)
    requires kids != [] && AdmissibleKids(x, kids, path) && Tracks(x.inodes, st.inodes)
    requires at != [] && OnlyAt(kids[..|kids| - 1], at, ino) && ino !in InosKid(kids[|kids| - 1])
    requires PrepKid(x.c, kids[|kids| - 1], path + [kids[|kids| - 1].name], st).Prepared?
    ensures var more := PrepKid(x.c, kids[|kids| - 1], path + [kids[|kids| - 1].name], st).left;
            |more| <= 1 && (more != [] ==> more[0].name != Escaped(at)[0] && ino !in InosKid(more[0]))
  {
    var n := |kids| - 1;
    var own := path + [kids[n].name];
    PrepKidOk(x, kids[n], own, st);
    LeftInosKid(x.c, kids[n], own, st);
    var i := OnlyAtNamed(kids[..n], at, ino);
    assert kids[i].name == at[0] && Escape(kids[i].name) != Escape(kids[n].name);
    var more := PrepKid(x.c, kids[n], own, st).left;
    if more != [] {
      assert more == [more[0]];
      InosOne(more[0]);
    }
  }

  /** The file itself is left where it is, under its escaped name. */
  lemma LeftAtFile(x: Context, name: Name, path: Path, st: PrepState, ino: nat)
    requires GitCompatible(name) && Walked(path) && ino in st.inodes && Ordinary(x.c, st.inodes[ino])
    requires PrepFile(x.c, name, ino, path, st).Prepared?
    ensures PrepFile(x.c, name, ino, path, st).left == [Kid(Escape(name), File(ino))]
  {
    var i := st.inodes[ino];
    assert st.inodes[ino := i] == st.inodes;
    TargetFile(x.c, name, path, st, st, ino, i, i);
    LeftOfFile(x.c, name, ino, path, st);
  }

  lemma {:induction false} LeftAtKid(x: Context, kid: Kid, path: Path, st: PrepState, at: Path, ino: nat)
    requires at != [] && kid.name == at[0] && GitCompatible(at[|at| - 1]) && Walked(path + at)
    requires if |at| == 1 then kid.node == File(ino) else kid.node.Dir? && OnlyAt(kid.node.kids, at[1..], ino)
    requires AdmissibleKid(x, kid, path + [kid.name]) && Tracks(x.inodes, st.inodes)
    requires ino in st.inodes && Ordinary(x.c, st.inodes[ino]) && PrepKid(x.c, kid, path + [kid.name], st).Prepared?
    ensures var left := PrepKid(x.c, kid, path + [kid.name], st).left;
            && |left| == 1 && left[0].name == Escape(at[0])
            && if |at| == 1 then left[0].node == File(ino)
               else left[0].node.Dir? && OnlyAt(left[0].node.kids, Escaped(at)[1..], ino)
    decreases |at|, 0
  {
    var own := path + [kid.name];
    if |at| == 1 {
      assert path + at == own;
      LeftAtFile(x, kid.name, own, st, ino);
    } else {
      assert path + at == own + at[1..];
      LeftAt(x, kid.node.kids, own, st, at[1..], ino);
      LeftAtDir(x.c, kid, own, st);
    }
  }

  lemma LeftAtDir(c: PrepConfig, kid: Kid, path: Path, st: PrepState)
    requires kid.node.Dir? && path != GIT_DIR && PrepKid(c, kid, path, st).Prepared?
    ensures var ps, left := PrepKids(c, kid.node.kids, path, st), PrepKid(c, kid, path, st).left;
            && ps.PreparedKids?
            && (ps.left != [] ==> |left| == 1 && left[0].name == Escape(kid.name) && left[0].node.Dir? && left[0].node.kids == ps.left)
  {
  }

  // ---------------------------------------------------------------------------
  // Adding a file is storing the changed tree

  lemma {:induction false} CleanChangedKid(x: Context, k: Kid, ino: nat, i: Inode)
    requires CleanKid(x, k) && Ordinary(x.c, i)
    ensures CleanKid(x.(inodes := x.inodes[ino := i]), k)
    decreases k.node, 1
  {
    if k.node.Dir? { CleanChanged(x, k.node.kids, ino, i); }
  }

  lemma {:induction false} CleanChanged(x: Context, kids: seq<Kid>, ino: nat, i: Inode)
    requires CleanKids(x, kids) && Ordinary(x.c, i)
    ensures CleanKids(x.(inodes := x.inodes[ino := i]), kids)
    decreases kids, 0
  {
    forall j | 0 <= j < |kids| ensures CleanKid(x.(inodes := x.inodes[ino := i]), kids[j]) {
      CleanChangedKid(x, kids[j], ino, i);
    }
  }

  lemma {:induction false} StoreOtherKid(inodes: map<nat, Inode>, k: Kid, ino: nat, i: Inode)
    requires ino !in InosKid(k)
    ensures StoreKid(inodes[ino := i], k) == StoreKid(inodes, k)
    decreases k.node, 1
  {
    match k.node
    case File(n) => assert n in InosKid(k);
    case Dir(_, _, kids) => StoreOther(inodes, kids, ino, i);
  }

  lemma {:induction false} StoreOther(inodes: map<nat, Inode>, kids: seq<Kid>, ino: nat, i: Inode)
    requires ino !in InosKids(kids)
    ensures StoreKids(inodes[ino := i], kids) == StoreKids(inodes, kids)
    decreases kids, 0
  {
    if kids != [] {
      var n := |kids| - 1;
      assert InosKids(kids) == InosKids(kids[..n]) + InosKid(kids[n]);
      StoreOther(inodes, kids[..n], ino, i);
      StoreOtherKid(inodes, kids[n], ino, i);
    }
  }

  lemma EnterSnoc(es: seq<GEntry>, e: GEntry, p: Path, node: GNode)
    requires p != []
    ensures Enter(es + [e], p, node)
         == if e.name != p[0] then Enter(es, p, node) + [e]
            else es + [GEntry(e.name, if |p| == 1 then node
                                      else Tree(Enter(if e.node.Tree? then e.node.entries else [], p[1..], node)))]
  {
    assert (es + [e])[..|es|] == es;
  }

  lemma CleanEntry(x: Context, k: Kid)
    requires CleanKid(x, k)
    ensures |StoreKid(x.inodes, k)| == 1 && StoreKid(x.inodes, k) == [StoreKid(x.inodes, k)[0]]
    ensures EntryOf(x.inodes, k, StoreKid(x.inodes, k)[0])
  {
    StoredKid(x, x.inodes, k);
  }

  lemma {:induction false} StoreChanged(x: Context, kids: seq<Kid>, at: Path, ino: nat, i: Inode)
    requires at != [] && OnlyAt(kids, at, ino) && CleanKids(x, kids) && Ordinary(x.c, i)
    ensures StoreKids(x.inodes[ino := i], kids) == Enter(StoreKids(x.inodes, kids), at, StoreFile(i))
    decreases |at|, |kids|
  {
    var n, y := |kids| - 1, x.(inodes := x.inodes[ino := i]);
    var last := kids[n];
    CleanChangedKid(x, last, ino, i);
    CleanEntry(x, last);
    CleanEntry(y, last);
    var es, e := StoreKids(x.inodes, kids[..n]), StoreKid(x.inodes, last)[0];
    EnterSnoc(es, e, at, StoreFile(i));
    if last.name != at[0] {
      StoreChanged(x, kids[..n], at, ino, i);
      StoreOtherKid(x.inodes, last, ino, i);
    } else {
      StoreOther(x.inodes, kids[..n], ino, i);
      if |at| > 1 { StoreChanged(x, last.node.kids, at[1..], ino, i); }
    }
  }

  /** Adding the listed files stores the tree with the changes that Git sees. */
  lemma {:induction false} AddsStore(x: Context, left: seq<Kid>, ch: seq<Change>)
    requires CleanKids(x, left)
    requires forall i :: 0 <= i < |ch| ==> ch[i].path != [] && ch[i].inode.kind.Reg?
    requires forall i :: 0 <= i < |ch| ==> Ordinary(x.c, ch[i].inode) && OnlyAt(left, Escaped(ch[i].path), ch[i].ino)
    ensures Adds(StoreKids(x.inodes, left), ch) == StoreKids(Seen(x.inodes, ch), left)
    ensures CleanKids(x.(inodes := Seen(x.inodes, ch)), left)
  {
    if ch != [] {
      var n := |ch| - 1;
      var h := ch[n];
      assert forall i :: 0 <= i < n ==> ch[..n][i] == ch[i];
      AddsStore(x, left, ch[..n]);
      if GitPath(h.path) {
        EscapedSelf(h.path);
        var y := x.(inodes := Seen(x.inodes, ch[..n]));
        StoreChanged(y, left, h.path, h.ino, h.inode);
        CleanChanged(y, left, h.ino, h.inode);
      }
    }
  }

  // ---------------------------------------------------------------------------
  // Which changes Git sees

  /** Git has the same of these files: content and executable bit. */
  ghost predicate SameBlobs(w: seq<nat>, i0: map<nat, Inode>, i1: map<nat, Inode>) {
    forall n :: n in w ==> SameBlob(n, i0, i1)
  }

  ghost predicate SameBlob(n: nat, i0: map<nat, Inode>, i1: map<nat, Inode>) {
    n in i0 && n in i1 && Visible(i0[n]) && Visible(i1[n]) && StoreFile(i0[n]) == StoreFile(i1[n])
  }

  lemma {:induction false} StoreSameKid(x: Context, y: Context, k: Kid)
    requires CleanKid(x, k) && CleanKid(y, k)
    ensures StoreKid(x.inodes, k) == StoreKid(y.inodes, k) <==> SameBlobs(InosKid(k), x.inodes, y.inodes)
    decreases k.node, 1
  {
    CleanEntry(x, k);
    CleanEntry(y, k);
    match k.node
    case File(ino) => assert ino in InosKid(k);
    case Dir(_, _, kids) => StoreSame(x, y, kids);
  }

  /** Git has the same tree exactly if it has the same files. */
  lemma {:induction false} StoreSame(x: Context, y: Context, kids: seq<Kid>)
    requires CleanKids(x, kids) && CleanKids(y, kids)
    ensures StoreKids(x.inodes, kids) == StoreKids(y.inodes, kids) <==> SameBlobs(InosKids(kids), x.inodes, y.inodes)
    decreases kids, 0
  {
    if kids != [] {
      var n := |kids| - 1;
      StoreSame(x, y, kids[..n]);
      StoreSameKid(x, y, kids[n]);
      CleanEntry(x, kids[n]);
      CleanEntry(y, kids[n]);
      SnocSame(StoreKids(x.inodes, kids[..n]), StoreKid(x.inodes, kids[n])[0],
               StoreKids(y.inodes, kids[..n]), StoreKid(y.inodes, kids[n])[0]);
      assert InosKids(kids) == InosKids(kids[..n]) + InosKid(kids[n]);
    }
  }

  lemma SnocSame(a: seq<GEntry>, d: GEntry, b: seq<GEntry>, e: GEntry)
    ensures a + [d] == b + [e] <==> a == b && d == e
  {
    if a + [d] == b + [e] {
      assert |a + [d]| == |b + [e]|;
      assert a == (a + [d])[..|a|] && b == (b + [e])[..|b|];
      assert d == (a + [d])[|a|] && e == (b + [e])[|b|];
    }
  }

  lemma {:induction false} OnlyAtIn(kids: seq<Kid>, at: Path, ino: nat)
    requires at != [] && OnlyAt(kids, at, ino)
    ensures ino in InosKids(kids)
    decreases |at|, |kids|
  {
    var n := |kids| - 1;
    assert InosKids(kids) == InosKids(kids[..n]) + InosKid(kids[n]);
    if kids[n].name != at[0] {
      OnlyAtIn(kids[..n], at, ino);
    } else if |at| == 1 {
      assert ino in InosKid(kids[n]);
    } else {
      OnlyAtIn(kids[n].node.kids, at[1..], ino);
    }
  }

  lemma {:induction false} SeenOther(inodes: map<nat, Inode>, ch: seq<Change>, n: nat)
    requires n in inodes && forall i :: 0 <= i < |ch| ==> ch[i].ino != n
    ensures n in Seen(inodes, ch) && Seen(inodes, ch)[n] == inodes[n]
    ensures n in Changed(inodes, ch) && Changed(inodes, ch)[n] == inodes[n]
  {
    if ch != [] { SeenOther(inodes, ch[..|ch| - 1], n); }
  }

  lemma {:induction false} SeenAt(inodes: map<nat, Inode>, ch: seq<Change>, i: nat)
    requires i < |ch| && ch[i].ino in inodes && forall j, k :: 0 <= j < k < |ch| ==> ch[j].ino != ch[k].ino
    ensures var n := ch[i].ino;
            && n in Seen(inodes, ch) && Seen(inodes, ch)[n] == (if GitPath(ch[i].path) then ch[i].inode else inodes[n])
            && n in Changed(inodes, ch) && Changed(inodes, ch)[n] == ch[i].inode
  {
    var m := |ch| - 1;
    if i < m {
      assert ch[..m][i] == ch[i];
      SeenAt(inodes, ch[..m], i);
    } else {
      SeenOther(inodes, ch[..m], ch[i].ino);
    }
  }

  /** Git sees the path, or there is nothing to see. */
  predicate Reaches(inodes: map<nat, Inode>, h: Change)
    requires h.ino in inodes && inodes[h.ino].kind.Reg? && h.inode.kind.Reg?
  {
    GitPath(h.path) || StoreFile(h.inode) == StoreFile(inodes[h.ino])
  }

  ghost predicate AllReach(inodes: map<nat, Inode>, ch: seq<Change>)
    requires forall i :: 0 <= i < |ch| ==> ch[i].ino in inodes && inodes[ch[i].ino].kind.Reg? && ch[i].inode.kind.Reg?
  {
    forall i :: 0 <= i < |ch| ==> Reaches(inodes, ch[i])
  }

  lemma SeenExactly(c: PrepConfig, kids: seq<Kid>, inodes: map<nat, Inode>, ch: seq<Change>, w: seq<nat>)
    requires ListedAll(c, kids, inodes, ch) && forall i :: 0 <= i < |ch| ==> ch[i].ino in w
    requires forall n :: n in w ==> n in inodes && Visible(inodes[n])
    ensures forall i :: 0 <= i < |ch| ==> ch[i].ino in inodes && inodes[ch[i].ino].kind.Reg? && ch[i].inode.kind.Reg?
    ensures SameBlobs(w, Seen(inodes, ch), Changed(inodes, ch)) <==> AllReach(inodes, ch)
  {
    forall i | 0 <= i < |ch|
      ensures ch[i].ino in inodes && inodes[ch[i].ino].kind.Reg? && ch[i].inode.kind.Reg?
      ensures SameBlob(ch[i].ino, Seen(inodes, ch), Changed(inodes, ch)) <==> Reaches(inodes, ch[i])
    {
      assert ListedFile(c, kids, inodes, ch[i]);
      SeenAt(inodes, ch, i);
    }
    forall n | n in w && (forall i :: 0 <= i < |ch| ==> ch[i].ino != n)
      ensures SameBlob(n, Seen(inodes, ch), Changed(inodes, ch))
    {
      SeenOther(inodes, ch, n);
    }
  }

  // ---------------------------------------------------------------------------
  // Adding to a full commit's tree

  /** Where the listed files are in the prepared tree. */
  lemma ListedLeft(y: Context, out: seq<Kid>, ch: seq<Change>)
    requires Admissible(y, out) && Prepare(y, out).PreparedKids? && ListedAll(y.c, out, y.inodes, ch)
    ensures var left := Prepare(y, out).left;
            forall i :: 0 <= i < |ch| ==>
              && ch[i].path != [] && ch[i].inode.kind.Reg? && Ordinary(y.c, ch[i].inode)
              && OnlyAt(left, Escaped(ch[i].path), ch[i].ino) && ch[i].ino in InosKids(left)
  {
    var left := Prepare(y, out).left;
    forall i | 0 <= i < |ch|
      ensures ch[i].path != [] && ch[i].inode.kind.Reg? && Ordinary(y.c, ch[i].inode)
      ensures OnlyAt(left, Escaped(ch[i].path), ch[i].ino) && ch[i].ino in InosKids(left)
    {
      assert ListedFile(y.c, out, y.inodes, ch[i]);
      assert [] + ch[i].path == ch[i].path;
      LeftAt(y, out, [], PrepState(y.inodes, map[], y.store), ch[i].path, ch[i].ino);
      OnlyAtIn(left, Escaped(ch[i].path), ch[i].ino);
    }
  }

  lemma CleanVisible(x: Context, kids: seq<Kid>)
    requires CleanKids(x, kids)
    ensures forall n :: n in InosKids(kids) ==> n in x.inodes && Visible(x.inodes[n])
  {
    StoreSame(x, x, kids);
  }

  lemma {:induction false} CleanAfter(x: Context, kids: seq<Kid>, ch: seq<Change>)
    requires CleanKids(x, kids) && forall i :: 0 <= i < |ch| ==> Ordinary(x.c, ch[i].inode)
    ensures CleanKids(x.(inodes := Changed(x.inodes, ch)), kids)
  {
    if ch != [] {
      var n := |ch| - 1;
      assert forall i :: 0 <= i < n ==> ch[..n][i] == ch[i];
      CleanAfter(x, kids, ch[..n]);
      CleanChanged(x.(inodes := Changed(x.inodes, ch[..n])), kids, ch[n].ino, ch[n].inode);
    }
  }

  /** Adding the listed files to the tree of a full commit gives the tree of a full commit of
      the changed image, if and only if Git sees all changes. */
  lemma AddsCommit(y: Context, out: seq<Kid>, ch: seq<Change>)
    requires Admissible(y, out) && Prepare(y, out).PreparedKids? && ListedAll(y.c, out, y.inodes, ch)
    ensures forall i :: 0 <= i < |ch| ==> ch[i].path != [] && ch[i].inode.kind.Reg?
    ensures forall i :: 0 <= i < |ch| ==> ch[i].ino in y.inodes && y.inodes[ch[i].ino].kind.Reg?
    ensures var t := y.(inodes := Changed(y.inodes, ch));
            && Prepare(t, out).PreparedKids?
            && (Adds(Committed(y, out), ch) == Committed(t, out) <==> AllReach(y.inodes, ch))
  {
    var t, left := y.(inodes := Changed(y.inodes, ch)), Prepare(y, out).left;
    ListedLeft(y, out, ch);
    PreparedIsClean(y, out);
    CommittedIs(y, out);
    UpdatesArePrepare(y.c, out, y.inodes, y.store, ch);
    WalkTracks(t.inodes, t.c, out, [], PrepState(t.inodes, map[], t.store));
    StoreTracks(t.inodes, Prepare(t, out).st.inodes, left);
    AddsStore(y, left, ch);
    CleanAfter(y, left, ch);
    StoreSame(y.(inodes := Seen(y.inodes, ch)), t, left);
    CleanVisible(y, left);
    SeenExactly(y.c, out, y.inodes, ch, InosKids(left));
  }

  /** A commit that is given a list, on an image that was committed or checked out: the tree
      of HEAD with the listed files added is the tree of a full commit of the changed image,
      if and only if Git sees all changes. HEAD must have the image's tree, of which
      `CommittedAgain` says when. */
  lemma CommitListedTree(x: Context, kids: seq<Kid>, disk: seq<Kid>, rs: RestState, y: Context, ch: seq<Change>)
    requires Admissible(x, kids) && Next(x, kids, disk, rs, y)
    requires Prepare(y, Restore(x, kids, disk, rs).out).PreparedKids?
    requires ListedAll(y.c, Restore(x, kids, disk, rs).out, y.inodes, ch)
    ensures Known(x, LeavesKids(kids, []))
    ensures forall i :: 0 <= i < |ch| ==> ch[i].path != [] && ch[i].inode.kind.Reg?
    ensures forall i :: 0 <= i < |ch| ==> ch[i].ino in y.inodes && y.inodes[ch[i].ino].kind.Reg?
    ensures var out, v, t := Restore(x, kids, disk, rs).out, LeavesKids(kids, []), y.(inodes := Changed(y.inodes, ch));
            && Prepare(t, out).PreparedKids?
            && ((forall j :: 0 <= j < |v| ==> !PickleLink(x, v, j)) ==>
                  (Adds(Committed(x, kids), ch) == Committed(t, out) <==> AllReach(y.inodes, ch)))
  {
    NextAdmissible(x, kids, disk, rs, y);
    CommittedAgain(x, kids, disk, rs, y);
    AddsCommit(y, Restore(x, kids, disk, rs).out, ch);
  }

  /** A file in a directory whose name is special to Git, with other content: the tree of the
      listed commit does not have it. */
  lemma ListedBelowGit(y: Context, n: Name, f: Name, perm: Perm, mtime: int, i: Inode, j: Inode)
    requires !GitCompatible(n) && GitCompatible(f) && y.inodes == map[0 := i]
    requires Ordinary(y.c, i) && Ordinary(y.c, j) && j.kind != i.kind
    ensures var kids, ch := [Kid(n, Dir(perm, mtime, [Kid(f, File(0))]))], [Change([n, f], 0, j)];
            && Admissible(y, kids) && Prepare(y, kids).PreparedKids? && ListedAll(y.c, kids, y.inodes, ch)
            && var t := y.(inodes := Changed(y.inodes, ch));
               Prepare(t, kids).PreparedKids? && Adds(Committed(y, kids), ch) != Committed(t, kids)
  {
    var kids, ch := [Kid(n, Dir(perm, mtime, [Kid(f, File(0))]))], [Change([n, f], 0, j)];
    OneLeaf(n, f, perm, mtime);
    OneAdmissible(y, kids[0], f, i);
    OneListed(y, kids, n, f, i, j);
    PreparedIsClean(y, kids);
    assert [n, f][0] == n;
    AddsCommit(y, kids, ch);
  }

  lemma OneListed(y: Context, kids: seq<Kid>, n: Name, f: Name, i: Inode, j: Inode)
    requires !GitCompatible(n) && GitCompatible(f) && y.inodes == map[0 := i] && Ordinary(y.c, i) && Ordinary(y.c, j)
    requires |kids| == 1 && kids[0].name == n && kids[0].node.Dir? && kids[0].node.kids == [Kid(f, File(0))]
    ensures ListedAll(y.c, kids, y.inodes, [Change([n, f], 0, j)])
  {
    assert n[0] == '.' && n != "var" && n != "ch";
    assert [n, f][1..] == [f] && kids[..0] == [] && kids[0].node.kids[..0] == [];
    assert OnlyAt(kids[0].node.kids, [f], 0);
    assert OnlyAt(kids, [n, f], 0);
  }

  lemma OneLeaf(n: Name, f: Name, perm: Perm, mtime: int)
    ensures LeavesKids([Kid(n, Dir(perm, mtime, [Kid(f, File(0))]))], []) == [Leaf([n, f], 0)]
  {
    var k := Kid(f, File(0));
    var kids := [Kid(n, Dir(perm, mtime, [k]))];
    assert kids[..0] == [] && [k][..0] == [];
    assert [] + [n] == [n] && [n] + [f] == [n, f];
    assert LeavesKids([k], [n]) == [Leaf([n, f], 0)];
  }

  lemma OneAdmissible(y: Context, d: Kid, f: Name, i: Inode)
    requires d.node.Dir? && d.node.kids == [Kid(f, File(0))] && d.name != "" && d.name[0] == '.'
    requires y.inodes == map[0 := i] && Ordinary(y.c, i) && LeavesKids([d], []) == [Leaf([d.name, f], 0)]
    ensures Admissible(y, [d]) && Known(y, LeavesKids([d], [])) && !Blocked(y, LeavesKids([d], []), 0)
  {
    assert d.name != "var" && d.name != "ch";
    assert [] + [d.name] == [d.name] && [d.name] + [f] == [d.name, f];
    assert AdmissibleKid(y, d.node.kids[0], [d.name] + [f]);
    assert AdmissibleKids(y, d.node.kids, [d.name]) && AdmissibleKid(y, d, [d.name]);
    Extend([], Leaf([d.name, f], 0), 0);
    assert [] + [Leaf([d.name, f], 0)] == [Leaf([d.name, f], 0)];
  }

  // ---------------------------------------------------------------------------
  // Restoring such a commit

  /** The restored inodes as the held record has them: no file has all of its names in the
      tree, so a walk would lose no link, and symbolic links have their recorded attributes. */
  function HeldInode(x: Context, v: seq<Leaf>, y: Context, w: seq<Leaf>, n: nat): Inode
    requires n in y.inodes && Known(x, v) && |v| == |w|
  {
    var i, f := y.inodes[n], First(w, n);
    var i := if Count(w, n) >= 2 then i.(nlink := i.nlink + 1) else i;
    if i.kind.Lnk? && f < |v| then i.(perm := x.inodes[v[f].ino].perm, mtime := x.inodes[v[f].ino].mtime) else i
  }

  function Held(x: Context, v: seq<Leaf>, y: Context, w: seq<Leaf>, rc: RestConfig): Context
    requires Known(x, v) && |v| == |w|
  {
    Context(y.c, rc, map n | n in y.inodes :: HeldInode(x, v, y, w, n), y.store)
  }

  /** No file has all of its names here. */
  ghost predicate Unfinished(z: Context, w: seq<Leaf>) {
    Known(z, w) && forall n :: n in z.inodes && Count(w, n) >= 2 ==> Count(w, n) < z.inodes[n].nlink
  }

  lemma UnfinishedRep(z: Context, w: seq<Leaf>, j: nat)
    requires Unfinished(z, w) && j < |w|
    ensures Rep(z, w, j) == First(w, w[j].ino)
  {
    var n := w[j].ino;
    if First(w, n) < j { UnfinishedCount(z, w, j); }
  }

  lemma UnfinishedCount(z: Context, w: seq<Leaf>, j: nat)
    requires Unfinished(z, w) && j < |w| && First(w, w[j].ino) < j
    ensures Count(w[..j + 1], w[j].ino) < z.inodes[w[j].ino].nlink
  {
    TwoBefore(w, j);
    CountPrefix(w, j + 1, w[j].ino);
  }

  lemma HeldUnfinished(x: Context, v: seq<Leaf>, y: Context, w: seq<Leaf>, rc: RestConfig)
    requires Redone(x, v, y, w)
    ensures Unfinished(Held(x, v, y, w, rc), w)
  {
    var z := Held(x, v, y, w, rc);
    forall n | n in z.inodes && Count(w, n) >= 2 ensures Count(w, n) < z.inodes[n].nlink {
      assert Counted(x, v, y, w, n);
    }
  }

  /** One file in both contexts. */
  lemma HeldFile(x: Context, v: seq<Leaf>, y: Context, w: seq<Leaf>, rc: RestConfig, j: nat)
    requires Redone(x, v, y, w) && j < |v|
    ensures var i0, i1, i := x.inodes[v[j].ino], y.inodes[w[j].ino], Held(x, v, y, w, rc).inodes[w[j].ino];
            && i.kind == i1.kind == i0.kind && i.nlink >= i1.nlink
            && ChmodMin(i).perm == ChmodMin(i0).perm && i.mtime == i0.mtime
            && (!i.kind.Lnk? ==> i.perm == i1.perm && i.mtime == i1.mtime)
  {
    FirstIsRep(x, v, y, w, j);
    RepOwner(x, v, j);
    assert Same(x.rc.quick, x.inodes[v[j].ino], y.inodes[w[j].ino]);
  }

  lemma HeldRecord(x: Context, v: seq<Leaf>, y: Context, w: seq<Leaf>, rc: RestConfig, j: nat)
    requires Redone(x, v, y, w) && j < |v|
    ensures var z := Held(x, v, y, w, rc);
            && Known(z, w) && Rep(z, w, j) == Rep(x, v, j)
            && RecordAt(z, w, j) == RecordAt(x, v, j) && (Blocked(z, w, j) <==> Blocked(x, v, j))
  {
    HeldUnfinished(x, v, y, w, rc);
    UnfinishedRep(Held(x, v, y, w, rc), w, j);
    FirstIsRep(x, v, y, w, j);
    HeldFile(x, v, y, w, rc, j);
  }

  lemma HeldAdmissible(x: Context, kids: seq<Kid>, y: Context, out: seq<Kid>, rc: RestConfig)
    requires Admissible(x, kids) && SameKids(kids, out) && Redone(x, LeavesKids(kids, []), y, LeavesKids(out, []))
    requires FilesFine(y, LeavesKids(out, []))
    ensures var z := Held(x, LeavesKids(kids, []), y, LeavesKids(out, []), rc);
            Admissible(z, out) && FilesFine(z, LeavesKids(out, []))
  {
    var v, w := LeavesKids(kids, []), LeavesKids(out, []);
    var z := Held(x, v, y, w, rc);
    forall j | 0 <= j < |w| ensures KnownLeaf(z, w[j]) && AdmissibleFile(z, BaseName(w[j]), z.inodes[w[j].ino], w[j].path) {
      assert AdmissibleFile(y, BaseName(w[j]), y.inodes[w[j].ino], w[j].path);
      HeldFile(x, v, y, w, rc, j);
    }
    AdmissibleAgain(x, kids, z, out, []);
    CountsAgain(x, v, y, w);
  }

  /** Where a walk would give the held record, and the tree of HEAD. */
  lemma HeldWalk(x: Context, kids: seq<Kid>, y: Context, out: seq<Kid>, rc: RestConfig)
    requires Admissible(x, kids) && SameKids(kids, out) && Redone(x, LeavesKids(kids, []), y, LeavesKids(out, []))
    requires FilesFine(y, LeavesKids(out, [])) && Prepare(x, kids).PreparedKids? && Grows(Prepare(x, kids).st.store, y.store)
    ensures var z := Held(x, LeavesKids(kids, []), y, LeavesKids(out, []), rc);
            var p := Prepare(z, out);
            && Admissible(z, out) && p.PreparedKids? && p.fms == Prepare(x, kids).fms
            && p.st.store == y.store && Committed(z, out) == Committed(x, kids)
  {
    var v, w := LeavesKids(kids, []), LeavesKids(out, []);
    var z := Held(x, v, y, w, rc);
    HeldAdmissible(x, kids, y, out, rc);
    PreparedIsClean(x, kids);
    PreparedIsClean(z, out);
    forall j | 0 <= j < |v|
      ensures RecordAt(z, w, j) == RecordAt(x, v, j) && (Blocked(z, w, j) <==> Blocked(x, v, j)) && SameFile(x, v[j], z, w[j])
    {
      HeldRecord(x, v, y, w, rc, j);
      HeldFile(x, v, y, w, rc, j);
    }
    HeldSame(x, kids, z, out);
    HeldStore(x, kids, z, out);
  }

  lemma HeldSame(x: Context, kids: seq<Kid>, z: Context, out: seq<Kid>)
    requires Admissible(x, kids) && Admissible(z, out) && SameKids(kids, out)
    requires Prepare(x, kids).PreparedKids? && Prepare(z, out).PreparedKids?
    requires Known(x, LeavesKids(kids, [])) && Known(z, LeavesKids(out, [])) && |LeavesKids(kids, [])| == |LeavesKids(out, [])|
    requires SameRecords(x, LeavesKids(kids, []), z, LeavesKids(out, []))
    requires SameFiles(x, LeavesKids(kids, []), z, LeavesKids(out, []))
    ensures Prepare(z, out).fms == Prepare(x, kids).fms && Committed(z, out) == Committed(x, kids)
  {
    var f, g := Prepare(x, kids).fms, Prepare(z, out).fms;
    RecordIs(x, kids);
    RecordIs(z, out);
    assert Flat(f) == Flat(g);
    Determined(kids, out, f, g, []);
    CommittedTwice(x, kids, z, out);
  }

  lemma HeldStore(x: Context, kids: seq<Kid>, z: Context, out: seq<Kid>)
    requires Prepare(x, kids).PreparedKids? && Prepare(z, out).PreparedKids? && Prepare(z, out).fms == Prepare(x, kids).fms
    requires Grows(Prepare(x, kids).st.store, z.store)
    ensures Prepare(z, out).st.store == z.store
  {
    LargesStored(x.c, kids, [], PrepState(x.inodes, map[], x.store));
    LargesStored(z.c, out, [], PrepState(z.inodes, map[], z.store));
    var p, q := Prepare(x, kids).st.store, Prepare(z, out).st.store;
    assert forall ln :: ln in p.Keys ==> ln in z.store;
    assert q.Keys == z.store.Keys;
  }

  /** A full restore gives back this image, and its hard links. */
  ghost predicate Gives(t: Context, out: seq<Kid>, o: Restored) {
    && o.Restored? && o.disk == [] && SameTree(t, out, o.out, o.rs.inodes)
    && SameLinks(LeavesKids(out, []), LeavesKids(o.out, [])) && Resolves(o.rs.done, LeavesKids(o.out, []))
  }

  /** The listed files have one name, so they are in the held context as they are. */
  lemma HeldListed(x: Context, v: seq<Leaf>, y: Context, out: seq<Kid>, rc: RestConfig, ch: seq<Change>)
    requires Redone(x, v, y, LeavesKids(out, [])) && ListedAll(y.c, out, y.inodes, ch)
    ensures var z := Held(x, v, y, LeavesKids(out, []), rc);
            && ListedAll(y.c, out, z.inodes, ch)
            && forall i :: 0 <= i < |ch| ==>
                 ch[i].ino in y.inodes && ch[i].ino in z.inodes && z.inodes[ch[i].ino] == y.inodes[ch[i].ino]
  {
    var w := LeavesKids(out, []);
    CountsAgain(x, v, y, w);
    forall i | 0 <= i < |ch|
      ensures ListedFile(y.c, out, Held(x, v, y, w, rc).inodes, ch[i])
      ensures ch[i].ino in y.inodes && Held(x, v, y, w, rc).inodes[ch[i].ino] == y.inodes[ch[i].ino]
    {
      assert ListedFile(y.c, out, y.inodes, ch[i]);
      assert Count(w, ch[i].ino) <= y.inodes[ch[i].ino].nlink;
    }
  }

  /** With the changes, too, no group of names is at risk. */
  lemma HeldSafe(x: Context, v: seq<Leaf>, y: Context, out: seq<Kid>, rc: RestConfig, ch: seq<Change>)
    requires Redone(x, v, y, LeavesKids(out, [])) && ListedAll(y.c, out, y.inodes, ch)
    ensures var w, z := LeavesKids(out, []), Held(x, v, y, LeavesKids(out, []), rc);
            var z' := z.(inodes := Changed(z.inodes, ch));
            Known(z', w) && LinksSafe(z', w)
  {
    var w, z := LeavesKids(out, []), Held(x, v, y, LeavesKids(out, []), rc);
    var z' := z.(inodes := Changed(z.inodes, ch));
    HeldListed(x, v, y, out, rc, ch);
    HeldUnfinished(x, v, y, w, rc);
    ListedAfter(out, z, w, ch);
    forall n | n in z'.inodes ensures !GroupAtRisk(z', w, n) {
      FirstIsFirst(w, n);
      var f := First(w, n);
      if f < |w| { assert w[f].ino == n && w[f].ino in z.inodes; }
    }
  }

  lemma HeldTree(x: Context, v: seq<Leaf>, y: Context, out: seq<Kid>, rc: RestConfig, ch: seq<Change>, o: seq<Kid>, inodes: map<nat, Inode>)
    requires Redone(x, v, y, LeavesKids(out, [])) && ListedAll(y.c, out, y.inodes, ch) && !rc.quick
    requires var z := Held(x, v, y, LeavesKids(out, []), rc); SameTree(z.(inodes := Changed(z.inodes, ch)), out, o, inodes)
    ensures SameTree(y.(rc := rc, inodes := Changed(y.inodes, ch)), out, o, inodes)
  {
    var w, z := LeavesKids(out, []), Held(x, v, y, LeavesKids(out, []), rc);
    HeldListed(x, v, y, out, rc, ch);
    forall i | 0 <= i < |w|
      ensures w[i].ino in Changed(y.inodes, ch) && w[i].ino in Changed(z.inodes, ch)
      ensures var a, b := Changed(y.inodes, ch)[w[i].ino], Changed(z.inodes, ch)[w[i].ino];
              b.kind == a.kind && (!a.kind.Lnk? ==> b.perm == a.perm && b.mtime == a.mtime)
    {
      HeldFile(x, v, y, w, rc, i);
      if k :| 0 <= k < |ch| && ch[k].ino == w[i].ino {
        SeenAt(y.inodes, ch, k);
        SeenAt(z.inodes, ch, k);
      } else {
        SeenOther(y.inodes, ch, w[i].ino);
        SeenOther(z.inodes, ch, w[i].ino);
      }
    }
  }

  /** A commit that is given a list, all of which Git sees, checked out into a new work tree
      and restored in full, gives the changed image, with the hard links it had: for every
      restored image, also those whose record differs from that of a full walk. */
  lemma ListedRestores(
      x: Context, kids: seq<Kid>, disk: seq<Kid>, rs: RestState, y: Context, ch: seq<Change>, rc: RestConfig, g: GitConfig, s: Inos)
    requires Admissible(x, kids) && Next(x, kids, disk, rs, y)
    requires ListedAll(y.c, Restore(x, kids, disk, rs).out, y.inodes, ch)
    requires !rc.quick && Grows(y.store, rc.store) && Sane(s)
    ensures forall i :: 0 <= i < |ch| ==> ch[i].path != [] && ch[i].inode.kind.Reg?
    ensures forall i :: 0 <= i < |ch| ==> ch[i].ino in y.inodes && y.inodes[ch[i].ino].kind.Reg?
    ensures var out, t := Restore(x, kids, disk, rs).out, y.(rc := rc, inodes := Changed(y.inodes, ch));
            var r := Switch(g, [], Adds(Committed(x, kids), ch), false, [], s);
            AllReach(y.inodes, ch) ==>
              Gives(t, out, RestoreKids(rc, Updates(Prepare(x, kids).fms, ch), [], r.kids, RestState(r.s.inodes, r.s.next, map[])))
  {
    var out, v := Restore(x, kids, disk, rs).out, LeavesKids(kids, []);
    var w := LeavesKids(out, []);
    NextRedone(x, kids, disk, rs, y);
    FilesAgain(x, kids, y, w);
    HeldWalk(x, kids, y, out, rc);
    var z := Held(x, v, y, w, rc);
    var z' := z.(inodes := Changed(z.inodes, ch));
    HeldListed(x, v, y, out, rc, ch);
    AddsCommit(z, out, ch);
    UpdatesArePrepare(z.c, out, z.inodes, z.store, ch);
    HeldAfter(x, kids, y, out, rc, ch);
    CheckoutRestores(z', out, g, s);
    HeldSafe(x, v, y, out, rc, ch);
    if AllReach(y.inodes, ch) {
      assert AllReach(z.inodes, ch);
      var r := Switch(g, [], Committed(z', out), false, [], s);
      var o := Restore(z', out, r.kids, RestState(r.s.inodes, r.s.next, map[]));
      HeldTree(x, v, y, out, rc, ch, o.out, o.rs.inodes);
    }
  }

  lemma HeldAfter(x: Context, kids: seq<Kid>, y: Context, out: seq<Kid>, rc: RestConfig, ch: seq<Change>)
    requires Admissible(x, kids) && SameKids(kids, out) && Redone(x, LeavesKids(kids, []), y, LeavesKids(out, []))
    requires FilesFine(y, LeavesKids(out, [])) && ListedAll(y.c, out, y.inodes, ch)
    ensures var z := Held(x, LeavesKids(kids, []), y, LeavesKids(out, []), rc);
            Admissible(z.(inodes := Changed(z.inodes, ch)), out)
  {
    var v, w := LeavesKids(kids, []), LeavesKids(out, []);
    var z := Held(x, v, y, w, rc);
    HeldAdmissible(x, kids, y, out, rc);
    HeldListed(x, v, y, out, rc, ch);
    HeldUnfinished(x, v, y, w, rc);
    ListedAfter(out, z, w, ch);
    AfterAdmissible(x, kids, z, z.(inodes := Changed(z.inodes, ch)), out, InosOf(ch));
  }
}
