/**
  COPY of a directory: merging a source tree into a destination directory, one
  directory of the source after the other from the top down, as coded. The result
  is the overlay of the source on the destination, stated path by path.
 */
module CopyDir {

  type Name = string
  type Path = seq<Name>

  datatype Option<T> = None | Some(value: T)

  /** What is at one path of the destination. `meta` is the mode; times are not modelled (a
      directory's are copied before its contents are written). */
  datatype Entry = Dir(meta: nat) | File(meta: nat, content: seq<bv8>) | Link(target: string)

  type Tree = map<Path, Entry>

  /** A source tree. A symbolic link may lead to a directory, in which case the walk
      lists it among the directories; `Other` is any other kind of file. */
  datatype Src = SDir(meta: nat, kids: seq<SKid>) | SFile(entry: Entry) | SLink(target: string, toDir: bool) | Other

  datatype SKid = SKid(name: Name, node: Src)

  // ---------------------------------------------------------------------------
  // The overlay

  function Find(kids: seq<SKid>, n: Name): (i: nat)
    ensures i <= |kids| && (i < |kids| ==> kids[i].name == n)
    ensures forall j :: 0 <= j < i ==> kids[j].name != n
  {
    if kids == [] then 0
    else if kids[0].name == n then 0
    else 1 + Find(kids[1..], n)
  }

  function EntryOf(s: Src): Entry
    requires !s.Other?
  {
    match s
    case SDir(meta, _) => Dir(meta)
    case SFile(e) => e
    case SLink(t, _) => Link(t)
  }

  /** What the path `q` below the destination directory must hold: what the source
      has there; nothing, if the source has a file higher up; else what was there. */
  function Want(kids: seq<SKid>, q: Path, was: Option<Entry>): Option<Entry>
    decreases |q|
  {
    if q == [] then was
    else
      var i := Find(kids, q[0]);
      if i == |kids| then was
      else match kids[i].node
        case Other => None
        case SDir(meta, below) => if |q| == 1 then Some(Dir(meta)) else Want(below, q[1..], was)
        case SFile(e) => if |q| == 1 then Some(e) else None
        case SLink(t, _) => if |q| == 1 then Some(Link(t)) else None
  }

  function At(t: Tree, p: Path): Option<Entry> { if p in t then Some(t[p]) else None }

  ghost predicate OverlaidAt(t0: Tree, t1: Tree, kids: seq<SKid>, at: Path, p: Path) {
    At(t1, p) == if at <= p then Want(kids, p[|at|..], At(t0, p)) else At(t0, p)
  }

  /** `t1` is `t0` with `kids` laid over the directory `at`. */
  ghost predicate Overlaid(t0: Tree, t1: Tree, kids: seq<SKid>, at: Path) {
    forall p :: OverlaidAt(t0, t1, kids, at, p)
  }

  // ---------------------------------------------------------------------------
  // Trees

  /** Whatever exists is in a directory. */
  ghost predicate Grounded(t: Tree) {
    forall p :: p in t && p != [] ==> InDir(t, p)
  }

  ghost predicate InDir(t: Tree, p: Path)
    requires p != []
  {
    p[..|p| - 1] in t && t[p[..|p| - 1]].Dir?
  }

  predicate Unique(kids: seq<SKid>) { forall i, j :: 0 <= i < j < |kids| ==> kids[i].name != kids[j].name }

  /** One directory's entries: distinct, and files are files. */
  predicate DistinctNames(kids: seq<SKid>) {
    Unique(kids) && forall i :: 0 <= i < |kids| && kids[i].node.SFile? ==> kids[i].node.entry.File?
  }

  predicate WellNamed(kids: seq<SKid>)
    decreases kids
  {
    DistinctNames(kids) && forall i :: 0 <= i < |kids| && kids[i].node.SDir? ==> WellNamed(kids[i].node.kids)
  }

  /** No file of another kind anywhere. */
  predicate Copyable(kids: seq<SKid>)
    decreases kids
  {
    forall i :: 0 <= i < |kids| ==>
      !kids[i].node.Other? && (kids[i].node.SDir? ==> Copyable(kids[i].node.kids))
  }

  // ---------------------------------------------------------------------------
  // Half-way states of one directory

  /** Whether a name's own copying is over, or its directory is there but its content
      is still to come. */
  ghost predicate StateAt(
    t0: Tree, t1: Tree, kids: seq<SKid>, at: Path, made: set<Name>, done: set<Name>, p: Path)
  {
    if at < p && p[|at|] in done then At(t1, p) == Want(kids, p[|at|..], At(t0, p))
    else if at < p && p[|at|] in made && |p| == |at| + 1 then At(t1, p) == Want(kids, p[|at|..], At(t0, p))
    else At(t1, p) == At(t0, p)
  }

  ghost predicate State(t0: Tree, t1: Tree, kids: seq<SKid>, at: Path, made: set<Name>, done: set<Name>) {
    && Grounded(t1) && at in t1 && t1[at].Dir?
    && forall p :: StateAt(t0, t1, kids, at, made, done, p)
  }

  lemma {:induction false} FindKid(kids: seq<SKid>, k: SKid)
    requires DistinctNames(kids) && k in kids
    ensures Find(kids, k.name) < |kids| && kids[Find(kids, k.name)] == k
  {
    if kids[0] != k {
      var i :| 0 <= i < |kids| && kids[i] == k;
      assert kids[0].name != kids[i].name;
      FindKid(kids[1..], k);
    }
  }

  function Without(t: Tree, p: Path): Tree { map q | q in t && !(p <= q) :: t[q] }

  lemma Child(at: Path, n: Name, p: Path)
    ensures at + [n] <= p <==> at < p && p[|at|] == n
    ensures at < p && |p| == |at| + 1 ==> p == at + [p[|at|]]
  {
    if at + [n] <= p { assert (at + [n])[..|at|] == p[..|at|]; }
    if at < p && |p| == |at| + 1 { assert p == p[..|at|] + [p[|at|]]; }
  }

  lemma OpenStep(
      t0: Tree, t1: Tree, kids: seq<SKid>, at: Path, made: set<Name>, done: set<Name>, k: SKid)
    requires State(t0, t1, kids, at, made, done) && DistinctNames(kids) && k in kids && k.node.SDir?
    requires k.name !in done
    ensures State(t0, t1[at + [k.name] := Dir(k.node.meta)], kids, at, made + {k.name}, done)
  {
    var d := at + [k.name];
    var t := t1[d := Dir(k.node.meta)];
    FindKid(kids, k);
    forall p ensures StateAt(t0, t, kids, at, made + {k.name}, done, p) {
      assert StateAt(t0, t1, kids, at, made, done, p);
      Child(at, k.name, p);
    }
    forall p | p in t && p != [] ensures InDir(t, p) {
      if p == d { assert p[..|p| - 1] == at; } else { assert InDir(t1, p); }
    }
  }

  lemma FileStep(
      t0: Tree, t1: Tree, kids: seq<SKid>, at: Path, made: set<Name>, done: set<Name>, k: SKid)
    requires State(t0, t1, kids, at, made, done) && DistinctNames(kids) && k in kids
    requires !k.node.SDir? && !k.node.Other?
    ensures State(t0, Without(t1, at + [k.name])[at + [k.name] := EntryOf(k.node)], kids, at, made, done + {k.name})
  {
    var d := at + [k.name];
    var t := Without(t1, d)[d := EntryOf(k.node)];
    FindKid(kids, k);
    forall p ensures StateAt(t0, t, kids, at, made, done + {k.name}, p) {
      assert StateAt(t0, t1, kids, at, made, done, p);
      Child(at, k.name, p);
    }
    forall p | p in t && p != [] ensures InDir(t, p) {
      if p == d { assert p[..|p| - 1] == at; } else {
        assert InDir(t1, p);
        var r := p[..|p| - 1];
        assert d <= r ==> d <= p;
      }
    }
  }

  lemma DirStep(
      t0: Tree, t1: Tree, t: Tree, kids: seq<SKid>, at: Path, made: set<Name>, done: set<Name>, k: SKid)
    requires State(t0, t1, kids, at, made, done) && DistinctNames(kids) && k in kids && k.node.SDir?
    requires k.name in made && k.name !in done
    requires Grounded(t) && Overlaid(t1, t, k.node.kids, at + [k.name])
    ensures State(t0, t, kids, at, made, done + {k.name})
  {
    FindKid(kids, k);
    forall p ensures StateAt(t0, t, kids, at, made, done + {k.name}, p) {
      assert StateAt(t0, t1, kids, at, made, done, p);
      assert OverlaidAt(t1, t, k.node.kids, at + [k.name], p);
      Child(at, k.name, p);
      if at + [k.name] <= p { assert p[|at|..][1..] == p[|at| + 1..]; }
    }
    assert OverlaidAt(t1, t, k.node.kids, at + [k.name], at);
  }

  lemma Finished(t0: Tree, t1: Tree, kids: seq<SKid>, at: Path, made: set<Name>, done: set<Name>)
    requires State(t0, t1, kids, at, made, done)
    requires forall k :: k in kids ==> k.name in done
    requires forall n :: n in done || n in made ==> exists k :: k in kids && k.name == n
    ensures Overlaid(t0, t1, kids, at)
  {
    forall p ensures OverlaidAt(t0, t1, kids, at, p) {
      assert StateAt(t0, t1, kids, at, made, done, p);
      if at <= p {
        if p == at { assert p[|at|..] == []; } else {
          assert p[|at|..][0] == p[|at|];
          if p[|at|] !in done { assert Find(kids, p[|at|]) == |kids|; }
        }
      }
    }
  }

  // ---------------------------------------------------------------------------
  // The walk

  predicate ListedAsDir(s: Src) { s.SDir? || (s.SLink? && s.toDir) }

  function Names(kids: seq<SKid>): set<Name> { set k | k in kids :: k.name }

  ghost predicate Splits(kids: seq<SKid>, a: seq<SKid>, b: seq<SKid>) {
    forall k :: k in kids <==> k in a || k in b
  }

  lemma SnocUnique(a: seq<SKid>, k: SKid)
    requires Unique(a) && k.name !in Names(a)
    ensures Unique(a + [k]) && Names(a + [k]) == Names(a) + {k.name}
  {
    forall i | 0 <= i < |a| ensures a[i].name != k.name { assert a[i] in a; }
    assert forall m :: m in a + [k] <==> m in a || m == k;
    assert k in a + [k];
  }

  lemma NewName(ks: seq<SKid>, i: nat, a: seq<SKid>)
    requires Unique(ks) && i < |ks| && forall m :: m in a ==> m in ks[..i]
    ensures ks[i].name !in Names(a)
  {
    forall m | m in a ensures m.name != ks[i].name {
      var j :| 0 <= j < i && ks[..i][j] == m;
      assert ks[j].name != ks[i].name;
    }
  }

  lemma Taken(ks: seq<SKid>, i: nat)
    requires i < |ks|
    ensures forall m :: m in ks[..i + 1] <==> m in ks[..i] || m == ks[i]
  {
    assert ks[..i + 1] == ks[..i] + [ks[i]];
  }

  /** os.walk's listing of one directory. */
  method Scan(kids: seq<SKid>) returns (dirnames: seq<SKid>, filenames: seq<SKid>)
    requires Unique(kids)
    ensures Splits(kids, dirnames, filenames) && Unique(dirnames)
    ensures forall k :: k in dirnames ==> ListedAsDir(k.node)
    ensures forall k :: k in filenames ==> !ListedAsDir(k.node)
  {
    dirnames, filenames := [], [];
    var i := 0;
    while i < |kids|
      invariant 0 <= i <= |kids|
      invariant Splits(kids[..i], dirnames, filenames) && Unique(dirnames)
      invariant forall k :: k in dirnames ==> ListedAsDir(k.node)
      invariant forall k :: k in filenames ==> !ListedAsDir(k.node)
    {
      Taken(kids, i);
      NewName(kids, i, dirnames);
      if ListedAsDir(kids[i].node) {
        SnocUnique(dirnames, kids[i]);
        dirnames := dirnames + [kids[i]];
      } else {
        filenames := filenames + [kids[i]];
      }
      i := i + 1;
    }
    assert kids[..|kids|] == kids;
  }

  /** The destination, changed in place. */
  class Destination {
    var tree: Tree

    constructor (tree: Tree)
      ensures this.tree == tree
    {
      this.tree := tree;
    }

    /** Remove what is not a directory, make the directory, copy the metadata. */
    method MakeDir(d: Path, meta: nat)
      modifies this
      ensures tree == old(tree)[d := Dir(meta)]
    {
      if d in tree && !tree[d].Dir? { tree := tree - {d}; }
      if d !in tree { tree := tree[d := Dir(0)]; }
      tree := tree[d := Dir(meta)];
    }

    /** Remove what exists, and copy. */
    method CopyFile(d: Path, e: Entry)
      requires Grounded(tree)
      modifies this
      ensures tree == Without(old(tree), d)[d := e]
    {
      if d in tree {
        if tree[d].Dir? {
          tree := Without(tree, d);
        } else {
          LeafOnly(tree, d);
          tree := tree - {d};
        }
      } else {
        LeafOnly(tree, d);
      }
      tree := tree[d := e];
    }

    /** The directories of one level. Symbolic links to directories are handled as
        files. */
    method MakeDirs(ghost was: Tree, kids: seq<SKid>, at: Path, dirnames2: seq<SKid>, files: seq<SKid>)
        returns (dirnames: seq<SKid>, filenames: seq<SKid>)
      requires State(was, tree, kids, at, {}, {}) && DistinctNames(kids)
      requires Splits(kids, dirnames2, files) && Unique(dirnames2)
      requires forall k :: k in dirnames2 ==> ListedAsDir(k.node)
      requires forall k :: k in files ==> !ListedAsDir(k.node)
      modifies this
      ensures State(was, tree, kids, at, Names(dirnames), {})
      ensures Splits(kids, dirnames, filenames) && Unique(dirnames)
      ensures forall k :: k in dirnames ==> k.node.SDir?
      ensures forall k :: k in filenames ==> !k.node.SDir?
    {
      dirnames, filenames := [], files;
      assert Names([]) == {};
      var i := 0;
      while i < |dirnames2|
        invariant 0 <= i <= |dirnames2|
        invariant State(was, tree, kids, at, Names(dirnames), {})
        invariant forall k :: k in dirnames2[..i] || k in files <==> k in dirnames || k in filenames
        invariant Unique(dirnames) && forall k :: k in dirnames ==> k.node.SDir? && k in dirnames2[..i]
        invariant forall k :: k in filenames ==> !k.node.SDir?
      {
        var k := dirnames2[i];
        Taken(dirnames2, i);
        NewName(dirnames2, i, dirnames);
        if k.node.SLink? {
          filenames := filenames + [k];
        } else {
          assert k in dirnames2;
          OpenStep(was, tree, kids, at, Names(dirnames), {}, k);
          MakeDir(at + [k.name], k.node.meta);
          SnocUnique(dirnames, k);
          dirnames := dirnames + [k];
        }
        i := i + 1;
      }
      assert dirnames2[..|dirnames2|] == dirnames2;
    }

    /** The files of one level; a fatal error at one of another kind. */
    method CopyFiles(ghost was: Tree, kids: seq<SKid>, at: Path, filenames: seq<SKid>, ghost made: set<Name>)
        returns (ok: bool)
      requires State(was, tree, kids, at, made, {}) && DistinctNames(kids)
      requires forall k :: k in filenames ==> k in kids && !k.node.SDir?
      modifies this
      ensures ok <==> forall k :: k in filenames ==> !k.node.Other?
      ensures ok ==> State(was, tree, kids, at, made, Names(filenames))
    {
      var i := 0;
      assert Names(filenames[..0]) == {};
      while i < |filenames|
        invariant 0 <= i <= |filenames|
        invariant State(was, tree, kids, at, made, Names(filenames[..i]))
        invariant forall k :: k in filenames[..i] ==> !k.node.Other?
      {
        var k := filenames[i];
        Taken(filenames, i);
        assert k in filenames;
        if k.node.Other? { return false; }
        FileStep(was, tree, kids, at, made, Names(filenames[..i]), k);
        CopyFile(at + [k.name], EntryOf(k.node));
        assert Names(filenames[..i + 1]) == Names(filenames[..i]) + {k.name};
        i := i + 1;
      }
      assert filenames[..|filenames|] == filenames;
      ok := true;
    }

    /** copy_src_dir: one directory, and then what is below it. */
    method CopySrcDir(kids: seq<SKid>, at: Path) returns (ok: bool)
      requires Grounded(tree) && at in tree && tree[at].Dir? && WellNamed(kids)
      modifies this
      ensures ok <==> Copyable(kids)
      ensures ok ==> Grounded(tree) && Overlaid(old(tree), tree, kids, at)
      decreases kids
    {
      ghost var was := tree;
      StateStart(was, kids, at);
      var dirnames2, files := Scan(kids);
      var dirnames, filenames := MakeDirs(was, kids, at, dirnames2, files);
      ok := CopyFiles(was, kids, at, filenames, Names(dirnames));
      if !ok { return; }
      var i := 0;
      ghost var done := Names(filenames);
      ApartNames(kids, dirnames, filenames);
      while i < |dirnames|
        invariant 0 <= i <= |dirnames|
        invariant State(was, tree, kids, at, Names(dirnames), done)
        invariant done == Names(filenames) + Names(dirnames[..i])
        invariant forall k :: k in dirnames[..i] ==> Copyable(k.node.kids)
      {
        var k := dirnames[i];
        Taken(dirnames, i);
        NewName(dirnames, i, dirnames[..i]);
        assert k in dirnames && k in kids;
        NameOf(k, dirnames);
        ghost var before := tree;
        InTree(was, before, kids, at, Names(dirnames), done, k);
        ok := CopySrcDir(k.node.kids, at + [k.name]);
        if !ok { return; }
        DirStep(was, before, tree, kids, at, Names(dirnames), done, k);
        done := done + {k.name};
        assert Names(dirnames[..i + 1]) == Names(dirnames[..i]) + {k.name};
        i := i + 1;
      }
      assert dirnames[..|dirnames|] == dirnames;
      Finished(was, tree, kids, at, Names(dirnames), done);
    }
  }

  lemma StateStart(t: Tree, kids: seq<SKid>, at: Path)
    requires Grounded(t) && at in t && t[at].Dir?
    ensures State(t, t, kids, at, {}, {})
  {
    forall p ensures StateAt(t, t, kids, at, {}, {}, p) {}
  }

  lemma ApartNames(kids: seq<SKid>, a: seq<SKid>, b: seq<SKid>)
    requires DistinctNames(kids) && Splits(kids, a, b)
    requires forall k :: k in a ==> k.node.SDir?
    requires forall k :: k in b ==> !k.node.SDir?
    ensures Names(a) !! Names(b)
  {
    forall k, m | k in a && m in b ensures k.name != m.name {
      FindKid(kids, k);
      FindKid(kids, m);
    }
  }

  /** A directory that was made is there. */
  lemma InTree(
      t0: Tree, t1: Tree, kids: seq<SKid>, at: Path, made: set<Name>, done: set<Name>, k: SKid)
    requires State(t0, t1, kids, at, made, done) && DistinctNames(kids) && k in kids && k.node.SDir?
    requires k.name in made && k.name !in done
    ensures at + [k.name] in t1 && t1[at + [k.name]].Dir? && |at + [k.name]| == |at| + 1
  {
    FindKid(kids, k);
    assert StateAt(t0, t1, kids, at, made, done, at + [k.name]);
    Child(at, k.name, at + [k.name]);
  }

  lemma NameOf(k: SKid, ks: seq<SKid>)
    requires k in ks
    ensures k.name in Names(ks)
  {
  }

  lemma LeafOnly(t: Tree, d: Path)
    requires Grounded(t) && !(d in t && t[d].Dir?)
    ensures Without(t, d) == t - {d}
  {
    forall q | q in t && d <= q ensures q == d {
      if |d| == |q| { assert q == d; } else { AllAbove(t, d, q); }
    }
  }

  /** In a grounded tree there are directories all the way up. */
  lemma {:induction false} AllAbove(t: Tree, p: Path, q: Path)
    requires Grounded(t) && q in t && p <= q && |p| < |q|
    ensures p in t && t[p].Dir?
    decreases |q|
  {
    var r := q[..|q| - 1];
    assert InDir(t, q);
    if |r| == |p| { assert r == p; } else { AllAbove(t, p, r); }
  }

  lemma {:induction false} WantTwice(kids: seq<SKid>, q: Path, was: Option<Entry>)
    ensures Want(kids, q, Want(kids, q, was)) == Want(kids, q, was)
    decreases |q|
  {
    if |q| > 1 {
      var i := Find(kids, q[0]);
      if i < |kids| && kids[i].node.SDir? { WantTwice(kids[i].node.kids, q[1..], was); }
    }
  }

  /** Copying the same directory again changes nothing. */
  lemma CopyTwice(a: Tree, b: Tree, c: Tree, kids: seq<SKid>, at: Path)
    requires Overlaid(a, b, kids, at) && Overlaid(b, c, kids, at)
    ensures b == c
  {
    forall p ensures At(b, p) == At(c, p) {
      assert OverlaidAt(a, b, kids, at, p) && OverlaidAt(b, c, kids, at, p);
      if at <= p { WantTwice(kids, p[|at|..], At(a, p)); }
    }
    assert forall p :: p in b ==> At(b, p) == At(c, p);
    assert forall p :: p in c ==> At(b, p) == At(c, p);
  }
}
