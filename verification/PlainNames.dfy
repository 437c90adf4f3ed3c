/**
  Names, modes and large file names spelled out: that escaping keeps siblings apart, and the
  round trip and the checkout with a precondition on the names alone and a result that says
  what the modes are.
 */
module PlainNames {
  import opened FileMetadata
  import opened RoundTrip
  import opened GitTree

  // ---------------------------------------------------------------------------
  // str.replace(".git", ".weirdal_")

  ghost predicate Contains(n: string, s: string) { exists i :: 0 <= i <= |n| && Occurs(n, s, i) }

  predicate Occurs(n: string, s: string, i: nat)
    requires i <= |n|
  {
    s <= n[i..]
  }

  lemma NotInTail(n: string, s: string, k: nat)
    requires k <= |n| && !Contains(n, s)
    ensures !Contains(n[k..], s)
  {
    if Contains(n[k..], s) {
      var i :| 0 <= i <= |n[k..]| && Occurs(n[k..], s, i);
      assert n[k..][i..] == n[k + i..];
      assert Occurs(n, s, k + i);
    }
  }

  lemma {:induction false} ReplaceNothing(n: Name)
    requires !Contains(n, ".git")
    ensures ReplaceGit(n) == n
  {
    if n != "" {
      assert n[0..] == n && !Occurs(n, ".git", 0);
      NotInTail(n, ".git", 1);
      ReplaceNothing(n[1..]);
    }
  }

  /** The first occurrence is replaced, and then what comes after it. */
  lemma {:induction false} ReplaceFirst(a: string, b: string)
    requires forall i :: 0 <= i < |a| ==> !Occurs(a + ".git" + b, ".git", i)
    ensures ReplaceGit(a + ".git" + b) == a + ".weirdal_" + ReplaceGit(b)
  {
    var n := a + ".git" + b;
    if a == "" {
      assert n[..4] == ".git" && n[4..] == b;
    } else {
      var t := a[1..] + ".git" + b;
      assert n[1..] == t && n[0..] == n && !Occurs(n, ".git", 0);
      forall i | 0 <= i < |a[1..]| ensures !Occurs(t, ".git", i) {
        assert !Occurs(n, ".git", i + 1) && n[i + 1..] == t[i..];
      }
      ReplaceFirst(a[1..], b);
      assert [n[0]] + (a[1..] + ".weirdal_" + ReplaceGit(b)) == a + ".weirdal_" + ReplaceGit(b);
    }
  }

  /** Only names that start with ".git" are changed, and those throughout. */
  lemma EscapeIs(n: Name)
    ensures !(".git" <= n) ==> Escape(n) == n
    ensures ".git" <= n ==> Escape(n) == ".weirdal_" + ReplaceGit(n[4..])
    ensures !(".git" <= Escape(n))
  {
    EscapeCompatible(n);
  }

  // ---------------------------------------------------------------------------
  // Escaping keeps names apart

  /** s.replace(".weirdal_", ".git") */
  function Unreplace(s: Name): Name {
    if s == "" then ""
    else if ".weirdal_" <= s then ".git" + Unreplace(s[9..])
    else [s[0]] + Unreplace(s[1..])
  }

  /** What replacing puts in starts with a dot. */
  lemma {:induction false} ReplacedPrefix(n: Name, s: string)
    requires '.' !in s && s <= ReplaceGit(n)
    ensures s <= n
  {
    if s != "" {
      assert ReplaceGit(n)[0] == s[0];
      assert ReplaceGit(n)[1..] == ReplaceGit(n[1..]);
      assert s[1..] <= ReplaceGit(n[1..]);
      ReplacedPrefix(n[1..], s[1..]);
      assert s == [s[0]] + s[1..] && n == [n[0]] + n[1..];
    }
  }

  lemma {:induction false} UnreplaceReplace(n: Name)
    requires !Contains(n, ".weirdal_")
    ensures Unreplace(ReplaceGit(n)) == n
  {
    if n == "" {
    } else if ".git" <= n {
      NotInTail(n, ".weirdal_", 4);
      UnreplaceReplace(n[4..]);
      var s := ".weirdal_" + ReplaceGit(n[4..]);
      assert s[..9] == ".weirdal_" && s[9..] == ReplaceGit(n[4..]);
      assert n == ".git" + n[4..];
    } else {
      NotInTail(n, ".weirdal_", 1);
      UnreplaceReplace(n[1..]);
      assert !Occurs(n, ".weirdal_", 0) && n[0..] == n;
      if ".weirdal_" <= [n[0]] + ReplaceGit(n[1..]) { NothingPutIn(n); }
      var s := [n[0]] + ReplaceGit(n[1..]);
      assert s[1..] == ReplaceGit(n[1..]) && n == [n[0]] + n[1..];
    }
  }

  /** Where nothing is replaced, what replacing puts in does not appear. */
  lemma NothingPutIn(n: Name)
    requires n != "" && ".weirdal_" <= [n[0]] + ReplaceGit(n[1..])
    ensures ".weirdal_" <= n
  {
    var s := [n[0]] + ReplaceGit(n[1..]);
    assert s[..9] == ".weirdal_" && s[1..] == ReplaceGit(n[1..]);
    assert "weirdal_" == s[..9][1..] == s[1..][..8];
    ReplacedPrefix(n[1..], "weirdal_");
    assert n == [n[0]] + n[1..] && n[0] == s[0] == s[..9][0] == '.';
    assert ".weirdal_" == ['.'] + "weirdal_";
  }

  /** Escaping keeps names apart that do not contain what it puts in. */
  lemma EscapeInjective(m: Name, n: Name)
    requires m != n && !Contains(m, ".weirdal_") && !Contains(n, ".weirdal_")
    ensures Escape(m) != Escape(n)
  {
    UnreplaceReplace(m);
    UnreplaceReplace(n);
    if ".git" <= m { EscapedContains(m); }
    if ".git" <= n { EscapedContains(n); }
  }

  lemma EscapedContains(n: Name)
    requires ".git" <= n
    ensures Contains(Escape(n), ".weirdal_")
  {
    var s := Escape(n);
    assert s == ".weirdal_" + ReplaceGit(n[4..]);
    assert s[0..] == s && s[..9] == ".weirdal_" && Occurs(s, ".weirdal_", 0);
  }

  /** Names that do contain it can collide with special ones. */
  lemma EscapeCollides(t: Name)
    requires !Contains(t, ".git")
    ensures ".git" + t != ".weirdal_" + t && Escape(".git" + t) == ".weirdal_" + t == Escape(".weirdal_" + t)
  {
    ReplaceNothing(t);
    assert (".git" + t)[..4] == ".git" && (".git" + t)[4..] == t;
    assert (".weirdal_" + t)[1] == 'w' && ".git"[1] == 'g';
  }

  // ---------------------------------------------------------------------------
  // A precondition on names

  /** A path as a string, to be matched with the glob "var/lib/rpm/__db.*". */
  function Slashed(p: Path): string {
    if p == [] then "" else if |p| == 1 then p[0] else p[0] + "/" + Slashed(p[1..])
  }

  ghost predicate Components(p: Path) { forall i :: 0 <= i < |p| ==> p[i] != "" && '/' !in p[i] }

  lemma SlashSplit(c: Name, s: string, h: Name, t: string)
    requires '/' !in c && '/' !in h
    ensures c + "/" + s <= h + "/" + t <==> h == c && s <= t
  {
    var u, v := c + "/" + s, h + "/" + t;
    assert u[|c|] == '/' && v[|h|] == '/' && u[..|c|] == c && v[..|h|] == h;
    assert u[|c| + 1..] == s && v[|h| + 1..] == t;
    assert |c| < |h| ==> v[|c|] == h[|c|];
    assert |h| < |c| ==> u[|h|] == c[|h|];
    if u <= v { assert |c| == |h|; }
  }

  /** One component off the front. */
  lemma SlashedHead(p: Path, c: Name, s: string)
    requires Components(p) && '/' !in c
    ensures c + "/" + s <= Slashed(p) <==> |p| > 1 && p[0] == c && s <= Slashed(p[1..])
  {
    assert (c + "/" + s)[|c|] == '/';
    if |p| > 1 { SlashSplit(c, s, p[0], Slashed(p[1..])); }
  }

  /** "__db." has no slash, so it is the start of the first component. */
  lemma SlashedFirst(p: Path, s: string)
    requires Components(p) && '/' !in s && s != ""
    ensures s <= Slashed(p) <==> p != [] && s <= p[0]
  {
    if |p| > 1 {
      var t, h := Slashed(p), p[0];
      assert t[|h|] == '/' && t[..|h|] == h;
      if s <= t {
        assert |s| <= |h|;
        assert s == t[..|s|] == h[..|s|];
      }
      if s <= h { assert s == h[..|s|] == t[..|s|]; }
    }
  }

  lemma RpmDbGlob(p: Path)
    requires Components(p)
    ensures RpmDb(p) <==> "var/lib/rpm/__db." <= Slashed(p)
  {
    assert "var/lib/rpm/__db." == "var" + "/" + "lib/rpm/__db.";
    assert "lib/rpm/__db." == "lib" + "/" + "rpm/__db." && "rpm/__db." == "rpm" + "/" + "__db.";
    SlashedHead(p, "var", "lib/rpm/__db.");
    if |p| > 1 {
      assert Components(p[1..]);
      SlashedHead(p[1..], "lib", "rpm/__db.");
      if |p| > 2 {
        assert p[1..][1..] == p[2..] && Components(p[2..]);
        SlashedHead(p[2..], "rpm", "__db.");
        if |p| > 3 {
          assert p[2..][1..] == p[3..] && Components(p[3..]);
          SlashedFirst(p[3..], "__db.");
        }
      }
    }
  }

  /** A tree as the round trip needs it, said of names, types and sizes: none of the names
      contains ".weirdal_", siblings differ, there are no devices, sockets or RPM database
      files, and `ch/git` is outside. */
  ghost predicate PlainKid(x: Context, kid: Kid, path: Path)
    decreases kid.node, 1
  {
    && !Contains(kid.name, ".weirdal_") && kid.name != "" && '/' !in kid.name
    && path != ["ch", "git"] && !("var/lib/rpm/__db." <= Slashed(path))
    && match kid.node
       case File(ino) => ino in x.inodes && PlainFile(x, kid.name, x.inodes[ino], path)
       case Dir(_, _, kids) => PlainKids(x, kids, path)
  }

  ghost predicate PlainKids(x: Context, kids: seq<Kid>, path: Path)
    decreases kids, 0
  {
    && (forall i :: 0 <= i < |kids| ==> PlainKid(x, kids[i], path + [kids[i].name]))
    && (forall i, j :: 0 <= i < j < |kids| ==> kids[i].name != kids[j].name)
  }

  /** The store may have a file for the same path, size, time and mode as a large file; then
      it has the same content. */
  ghost predicate PlainFile(x: Context, name: Name, i: Inode, path: Path) {
    && (i.kind.Reg? || i.kind.Lnk? || i.kind.Fifo?) && i.nlink > 0
    && (i.kind.Reg? && |i.kind.content| >= x.c.threshold && name != "git.pickle" ==>
          var ln := LargeName(i.mtime, i.perm.(r := true), |i.kind.content|, path);
          ln in x.store ==> x.store[ln].kind == i.kind && x.store[ln].perm == ln.perm && x.store[ln].mtime == i.mtime)
  }

  /** Large files that differ in time, mode, size or path have different names in the store. */
  lemma LargeNames(i: Inode, p: Path, j: Inode, q: Path)
    requires i.kind.Reg? && j.kind.Reg?
    ensures LargeNameOf(i, p) == LargeNameOf(j, q) <==>
            i.mtime == j.mtime && i.perm == j.perm && |i.kind.content| == |j.kind.content| && p == q
  {
  }

  lemma {:induction false} PlainKidAdmissible(x: Context, kid: Kid, path: Path)
    requires path != [] && path[|path| - 1] == kid.name && Components(path) && PlainKid(x, kid, path)
    ensures AdmissibleKid(x, kid, path)
    decreases kid.node, 1
  {
    RpmDbGlob(path);
    if kid.node.Dir? { PlainAdmissible(x, kid.node.kids, path); }
  }

  /** So escaped names of siblings differ. */
  lemma {:induction false} PlainAdmissible(x: Context, kids: seq<Kid>, path: Path)
    requires PlainKids(x, kids, path) && Components(path)
    ensures AdmissibleKids(x, kids, path)
    decreases kids, 0
  {
    forall i | 0 <= i < |kids| ensures AdmissibleKid(x, kids[i], path + [kids[i].name]) {
      assert PlainKid(x, kids[i], path + [kids[i].name]);
      PlainKidAdmissible(x, kids[i], path + [kids[i].name]);
    }
    forall i, j | 0 <= i < j < |kids| ensures Escape(kids[i].name) != Escape(kids[j].name) {
      assert PlainKid(x, kids[i], path + [kids[i].name]) && PlainKid(x, kids[j], path + [kids[j].name]);
      EscapeInjective(kids[i].name, kids[j].name);
    }
  }

  /** The same tree of names and types. Directories have their times, and their modes with
      all three bits of the owner. */
  ghost predicate BackKid(a: Kid, b: Kid)
    decreases a.node, 1
  {
    && b.name == a.name
    && match a.node
       case File(_) => b.node.File?
       case Dir(perm, mtime, kids) =>
         && b.node.Dir? && b.node.mtime == mtime && b.node.perm == Perm(true, true, true, perm.rest)
         && BackKids(kids, b.node.kids)
  }

  ghost predicate BackKids(a: seq<Kid>, b: seq<Kid>)
    decreases a, 0
  {
    |a| == |b| && forall i :: 0 <= i < |a| ==> BackKid(a[i], b[i])
  }

  lemma {:induction false} SameKidBack(a: Kid, b: Kid)
    requires SameKid(a, b)
    ensures BackKid(a, b)
    decreases a.node, 1
  {
    if a.node.Dir? { SameKidsBack(a.node.kids, b.node.kids); }
  }

  lemma {:induction false} SameKidsBack(a: seq<Kid>, b: seq<Kid>)
    requires SameKids(a, b)
    ensures BackKids(a, b)
    decreases a, 0
  {
    forall i | 0 <= i < |a| ensures BackKid(a[i], b[i]) { SameKidBack(a[i], b[i]); }
  }

  /** File by file: type, content and target are the same, and so are the time and the mode
      with the owner's read bit. A symbolic link's mode is the same, but its mode and time
      only in a quick restore. */
  ghost predicate BackFile(quick: bool, i: Inode, o: Inode) {
    && o.kind == i.kind
    && (i.kind.Lnk? && quick ==> o.perm == i.perm && o.mtime == i.mtime)
    && (!i.kind.Lnk? ==> o.perm == Perm(true, i.perm.w, i.perm.x, i.perm.rest) && o.mtime == i.mtime)
  }

  ghost predicate Back(x: Context, kids: seq<Kid>, out: seq<Kid>, inodes: map<nat, Inode>) {
    var l0, l1 := LeavesKids(kids, []), LeavesKids(out, []);
    && BackKids(kids, out) && |l0| == |l1|
    && forall i :: 0 <= i < |l0| ==>
         && l1[i].path == l0[i].path && l0[i].ino in x.inodes && l1[i].ino in inodes
         && BackFile(x.rc.quick, x.inodes[l0[i].ino], inodes[l1[i].ino])
  }

  lemma SameTreeBack(x: Context, kids: seq<Kid>, out: seq<Kid>, inodes: map<nat, Inode>)
    requires SameTree(x, kids, out, inodes)
    ensures Back(x, kids, out, inodes)
  {
    SameKidsBack(kids, out);
  }

  /** The round trip of a tree with plain names, without saying how names are escaped. */
  lemma PlainRoundTrip(x: Context, kids: seq<Kid>, disk: seq<Kid>, rs: RestState)
    requires PlainKids(x, kids, []) && CountsOk(x, LeavesKids(kids, [])) && OnDisk(x, kids, disk, rs)
    ensures var r := RoundTrip.Restore(x, kids, disk, rs);
            r.Restored? && r.disk == [] && Back(x, kids, r.out, r.rs.inodes)
  {
    PlainAdmissible(x, kids, []);
    RoundTrip.RoundTrip(x, kids, disk, rs);
    var r := RoundTrip.Restore(x, kids, disk, rs);
    SameTreeBack(x, kids, r.out, r.rs.inodes);
  }

  /** Commit, checkout and full restore of such a tree. */
  lemma PlainCheckout(x: Context, kids: seq<Kid>, g: GitConfig, s: Inos)
    requires PlainKids(x, kids, []) && CountsOk(x, LeavesKids(kids, []))
    requires Prepare(x, kids).PreparedKids? && !x.rc.quick && Grows(Prepare(x, kids).st.store, x.rc.store) && Sane(s)
    ensures var w := Switch(g, [], Committed(x, kids), false, [], s);
            var r := RoundTrip.Restore(x, kids, w.kids, RestState(w.s.inodes, w.s.next, map[]));
            r.Restored? && r.disk == [] && Back(x, kids, r.out, r.rs.inodes)
  {
    PlainAdmissible(x, kids, []);
    CheckoutRestores(x, kids, g, s);
    var w := Switch(g, [], Committed(x, kids), false, [], s);
    var r := RoundTrip.Restore(x, kids, w.kids, RestState(w.s.inodes, w.s.next, map[]));
    SameTreeBack(x, kids, r.out, r.rs.inodes);
  }
}
