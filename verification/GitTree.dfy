/**
  Git, as far as image trees go: what a commit stores, and what checkout, reset and clean
  make of a work tree. With it, a commit and a checkout give the image back
  (`CheckoutRestores`), switching between images is exact (`SwitchRestores`,
  `RestoreThenSwitch`), and rollback gives the last commit back, whatever an instruction
  has done to the image (`RollbackRestores`).
 */
module GitTree {
  import opened FileMetadata
  import opened RoundTrip
  import opened Records

  // ---------------------------------------------------------------------------
  // What Git stores

  /** Content, and of the permissions one bit. */
  datatype GNode = Blob(content: Bytes, exec: bool) | Link(target: string) | Tree(entries: seq<GEntry>)

  datatype GEntry = GEntry(name: Name, node: GNode)

  /** git add -A and git commit: names special to Git, files that are not ordinary ones or
      symbolic links, and directories in which nothing is stored, are dropped. */
  function StoreKid(inodes: map<nat, Inode>, k: Kid): seq<GEntry>
    decreases k.node, 1
  {
    if !GitCompatible(k.name) then []
    else match k.node
      case File(ino) => if ino in inodes && Visible(inodes[ino]) then [GEntry(k.name, StoreFile(inodes[ino]))] else []
      case Dir(_, _, kids) =>
        var es := StoreKids(inodes, kids);
        if es == [] then [] else [GEntry(k.name, Tree(es))]
  }

  function StoreKids(inodes: map<nat, Inode>, kids: seq<Kid>): seq<GEntry>
    decreases kids, 0
  {
    if kids == [] then []
    else StoreKids(inodes, kids[..|kids| - 1]) + StoreKid(inodes, kids[|kids| - 1])
  }

  predicate Visible(i: Inode) { i.kind.Reg? || i.kind.Lnk? }

  function StoreFile(i: Inode): GNode
    requires Visible(i)
  {
    match i.kind case Reg(c) => Blob(c, i.perm.x) case Lnk(t) => Link(t)
  }

  // ---------------------------------------------------------------------------
  // What Git does to a work tree

  /** Git's own mode and time for what it makes. */
  datatype GitConfig = GitConfig(perm: Perm, now: int)

  /** The files, and the next free inode number. */
  datatype Inos = Inos(inodes: map<nat, Inode>, next: nat)

  datatype Put = Put(kid: Kid, s: Inos)

  datatype Switched = Switched(kids: seq<Kid>, s: Inos)

  function Find(es: seq<GEntry>, n: Name): Option<GNode> {
    if es == [] then None
    else if es[|es| - 1].name == n then Some(es[|es| - 1].node) else Find(es[..|es| - 1], n)
  }

  function SubTree(es: seq<GEntry>, n: Name): seq<GEntry> {
    match Find(es, n) case Some(Tree(t)) => t case _ => []
  }

  function SubDisk(disk: seq<Kid>, n: Name): seq<Kid> {
    if Has(disk, n) && Get(disk, n).Dir? then Get(disk, n).kids else []
  }

  function NewInode(g: GitConfig, node: GNode): Inode
    requires !node.Tree?
  {
    match node
    case Blob(c, exec) => Inode(Reg(c), g.perm.(x := exec), g.now, 1)
    case Link(t) => Inode(Lnk(t), g.perm, g.now, 1)
  }

  /** A file that is on disk as it should be is left alone; any other is made anew. */
  function PutFile(g: GitConfig, e: GEntry, disk: seq<Kid>, s: Inos): Put
    requires !e.node.Tree?
  {
    if Has(disk, e.name) && Unchanged(Get(disk, e.name), e.node, s.inodes) then Put(Kid(e.name, Get(disk, e.name)), s)
    else Put(Kid(e.name, File(s.next)), Inos(s.inodes[s.next := NewInode(g, e.node)], s.next + 1))
  }

  predicate Unchanged(d: Node, node: GNode, inodes: map<nat, Inode>) {
    d.File? && d.ino in inodes && Visible(inodes[d.ino]) && StoreFile(inodes[d.ino]) == node
  }

  /** What stays of an entry on disk that is not in the new tree. A checkout removes what
      was tracked; `wipe` is clean -fd, which also removes what is not, as far as Git
      sees it. */
  function Leave(from: seq<GEntry>, wipe: bool, inodes: map<nat, Inode>, k: Kid): seq<Kid>
    decreases k.node, 1
  {
    if !GitCompatible(k.name) then [k]
    else match k.node
      case File(ino) =>
        if Find(from, k.name).Some? || (wipe && ino in inodes && Visible(inodes[ino])) then [] else [k]
      case Dir(perm, mtime, kids) =>
        var rest := LeaveAll(SubTree(from, k.name), wipe, inodes, kids);
        if rest == [] && (wipe || Find(from, k.name).Some?) then [] else [Kid(k.name, Dir(perm, mtime, rest))]
  }

  function LeaveAll(from: seq<GEntry>, wipe: bool, inodes: map<nat, Inode>, disk: seq<Kid>): seq<Kid>
    decreases disk, 0
  {
    if disk == [] then []
    else LeaveAll(from, wipe, inodes, disk[..|disk| - 1]) + Leave(from, wipe, inodes, disk[|disk| - 1])
  }

  function NotIn(disk: seq<Kid>, es: seq<GEntry>): seq<Kid> {
    if disk == [] then []
    else NotIn(disk[..|disk| - 1], es) + (if Find(es, disk[|disk| - 1].name).Some? then [] else [disk[|disk| - 1]])
  }

  /** One directory level and everything below: the new tree's entries, then what stays. */
  function Switch(g: GitConfig, from: seq<GEntry>, to: seq<GEntry>, wipe: bool, disk: seq<Kid>, s: Inos): Switched
    decreases to, 1
  {
    var r := PutAll(g, from, to, wipe, disk, s);
    Switched(r.kids + LeaveAll(from, wipe, s.inodes, NotIn(disk, to)), r.s)
  }

  function PutAll(g: GitConfig, from: seq<GEntry>, to: seq<GEntry>, wipe: bool, disk: seq<Kid>, s: Inos): Switched
    decreases to, 0
  {
    if to == [] then Switched([], s)
    else
      var n := |to| - 1;
      var r := PutAll(g, from, to[..n], wipe, disk, s);
      var p := PutEntry(g, from, to[n], wipe, disk, r.s);
      Switched(r.kids + [p.kid], p.s)
  }

  function PutEntry(g: GitConfig, from: seq<GEntry>, e: GEntry, wipe: bool, disk: seq<Kid>, s: Inos): Put
    decreases e, 2
  {
    match e.node
    case Tree(es) =>
      var r := Switch(g, SubTree(from, e.name), es, wipe, SubDisk(disk, e.name), s);
      Put(Kid(e.name, Dir(g.perm, g.now, r.kids)), r.s)
    case _ => PutFile(g, e, disk, s)
  }

  // ---------------------------------------------------------------------------
  // Everything on disk goes or is replaced

  /** Git removes all of this when it is not in the new tree. */
  ghost predicate AllGo(from: seq<GEntry>, wipe: bool, inodes: map<nat, Inode>, disk: seq<Kid>) {
    forall i :: 0 <= i < |disk| ==> Leave(from, wipe, inodes, disk[i]) == []
  }

  lemma {:induction false} LeaveMember(from: seq<GEntry>, wipe: bool, inodes: map<nat, Inode>, disk: seq<Kid>)
    ensures LeaveAll(from, wipe, inodes, disk) == [] <==> AllGo(from, wipe, inodes, disk)
    decreases |disk|
  {
    if disk != [] { LeaveMember(from, wipe, inodes, disk[..|disk| - 1]); }
  }

  lemma {:induction false} NotInFrom(disk: seq<Kid>, es: seq<GEntry>)
    ensures forall k :: k in NotIn(disk, es) ==> k in disk
  {
    if disk != [] { NotInFrom(disk[..|disk| - 1], es); }
  }

  lemma NothingLeft(from: seq<GEntry>, wipe: bool, inodes: map<nat, Inode>, disk: seq<Kid>, es: seq<GEntry>)
    requires AllGo(from, wipe, inodes, disk)
    ensures LeaveAll(from, wipe, inodes, NotIn(disk, es)) == []
  {
    NotInFrom(disk, es);
    var r := NotIn(disk, es);
    forall i | 0 <= i < |r| ensures Leave(from, wipe, inodes, r[i]) == [] {
      assert r[i] in disk;
    }
    LeaveMember(from, wipe, inodes, r);
  }

  /** The same inodes, as far as a tree goes. */
  ghost predicate AgreeOn(w: seq<nat>, i0: map<nat, Inode>, i1: map<nat, Inode>) {
    forall n :: n in w ==> (n in i0 <==> n in i1) && (n in i0 ==> i0[n] == i1[n])
  }

  lemma {:induction false} LeaveFrame(from: seq<GEntry>, wipe: bool, i0: map<nat, Inode>, i1: map<nat, Inode>, k: Kid)
    requires AgreeOn(InosKid(k), i0, i1)
    ensures Leave(from, wipe, i0, k) == Leave(from, wipe, i1, k)
    decreases k.node, 1
  {
    match k.node
    case File(ino) => assert ino in InosKid(k);
    case Dir(_, _, kids) => LeaveAllFrame(SubTree(from, k.name), wipe, i0, i1, kids);
  }

  lemma {:induction false} LeaveAllFrame(
      from: seq<GEntry>, wipe: bool, i0: map<nat, Inode>, i1: map<nat, Inode>, disk: seq<Kid>)
    requires AgreeOn(InosKids(disk), i0, i1)
    ensures LeaveAll(from, wipe, i0, disk) == LeaveAll(from, wipe, i1, disk)
    decreases disk, 0
  {
    if disk != [] {
      var n := |disk| - 1;
      assert InosKids(disk) == InosKids(disk[..n]) + InosKid(disk[n]);
      LeaveAllFrame(from, wipe, i0, i1, disk[..n]);
      LeaveFrame(from, wipe, i0, i1, disk[n]);
    }
  }

  lemma {:induction false} GetMember(disk: seq<Kid>, n: Name) returns (i: nat)
    requires Has(disk, n)
    ensures i < |disk| && disk[i].name == n && Get(disk, n) == disk[i].node
  {
    if disk[0].name == n {
      i := 0;
    } else {
      assert Has(disk[1..], n) by {
        var k :| 0 <= k < |disk| && disk[k].name == n;
        assert disk[1..][k - 1] == disk[k];
      }
      i := GetMember(disk[1..], n);
      i := i + 1;
    }
  }

  // ---------------------------------------------------------------------------
  // Trees that Git stores without loss

  /** Sibling names are distinct. */
  predicate NamedKid(k: Kid)
    decreases k.node, 1
  {
    k.node.Dir? ==> NamedKids(k.node.kids)
  }

  predicate NamedKids(kids: seq<Kid>)
    decreases kids, 0
  {
    && (forall i, j :: 0 <= i < j < |kids| ==> kids[i].name != kids[j].name)
    && (forall i :: 0 <= i < |kids| ==> NamedKid(kids[i]))
  }

  /** The inodes have kept their content. */
  ghost predicate KindsOn(w: seq<nat>, i0: map<nat, Inode>, i1: map<nat, Inode>) {
    forall n :: n in w && n in i0 ==> n in i1 && i1[n].kind == i0[n].kind
  }

  /** The entry of something that is stored whole. */
  ghost predicate EntryOf(inodes: map<nat, Inode>, k: Kid, e: GEntry) {
    && e.name == k.name
    && match k.node
       case File(ino) => ino in inodes && Visible(inodes[ino]) && e.node == StoreFile(inodes[ino])
       case Dir(_, _, kids) => e.node == Tree(StoreKids(inodes, kids))
  }

  lemma {:induction false} StoredKid(x: Context, inodes: map<nat, Inode>, k: Kid)
    requires CleanKid(x, k) && KindsOn(InosKid(k), x.inodes, inodes)
    ensures |StoreKid(inodes, k)| == 1 && EntryOf(inodes, k, StoreKid(inodes, k)[0])
    decreases k.node, 1
  {
    match k.node
    case File(ino) => assert ino in InosKid(k);
    case Dir(_, _, kids) => StoredKids(x, inodes, kids);
  }

  /** Of a clean tree every entry is stored. */
  lemma {:induction false} StoredKids(x: Context, inodes: map<nat, Inode>, kids: seq<Kid>)
    requires CleanKids(x, kids) && KindsOn(InosKids(kids), x.inodes, inodes)
    ensures |StoreKids(inodes, kids)| == |kids|
    ensures forall i :: 0 <= i < |kids| ==> EntryOf(inodes, kids[i], StoreKids(inodes, kids)[i])
    decreases kids, 0
  {
    if kids != [] {
      var n := |kids| - 1;
      assert InosKids(kids) == InosKids(kids[..n]) + InosKid(kids[n]);
      StoredKids(x, inodes, kids[..n]);
      StoredKid(x, inodes, kids[n]);
    }
  }

  // ---------------------------------------------------------------------------
  // What Git makes matches what was stored

  ghost predicate Sane(s: Inos) { forall n :: n in s.inodes ==> n < s.next }

  ghost predicate Grown(s0: Inos, s1: Inos) {
    && s0.next <= s1.next && Sane(s1)
    && forall n :: n in s0.inodes ==> n in s1.inodes && s1.inodes[n] == s0.inodes[n]
  }

  /** The files on disk exist, and each has one name there. */
  ghost predicate Alive(disk: seq<Kid>, s: Inos) {
    && Distinct(InosKids(disk))
    && forall n :: n in InosKids(disk) ==> n in s.inodes && s.inodes[n].nlink > 0
  }

  /** `n` is the inode of something on disk with one of these names. */
  ghost predicate FromDisk(disk: seq<Kid>, a: seq<Kid>, n: nat) {
    exists j :: 0 <= j < |a| && FromNamed(disk, a[j].name, n)
  }

  ghost predicate FromNamed(disk: seq<Kid>, name: Name, n: nat) {
    exists i :: 0 <= i < |disk| && disk[i].name == name && n in InosKid(disk[i])
  }

  ghost predicate KidPut(x: Context, k: Kid, b: Kid, disk: seq<Kid>, s0: Inos, s1: Inos) {
    && Grown(s0, s1) && MatchKid(x, k, b, s1.inodes) && Distinct(InosKid(b))
    && forall n :: n in InosKid(b) ==> FromNamed(disk, k.name, n) || s0.next <= n < s1.next
  }

  ghost predicate KidsPut(x: Context, a: seq<Kid>, b: seq<Kid>, disk: seq<Kid>, s0: Inos, s1: Inos) {
    && Grown(s0, s1) && MatchKids(x, a, b, s1.inodes) && Distinct(InosKids(b))
    && forall n :: n in InosKids(b) ==> FromDisk(disk, a, n) || s0.next <= n < s1.next
  }

  lemma DistinctParts(u: seq<nat>, t: seq<nat>)
    requires Distinct(u + t)
    ensures Distinct(u) && Distinct(t) && forall n :: n in u ==> n !in t
  {
    var w := u + t;
    assert forall k :: 0 <= k < |u| ==> w[k] == u[k];
    assert forall k :: 0 <= k < |t| ==> w[|u| + k] == t[k];
    forall n | n in u ensures n !in t {
      var a :| 0 <= a < |u| && u[a] == n;
      forall b | 0 <= b < |t| ensures t[b] != n { assert w[a] != w[|u| + b]; }
    }
  }

  lemma {:induction false} DistinctMember(disk: seq<Kid>, i: nat)
    requires Distinct(InosKids(disk)) && i < |disk|
    ensures Distinct(InosKid(disk[i]))
  {
    var m := |disk| - 1;
    DistinctParts(InosKids(disk[..m]), InosKid(disk[m]));
    if i < m { DistinctMember(disk[..m], i); }
  }

  lemma {:induction false} MembersApart(disk: seq<Kid>, i: nat, j: nat)
    requires Distinct(InosKids(disk)) && i < j < |disk|
    ensures forall n :: n in InosKid(disk[i]) ==> n !in InosKid(disk[j])
  {
    var m := |disk| - 1;
    DistinctParts(InosKids(disk[..m]), InosKid(disk[m]));
    if j < m { MembersApart(disk[..m], i, j); } else { InosMember(disk[..m], i); }
  }

  /** Different names lead to different inodes. */
  lemma NamedApart(disk: seq<Kid>, a: Name, b: Name, n: nat)
    requires Distinct(InosKids(disk)) && a != b && FromNamed(disk, a, n)
    ensures !FromNamed(disk, b, n)
  {
    var i :| 0 <= i < |disk| && disk[i].name == a && n in InosKid(disk[i]);
    forall j | 0 <= j < |disk| && disk[j].name == b ensures n !in InosKid(disk[j]) {
      if i < j { MembersApart(disk, i, j); } else { MembersApart(disk, j, i); }
    }
  }

  lemma FromNamedIn(disk: seq<Kid>, name: Name, n: nat)
    requires FromNamed(disk, name, n)
    ensures n in InosKids(disk)
  {
    var i :| 0 <= i < |disk| && disk[i].name == name && n in InosKid(disk[i]);
    InosMember(disk, i);
  }

  lemma FilePut(x: Context, g: GitConfig, inodes: map<nat, Inode>, k: Kid, e: GEntry, disk: seq<Kid>, s: Inos)
    requires !x.rc.quick && k.node.File? && k.node.ino in x.inodes && KindsOn(InosKid(k), x.inodes, inodes)
    requires EntryOf(inodes, k, e) && Alive(disk, s) && Sane(s)
    ensures var p := PutFile(g, e, disk, s); KidPut(x, k, p.kid, disk, s, p.s)
  {
    var p := PutFile(g, e, disk, s);
    assert k.node.ino in InosKid(k);
    if Has(disk, e.name) && Unchanged(Get(disk, e.name), e.node, s.inodes) {
      var i := GetMember(disk, e.name);
      assert disk[i].node.ino in InosKid(disk[i]);
      InosMember(disk, i);
    }
  }

  lemma {:induction false} SubDiskFacts(from: seq<GEntry>, wipe: bool, disk: seq<Kid>, name: Name, s: Inos)
    requires Alive(disk, s) && AllGo(from, wipe, s.inodes, disk) && GitCompatible(name)
    ensures Alive(SubDisk(disk, name), s) && AllGo(SubTree(from, name), wipe, s.inodes, SubDisk(disk, name))
    ensures forall n :: n in InosKids(SubDisk(disk, name)) ==> FromNamed(disk, name, n)
  {
    if Has(disk, name) && Get(disk, name).Dir? {
      var i := GetMember(disk, name);
      DistinctMember(disk, i);
      InosMember(disk, i);
      assert Leave(from, wipe, s.inodes, disk[i]) == [];
      LeaveMember(SubTree(from, name), wipe, s.inodes, disk[i].node.kids);
    }
  }

  /** The state moves on; what is on disk stays. */
  lemma StillThere(from: seq<GEntry>, wipe: bool, disk: seq<Kid>, s0: Inos, s1: Inos)
    requires Alive(disk, s0) && AllGo(from, wipe, s0.inodes, disk) && Grown(s0, s1)
    ensures Alive(disk, s1) && AllGo(from, wipe, s1.inodes, disk)
  {
    assert AgreeOn(InosKids(disk), s0.inodes, s1.inodes);
    LeaveAllFrame(from, wipe, s0.inodes, s1.inodes, disk);
    LeaveMember(from, wipe, s0.inodes, disk);
    LeaveMember(from, wipe, s1.inodes, disk);
  }

  lemma InosSnoc(b: seq<Kid>, k: Kid)
    ensures InosKids(b + [k]) == InosKids(b) + InosKid(k)
  {
    assert (b + [k])[..|b|] == b;
  }

  lemma GrownTrans(s0: Inos, s1: Inos, s2: Inos)
    requires Grown(s0, s1) && Grown(s1, s2)
    ensures Grown(s0, s2)
  {
  }

  /** What is made for different entries is apart. */
  lemma PutApart(x: Context, a: seq<Kid>, k: Kid, b: seq<Kid>, kb: Kid, disk: seq<Kid>, s0: Inos, s1: Inos, s2: Inos)
    requires KidsPut(x, a, b, disk, s0, s1) && KidPut(x, k, kb, disk, s1, s2) && Alive(disk, s0) && Sane(s0)
    requires forall i :: 0 <= i < |a| ==> a[i].name != k.name
    ensures forall n :: n in InosKids(b) ==> n !in InosKid(kb)
  {
    forall n | n in InosKids(b) ensures n !in InosKid(kb) {
      if FromDisk(disk, a, n) {
        var j :| 0 <= j < |a| && FromNamed(disk, a[j].name, n);
        NamedApart(disk, a[j].name, k.name, n);
        FromNamedIn(disk, a[j].name, n);
      } else {
        assert FromNamed(disk, k.name, n) ==> n in InosKids(disk) by {
          if FromNamed(disk, k.name, n) { FromNamedIn(disk, k.name, n); }
        }
      }
    }
  }

  lemma DistinctJoin(u: seq<nat>, t: seq<nat>)
    requires Distinct(u) && Distinct(t) && forall n :: n in u ==> n !in t
    ensures Distinct(u + t)
  {
    var w := u + t;
    forall i, j | 0 <= i < j < |w| ensures w[i] != w[j] {
      if i < |u| <= j { assert w[i] in u && w[j] == t[j - |u|]; }
    }
  }

  lemma PutSnoc(x: Context, a: seq<Kid>, k: Kid, b: seq<Kid>, kb: Kid, disk: seq<Kid>, s0: Inos, s1: Inos, s2: Inos)
    requires KidsPut(x, a, b, disk, s0, s1) && KidPut(x, k, kb, disk, s1, s2) && Alive(disk, s0) && Sane(s0)
    requires forall i :: 0 <= i < |a| ==> a[i].name != k.name
    ensures KidsPut(x, a + [k], b + [kb], disk, s0, s2)
  {
    GrownTrans(s0, s1, s2);
    MatchKidsFrame(x, a, b, s1.inodes, s2.inodes);
    InosSnoc(b, kb);
    PutApart(x, a, k, b, kb, disk, s0, s1, s2);
    DistinctJoin(InosKids(b), InosKid(kb));
    forall n | n in InosKids(b + [kb]) ensures FromDisk(disk, a + [k], n) || s0.next <= n < s2.next {
      if n in InosKids(b) && FromDisk(disk, a, n) {
        var j :| 0 <= j < |a| && FromNamed(disk, a[j].name, n);
        assert FromNamed(disk, (a + [k])[j].name, n);
      } else if n in InosKid(kb) && FromNamed(disk, k.name, n) {
        assert FromNamed(disk, (a + [k])[|a|].name, n);
      }
    }
  }

  /** A clean tree that Git has stored, made in a work tree from which everything goes. */
  ghost predicate SwitchReady(x: Context, a: seq<Kid>, inodes: map<nat, Inode>, from: seq<GEntry>, wipe: bool, disk: seq<Kid>, s: Inos) {
    && !x.rc.quick && CleanKids(x, a) && NamedKids(a) && KindsOn(InosKids(a), x.inodes, inodes)
    && Alive(disk, s) && Sane(s) && AllGo(from, wipe, s.inodes, disk)
  }

  lemma {:induction false} SwitchMatches(
      x: Context, g: GitConfig, a: seq<Kid>, inodes: map<nat, Inode>, from: seq<GEntry>, wipe: bool, disk: seq<Kid>, s: Inos)
    requires SwitchReady(x, a, inodes, from, wipe, disk, s)
    ensures var r := Switch(g, from, StoreKids(inodes, a), wipe, disk, s); KidsPut(x, a, r.kids, disk, s, r.s)
    decreases a, 2
  {
    var to := StoreKids(inodes, a);
    PutAllMatches(x, g, a, inodes, from, wipe, disk, s);
    NothingLeft(from, wipe, s.inodes, disk, to);
    var r := PutAll(g, from, to, wipe, disk, s);
    assert r.kids + [] == r.kids;
  }

  lemma {:induction false} PutAllMatches(
      x: Context, g: GitConfig, a: seq<Kid>, inodes: map<nat, Inode>, from: seq<GEntry>, wipe: bool, disk: seq<Kid>, s: Inos)
    requires SwitchReady(x, a, inodes, from, wipe, disk, s)
    ensures var r := PutAll(g, from, StoreKids(inodes, a), wipe, disk, s); KidsPut(x, a, r.kids, disk, s, r.s)
    decreases a, 1
  {
    if a != [] {
      var n := |a| - 1;
      var init, k := a[..n], a[n];
      var to, to0 := StoreKids(inodes, a), StoreKids(inodes, init);
      StoredKids(x, inodes, a);
      InitSwitch(x, a, inodes, from, wipe, disk, s);
      StoredKids(x, inodes, init);
      assert to[..n] == to0;
      PutAllMatches(x, g, init, inodes, from, wipe, disk, s);
      var r := PutAll(g, from, to0, wipe, disk, s);
      StillThere(from, wipe, disk, s, r.s);
      EntryMatches(x, g, k, inodes, from, to[n], wipe, disk, r.s);
      var p := PutEntry(g, from, to[n], wipe, disk, r.s);
      PutSnoc(x, init, k, r.kids, p.kid, disk, s, r.s, p.s);
      assert init + [k] == a;
    }
  }

  lemma InitSwitch(x: Context, a: seq<Kid>, inodes: map<nat, Inode>, from: seq<GEntry>, wipe: bool, disk: seq<Kid>, s: Inos)
    requires SwitchReady(x, a, inodes, from, wipe, disk, s) && a != []
    ensures SwitchReady(x, a[..|a| - 1], inodes, from, wipe, disk, s)
    ensures KindsOn(InosKid(a[|a| - 1]), x.inodes, inodes)
    ensures StoreKids(inodes, a) == StoreKids(inodes, a[..|a| - 1]) + StoreKid(inodes, a[|a| - 1])
  {
    assert InosKids(a) == InosKids(a[..|a| - 1]) + InosKid(a[|a| - 1]);
  }

  lemma {:induction false} EntryMatches(
      x: Context, g: GitConfig, k: Kid, inodes: map<nat, Inode>, from: seq<GEntry>, e: GEntry, wipe: bool, disk: seq<Kid>, s: Inos)
    requires !x.rc.quick && CleanKid(x, k) && NamedKid(k) && KindsOn(InosKid(k), x.inodes, inodes) && EntryOf(inodes, k, e)
    requires Alive(disk, s) && Sane(s) && AllGo(from, wipe, s.inodes, disk)
    ensures var p := PutEntry(g, from, e, wipe, disk, s); KidPut(x, k, p.kid, disk, s, p.s)
    decreases k.node, 3
  {
    match k.node
    case File(_) =>
      FilePut(x, g, inodes, k, e, disk, s);
    case Dir(_, _, kids) =>
      SubDiskFacts(from, wipe, disk, k.name, s);
      SwitchMatches(x, g, kids, inodes, SubTree(from, k.name), wipe, SubDisk(disk, k.name), s);
      DirPut(x, k, disk, SubDisk(disk, k.name), g, Switch(g, SubTree(from, k.name), StoreKids(inodes, kids), wipe, SubDisk(disk, k.name), s), s);
  }

  lemma DirPut(x: Context, k: Kid, disk: seq<Kid>, sub: seq<Kid>, g: GitConfig, r: Switched, s: Inos)
    requires k.node.Dir? && KidsPut(x, k.node.kids, r.kids, sub, s, r.s)
    requires forall n :: n in InosKids(sub) ==> FromNamed(disk, k.name, n)
    ensures KidPut(x, k, Kid(k.name, Dir(g.perm, g.now, r.kids)), disk, s, r.s)
  {
    forall n | n in InosKids(r.kids) && FromDisk(sub, k.node.kids, n) ensures FromNamed(disk, k.name, n) {
      var j :| 0 <= j < |k.node.kids| && FromNamed(sub, k.node.kids[j].name, n);
      FromNamedIn(sub, k.node.kids[j].name, n);
    }
  }

  // ---------------------------------------------------------------------------
  // Work trees from which everything goes: a tracked one, and any one under clean

  lemma {:induction false} FindAt(es: seq<GEntry>, i: nat)
    requires i < |es| && forall j, k :: 0 <= j < k < |es| ==> es[j].name != es[k].name
    ensures Find(es, es[i].name) == Some(es[i].node)
  {
    if i < |es| - 1 { FindAt(es[..|es| - 1], i); }
  }

  lemma {:induction false} TrackedGoes(x: Context, inodes: map<nat, Inode>, from: seq<GEntry>, disk: seq<Kid>)
    requires CleanKids(x, disk) && NamedKids(disk) && KindsOn(InosKids(disk), x.inodes, inodes)
    requires from == StoreKids(inodes, disk)
    ensures AllGo(from, false, inodes, disk)
    decreases disk, 0
  {
    StoredKids(x, inodes, disk);
    forall i | 0 <= i < |disk| ensures Leave(from, false, inodes, disk[i]) == [] {
      FindAt(from, i);
      InosMember(disk, i);
      assert EntryOf(inodes, disk[i], from[i]);
      TrackedKidGoes(x, inodes, from, disk[i]);
    }
  }

  lemma {:induction false} TrackedKidGoes(x: Context, inodes: map<nat, Inode>, from: seq<GEntry>, k: Kid)
    requires CleanKid(x, k) && NamedKid(k) && KindsOn(InosKid(k), x.inodes, inodes)
    requires Find(from, k.name).Some? && (k.node.Dir? ==> SubTree(from, k.name) == StoreKids(inodes, k.node.kids))
    ensures Leave(from, false, inodes, k) == []
    decreases k.node, 1
  {
    if k.node.Dir? {
      TrackedGoes(x, inodes, SubTree(from, k.name), k.node.kids);
      LeaveMember(SubTree(from, k.name), false, inodes, k.node.kids);
    }
  }

  /** Git sees every file. */
  predicate VisibleKid(inodes: map<nat, Inode>, k: Kid)
    decreases k.node, 1
  {
    && GitCompatible(k.name)
    && match k.node
       case File(ino) => ino in inodes && Visible(inodes[ino])
       case Dir(_, _, kids) => VisibleKids(inodes, kids)
  }

  predicate VisibleKids(inodes: map<nat, Inode>, kids: seq<Kid>)
    decreases kids, 0
  {
    forall i :: 0 <= i < |kids| ==> VisibleKid(inodes, kids[i])
  }

  lemma {:induction false} VisibleKidGoes(from: seq<GEntry>, inodes: map<nat, Inode>, k: Kid)
    requires VisibleKid(inodes, k)
    ensures Leave(from, true, inodes, k) == []
    decreases k.node, 1
  {
    match k.node
    case File(_) =>
    case Dir(_, _, kids) =>
      VisibleGoes(SubTree(from, k.name), inodes, kids);
      LeaveMember(SubTree(from, k.name), true, inodes, kids);
  }

  lemma {:induction false} VisibleGoes(from: seq<GEntry>, inodes: map<nat, Inode>, disk: seq<Kid>)
    requires VisibleKids(inodes, disk)
    ensures AllGo(from, true, inodes, disk)
    decreases disk, 0
  {
    forall i | 0 <= i < |disk| ensures Leave(from, true, inodes, disk[i]) == [] { VisibleKidGoes(from, inodes, disk[i]); }
  }

  // ---------------------------------------------------------------------------
  // What preparing leaves of an admissible tree has distinct names

  ghost predicate NamedAfter(left: seq<Kid>, kids: seq<Kid>) {
    NamedKids(left) && forall i :: 0 <= i < |left| ==> NameOf(left[i], kids)
  }

  ghost predicate NameOf(k: Kid, kids: seq<Kid>) { exists j :: 0 <= j < |kids| && k.name == Escape(kids[j].name) }

  lemma {:induction false} LeftNamedKid(x: Context, kid: Kid, path: Path, st: PrepState)
    requires AdmissibleKid(x, kid, path) && Tracks(x.inodes, st.inodes) && PrepKid(x.c, kid, path, st).Prepared?
    ensures var p := PrepKid(x.c, kid, path, st);
            |p.left| <= 1 && (p.left != [] ==> NamedKid(p.left[0]) && p.left[0].name == Escape(kid.name))
    decreases kid.node, 1
  {
    PrepKidOk(x, kid, path, st);
    if kid.node.Dir? { LeftNamed(x, kid.node.kids, path, st); }
  }

  lemma {:induction false} LeftNamed(x: Context, kids: seq<Kid>, path: Path, st: PrepState)
    requires AdmissibleKids(x, kids, path) && Tracks(x.inodes, st.inodes) && PrepKids(x.c, kids, path, st).PreparedKids?
    ensures NamedAfter(PrepKids(x.c, kids, path, st).left, kids)
    decreases kids, 0
  {
    if kids != [] {
      var n := |kids| - 1;
      PrepSnoc(x, kids, path, st);
      AdmissibleInit(x, kids, path);
      LeftNamed(x, kids[..n], path, st);
      var p1 := PrepKids(x.c, kids[..n], path, st);
      PrepKidsOk(x, kids[..n], path, st);
      LeftNamedKid(x, kids[n], path + [kids[n].name], p1.st);
      NamedSnoc(p1.left, PrepKid(x.c, kids[n], path + [kids[n].name], p1.st).left, kids);
    }
  }

  lemma NameOfInit(k: Kid, kids: seq<Kid>)
    requires kids != [] && NameOf(k, kids[..|kids| - 1])
    requires forall i, j :: 0 <= i < j < |kids| ==> Escape(kids[i].name) != Escape(kids[j].name)
    ensures NameOf(k, kids) && k.name != Escape(kids[|kids| - 1].name)
  {
    var n := |kids| - 1;
    var j :| 0 <= j < n && k.name == Escape(kids[..n][j].name);
    assert kids[..n][j] == kids[j];
  }

  lemma NamedJoin(left: seq<Kid>, k: Kid)
    requires NamedKids(left) && NamedKid(k) && forall i :: 0 <= i < |left| ==> left[i].name != k.name
    ensures NamedKids(left + [k])
  {
    var t := left + [k];
    forall i | 0 <= i < |t| ensures NamedKid(t[i]) { assert i < |left| ==> t[i] == left[i]; }
    forall i, j | 0 <= i < j < |t| ensures t[i].name != t[j].name { assert j < |left| ==> t[j] == left[j]; }
  }

  lemma NamedSnoc(left: seq<Kid>, more: seq<Kid>, kids: seq<Kid>)
    requires kids != [] && NamedAfter(left, kids[..|kids| - 1])
    requires |more| <= 1 && (more != [] ==> NamedKid(more[0]) && more[0].name == Escape(kids[|kids| - 1].name))
    requires forall i, j :: 0 <= i < j < |kids| ==> Escape(kids[i].name) != Escape(kids[j].name)
    ensures NamedAfter(left + more, kids)
  {
    forall i | 0 <= i < |left|
      ensures NameOf(left[i], kids) && left[i].name != Escape(kids[|kids| - 1].name)
    {
      NameOfInit(left[i], kids);
    }
    if more == [] {
      assert left + more == left;
    } else {
      assert more == [more[0]];
      NamedJoin(left, more[0]);
      assert NameOf(more[0], kids);
    }
  }

  // ---------------------------------------------------------------------------
  // What preparing leaves of any tree at all

  /** `ch/git` is outside. */
  predicate NoGitKid(kid: Kid, path: Path)
    decreases kid.node, 1
  {
    path != GIT_DIR && (kid.node.Dir? ==> NoGitKids(kid.node.kids, path))
  }

  predicate NoGitKids(kids: seq<Kid>, path: Path)
    decreases kids, 0
  {
    forall i :: 0 <= i < |kids| ==> NoGitKid(kids[i], path + [kids[i].name])
  }

  /** One file: `w` are the names still on disk, `u` those not yet visited. */
  ghost predicate RoomFor(st: PrepState, w: multiset<nat>, u: multiset<nat>, n: nat) {
    w[n] + u[n] > 0 ==>
      && n in st.inodes && w[n] + u[n] <= st.inodes[n].nlink && w[n] <= 1
      && (w[n] > 0 && u[n] > 0 ==> n in st.hardlinks)
      && (w[n] > 0 ==> Visible(st.inodes[n]))
  }

  ghost predicate Room(st: PrepState, w: multiset<nat>, u: multiset<nat>) {
    forall n {:trigger RoomFor(st, w, u, n)} :: RoomFor(st, w, u, n)
  }

  ghost predicate KindsStay(st: PrepState, st': PrepState) {
    forall n :: n in st.inodes ==> n in st'.inodes && st'.inodes[n].kind == st.inodes[n].kind
  }

  /** What any prepared file does to the counts. */
  ghost predicate Accounted(st: PrepState, st': PrepState, left: seq<Kid>, ino: nat) {
    && ino in st.inodes && ino in st'.inodes && KindsStay(st, st') && st'.inodes == st.inodes[ino := st'.inodes[ino]]
    && (forall n :: n in st.hardlinks ==> n in st'.hardlinks)
    && if left == [] then st'.inodes[ino].nlink + 1 >= st.inodes[ino].nlink
       else
         && |left| == 1 && left[0].node == File(ino) && GitCompatible(left[0].name) && Visible(st.inodes[ino])
         && st'.inodes[ino].nlink == st.inodes[ino].nlink
         && (st.inodes[ino].nlink > 1 ==> ino !in st.hardlinks && ino in st'.hardlinks)
  }

  lemma AccountedStored(c: PrepConfig, fm: Fm, ino: nat, path: Path, st: PrepState)
    requires ino in st.inodes && (st.inodes[ino].kind.Reg? || st.inodes[ino].kind.Lnk? || st.inodes[ino].kind.Fifo?)
    requires PrepStored(c, fm, ino, path, st).Prepared?
    ensures var p := PrepStored(c, fm, ino, path, st);
            && p.st.hardlinks == st.hardlinks
            && Accounted(st.(hardlinks := map[]), p.st.(hardlinks := map[ino := path]), p.left, ino)
  {
    EscapeCompatible(fm.name);
  }

  lemma AccountedLink(c: PrepConfig, fm: Fm, ino: nat, path: Path, st: PrepState)
    requires ino in st.inodes && (st.inodes[ino].kind.Reg? || st.inodes[ino].kind.Lnk? || st.inodes[ino].kind.Fifo?)
    requires PrepLink(c, fm, ino, path, st).Prepared?
    ensures var p := PrepLink(c, fm, ino, path, st); Accounted(st, p.st, p.left, ino)
  {
    if st.inodes[ino].nlink <= 1 {
      AccountedStored(c, fm, ino, path, st);
    } else if ino !in st.hardlinks {
      AccountedStored(c, fm, ino, path, st.(hardlinks := st.hardlinks[ino := path]));
    }
  }

  lemma AccountedGone(st: PrepState, ino: nat)
    requires ino in st.inodes
    ensures Accounted(st, Unlink(st, ino), [], ino)
  {
  }

  /** Widening permissions first makes no difference. */
  lemma AccountedChmod(st: PrepState, st': PrepState, left: seq<Kid>, ino: nat)
    requires ino in st.inodes && Accounted(st.(inodes := st.inodes[ino := ChmodMin(st.inodes[ino])]), st', left, ino)
    ensures Accounted(st, st', left, ino)
  {
  }

  lemma AccountedFile(c: PrepConfig, name: Name, ino: nat, path: Path, st: PrepState)
    requires path != GIT_DIR && PrepFile(c, name, ino, path, st).Prepared?
    ensures var p := PrepFile(c, name, ino, path, st); Accounted(st, p.st, p.left, ino)
  {
    var i := ChmodMin(st.inodes[ino]);
    var st' := st.(inodes := st.inodes[ino := i]);
    var p := PrepFile(c, name, ino, path, st);
    if i.kind.Sock? || RpmDb(path) {
      AccountedGone(st', ino);
    } else {
      AccountedLink(c, FileRecord(name, i), ino, path, st');
    }
    AccountedChmod(st, p.st, p.left, ino);
  }

  lemma RoomFile(st: PrepState, st': PrepState, left: seq<Kid>, ino: nat, w: multiset<nat>, u: multiset<nat>)
    requires Accounted(st, st', left, ino) && Room(st, w, multiset{ino} + u)
    ensures Room(st', w + multiset(InosKids(left)), u) && VisibleKids(st'.inodes, left)
  {
    assert RoomFor(st, w, multiset{ino} + u, ino);
    if left != [] {
      InosOne(left[0]);
      assert left == [left[0]];
      assert InosKids(left) == [ino];
    }
    forall n ensures RoomFor(st', w + multiset(InosKids(left)), u, n) {
      assert RoomFor(st, w, multiset{ino} + u, n);
    }
  }

  lemma {:induction false} VisibleStays(i0: map<nat, Inode>, i1: map<nat, Inode>, k: Kid)
    requires VisibleKid(i0, k) && forall n :: n in i0 ==> n in i1 && i1[n].kind == i0[n].kind
    ensures VisibleKid(i1, k)
    decreases k.node, 1
  {
    if k.node.Dir? { VisibleAllStay(i0, i1, k.node.kids); }
  }

  lemma {:induction false} VisibleAllStay(i0: map<nat, Inode>, i1: map<nat, Inode>, kids: seq<Kid>)
    requires VisibleKids(i0, kids) && forall n :: n in i0 ==> n in i1 && i1[n].kind == i0[n].kind
    ensures VisibleKids(i1, kids)
    decreases kids, 0
  {
    forall i | 0 <= i < |kids| ensures VisibleKid(i1, kids[i]) { VisibleStays(i0, i1, kids[i]); }
  }

  ghost predicate Residue(st: PrepState, st': PrepState, left: seq<Kid>, w: multiset<nat>, u: multiset<nat>) {
    Room(st', w + multiset(InosKids(left)), u) && VisibleKids(st'.inodes, left) && KindsStay(st, st')
  }

  lemma {:induction false} ResidueKid(c: PrepConfig, kid: Kid, path: Path, st: PrepState, w: multiset<nat>, u: multiset<nat>)
    requires NoGitKid(kid, path) && Room(st, w, multiset(InosKid(kid)) + u) && PrepKid(c, kid, path, st).Prepared?
    ensures var p := PrepKid(c, kid, path, st); Residue(st, p.st, p.left, w, u)
    decreases kid.node, 1
  {
    var p := PrepKid(c, kid, path, st);
    match kid.node
    case File(ino) =>
      AccountedFile(c, kid.name, ino, path, st);
      assert multiset([ino]) == multiset{ino};
      RoomFile(st, p.st, p.left, ino, w, u);
    case Dir(_, _, kids) =>
      ResidueKids(c, kids, path, st, w, u);
      ResidueDir(kid, PrepKids(c, kids, path, st), p, st, w, u);
  }

  lemma ResidueDir(kid: Kid, ps: PreparedKids, p: Prepared, st: PrepState, w: multiset<nat>, u: multiset<nat>)
    requires ps.PreparedKids? && p.Prepared? && Residue(st, ps.st, ps.left, w, u) && p.st == ps.st
    requires (p.left == [] && ps.left == []) ||
             (|p.left| == 1 && p.left[0].name == Escape(kid.name) && p.left[0].node.Dir? && p.left[0].node.kids == ps.left)
    ensures Residue(st, p.st, p.left, w, u)
  {
    EscapeCompatible(kid.name);
    if p.left != [] {
      InosOne(p.left[0]);
      assert p.left == [p.left[0]];
    }
  }

  lemma {:induction false} ResidueKids(c: PrepConfig, kids: seq<Kid>, path: Path, st: PrepState, w: multiset<nat>, u: multiset<nat>)
    requires NoGitKids(kids, path) && Room(st, w, multiset(InosKids(kids)) + u) && PrepKids(c, kids, path, st).PreparedKids?
    ensures var p := PrepKids(c, kids, path, st); Residue(st, p.st, p.left, w, u)
    decreases kids, 0
  {
    if kids == [] {
      assert w + multiset([]) == w && multiset([]) + u == u;
    } else {
      var n := |kids| - 1;
      var last, own := kids[n], path + [kids[n].name];
      var p1 := PrepKids(c, kids[..n], path, st);
      var p2 := PrepKid(c, last, own, p1.st);
      assert InosKids(kids) == InosKids(kids[..n]) + InosKid(last);
      assert multiset(InosKids(kids)) + u == multiset(InosKids(kids[..n])) + (multiset(InosKid(last)) + u);
      ResidueKids(c, kids[..n], path, st, w, multiset(InosKid(last)) + u);
      ResidueKid(c, last, own, p1.st, w + multiset(InosKids(p1.left)), u);
      ResidueBoth(st, p1, p2, w, u);
    }
  }

  lemma ResidueBoth(st: PrepState, p1: PreparedKids, p2: Prepared, w: multiset<nat>, u: multiset<nat>)
    requires p1.PreparedKids? && p2.Prepared? && KindsStay(st, p1.st) && VisibleKids(p1.st.inodes, p1.left)
    requires Residue(p1.st, p2.st, p2.left, w + multiset(InosKids(p1.left)), u)
    ensures Residue(st, p2.st, p1.left + p2.left, w, u)
  {
    InosSplit(p1.left, p2.left);
    assert w + multiset(InosKids(p1.left + p2.left)) == w + multiset(InosKids(p1.left)) + multiset(InosKids(p2.left));
    VisibleAllStay(p1.st.inodes, p2.st.inodes, p1.left);
  }

  // ---------------------------------------------------------------------------
  // Main results

  /** What Git has for an image after a commit. */
  function Committed(x: Context, kids: seq<Kid>): seq<GEntry>
    requires Prepare(x, kids).PreparedKids?
  {
    StoreKids(Prepare(x, kids).st.inodes, Prepare(x, kids).left)
  }

  /** A full restore from this state of the work tree gives the image back. */
  ghost predicate Restores(x: Context, kids: seq<Kid>, r: Switched)
    requires Prepare(x, kids).PreparedKids?
  {
    var v, o := LeavesKids(kids, []), Restore(x, kids, r.kids, RestState(r.s.inodes, r.s.next, map[]));
    && o.Restored? && o.disk == [] && SameTree(x, kids, o.out, o.rs.inodes) && Resolves(o.rs.done, LeavesKids(o.out, []))
    && Known(x, v) && (SameLinks(v, LeavesKids(o.out, [])) <==> LinksSafe(x, v))
  }

  /** A commit that is to be restored in full, its large files being in the store. */
  ghost predicate Commits(x: Context, kids: seq<Kid>) {
    Admissible(x, kids) && Prepare(x, kids).PreparedKids? && !x.rc.quick && Grows(Prepare(x, kids).st.store, x.rc.store)
  }

  lemma PreparedParts(x: Context, kids: seq<Kid>)
    requires Admissible(x, kids) && Prepare(x, kids).PreparedKids?
    ensures var p := Prepare(x, kids);
            && CleanKids(x, p.left) && NamedKids(p.left) && Distinct(InosKids(p.left))
            && KindsOn(InosKids(p.left), x.inodes, p.st.inodes) && Tracks(x.inodes, p.st.inodes)
            && forall n :: n in InosKids(p.left) ==> n in p.st.inodes && p.st.inodes[n].nlink > 0
  {
    PreparedIsClean(x, kids);
    PrepKidsOk(x, kids, [], PrepState(x.inodes, map[], x.store));
    LeftNamed(x, kids, [], PrepState(x.inodes, map[], x.store));
  }

  lemma MadeOnDisk(x: Context, kids: seq<Kid>, g: GitConfig, from: seq<GEntry>, wipe: bool, disk: seq<Kid>, s: Inos)
    requires Commits(x, kids) && Alive(disk, s) && Sane(s) && AllGo(from, wipe, s.inodes, disk)
    ensures Restores(x, kids, Switch(g, from, Committed(x, kids), wipe, disk, s))
  {
    var p := Prepare(x, kids);
    PreparedParts(x, kids);
    SwitchMatches(x, g, p.left, p.st.inodes, from, wipe, disk, s);
    var r := Switch(g, from, Committed(x, kids), wipe, disk, s);
    MadeIsOnDisk(x, kids, disk, s, r);
    var rs := RestState(r.s.inodes, r.s.next, map[]);
    RoundTrip.RoundTrip(x, kids, r.kids, rs);
    LinksRoundTrip(x, kids, r.kids, rs);
  }

  lemma MadeIsOnDisk(x: Context, kids: seq<Kid>, disk: seq<Kid>, s: Inos, r: Switched)
    requires Commits(x, kids) && KidsPut(x, Prepare(x, kids).left, r.kids, disk, s, r.s) && Sane(s)
    requires forall n :: n in InosKids(disk) ==> n in s.inodes
    ensures OnDisk(x, kids, r.kids, RestState(r.s.inodes, r.s.next, map[]))
  {
    var w := InosKids(r.kids);
    forall j | 0 <= j < |w| ensures w[j] < r.s.next {
      assert w[j] in w;
      if FromDisk(disk, Prepare(x, kids).left, w[j]) {
        var i :| 0 <= i < |Prepare(x, kids).left| && FromNamed(disk, Prepare(x, kids).left[i].name, w[j]);
        FromNamedIn(disk, Prepare(x, kids).left[i].name, w[j]);
      }
    }
  }

  /** Commit, checkout into a new work tree and a full restore give the image back: names,
      types, contents, modes, times, empty directories, FIFOs, large files and `.git*`
      names, and the hard link groups just when none is at risk. */
  lemma CheckoutRestores(x: Context, kids: seq<Kid>, g: GitConfig, s: Inos)
    requires Commits(x, kids) && Sane(s)
    ensures Restores(x, kids, Switch(g, [], Committed(x, kids), false, [], s))
  {
    MadeOnDisk(x, kids, g, [], false, [], s);
  }

  /** Switching a prepared work tree from any image to any other and a full restore give
      the other: nothing of the first stays. */
  lemma SwitchRestores(x: Context, kids: seq<Kid>, x2: Context, kids2: seq<Kid>, g: GitConfig, next: nat)
    requires Admissible(x, kids) && Prepare(x, kids).PreparedKids? && Commits(x2, kids2)
    requires forall n :: n in x.inodes ==> n < next
    ensures var p := Prepare(x, kids);
            Restores(x2, kids2, Switch(g, Committed(x, kids), Committed(x2, kids2), false, p.left, Inos(p.st.inodes, next)))
  {
    var p := Prepare(x, kids);
    PreparedParts(x, kids);
    CleanNow(x, p.left, p.st.inodes);
    TrackedGoes(x.(inodes := p.st.inodes), p.st.inodes, Committed(x, kids), p.left);
    MadeOnDisk(x2, kids2, g, Committed(x, kids), false, p.left, Inos(p.st.inodes, next));
  }

  lemma {:induction false} CleanNowKid(x: Context, k: Kid, inodes: map<nat, Inode>)
    requires CleanKid(x, k) && Tracks(x.inodes, inodes)
    ensures CleanKid(x.(inodes := inodes), k)
    decreases k.node, 1
  {
    if k.node.Dir? { CleanNow(x, k.node.kids, inodes); }
  }

  lemma {:induction false} CleanNow(x: Context, kids: seq<Kid>, inodes: map<nat, Inode>)
    requires CleanKids(x, kids) && Tracks(x.inodes, inodes)
    ensures CleanKids(x.(inodes := inodes), kids)
    decreases kids, 0
  {
    forall i | 0 <= i < |kids| ensures CleanKid(x.(inodes := inodes), kids[i]) { CleanNowKid(x, kids[i], inodes); }
  }

  lemma {:induction false} OnceEach(w: seq<nat>)
    requires forall n :: multiset(w)[n] <= 1
    ensures Distinct(w)
  {
    forall i, j | 0 <= i < j < |w| ensures w[i] != w[j] {
      assert w == w[..j] + w[j..];
      assert multiset(w)[w[i]] == multiset(w[..j])[w[i]] + multiset(w[j..])[w[i]];
      assert w[i] == w[..j][i] && w[i] in multiset(w[..j]);
      assert w[j] == w[j..][0] && w[j] in multiset(w[j..]);
    }
  }

  /** Any tree: every name is counted in its file's link count. */
  ghost predicate CountedTree(kids: seq<Kid>, inodes: map<nat, Inode>) {
    && NoGitKids(kids, [])
    && forall n :: n in InosKids(kids) ==> n in inodes && multiset(InosKids(kids))[n] <= inodes[n].nlink
  }

  /** Whatever is in the directory, once it is prepared clean removes it all. */
  lemma ResidueGoes(c: PrepConfig, kids: seq<Kid>, inodes: map<nat, Inode>, store: Store, from: seq<GEntry>, next: nat)
    requires CountedTree(kids, inodes) && PrepKids(c, kids, [], PrepState(inodes, map[], store)).PreparedKids?
    ensures var p := PrepKids(c, kids, [], PrepState(inodes, map[], store));
            AllGo(from, true, p.st.inodes, p.left) && Alive(p.left, Inos(p.st.inodes, next))
  {
    var st := PrepState(inodes, map[], store);
    var p := PrepKids(c, kids, [], st);
    forall n ensures RoomFor(st, multiset{}, multiset(InosKids(kids)) + multiset{}, n) {
      if multiset(InosKids(kids))[n] > 0 { assert n in multiset(InosKids(kids)) && n in InosKids(kids); }
    }
    ResidueKids(c, kids, [], st, multiset{}, multiset{});
    VisibleGoes(from, p.st.inodes, p.left);
    assert multiset{} + multiset(InosKids(p.left)) == multiset(InosKids(p.left));
    forall n ensures multiset(InosKids(p.left))[n] <= 1 { assert RoomFor(p.st, multiset(InosKids(p.left)), multiset{}, n); }
    OnceEach(InosKids(p.left));
    forall n | n in InosKids(p.left) ensures n in p.st.inodes && p.st.inodes[n].nlink > 0 {
      assert RoomFor(p.st, multiset(InosKids(p.left)), multiset{}, n) && n in multiset(InosKids(p.left));
    }
  }

  /** Preparing only touches files that were there. */
  lemma {:induction false} SameKeysKid(c: PrepConfig, kid: Kid, path: Path, st: PrepState)
    ensures PrepKid(c, kid, path, st).Prepared? ==> PrepKid(c, kid, path, st).st.inodes.Keys == st.inodes.Keys
    decreases kid.node, 1
  {
    if kid.node.Dir? { SameKeys(c, kid.node.kids, path, st); }
  }

  lemma {:induction false} SameKeys(c: PrepConfig, kids: seq<Kid>, path: Path, st: PrepState)
    ensures PrepKids(c, kids, path, st).PreparedKids? ==> PrepKids(c, kids, path, st).st.inodes.Keys == st.inodes.Keys
    decreases kids, 0
  {
    if kids != [] {
      var n := |kids| - 1;
      var p := PrepKids(c, kids[..n], path, st);
      SameKeys(c, kids[..n], path, st);
      if p.PreparedKids? { SameKeysKid(c, kids[n], path + [kids[n].name], p.st); }
    }
  }

  /** rollback(): prepare whatever an instruction has left behind, reset, clean and restore
      in full. For every such tree that can be prepared the result is the image of
      the last commit. The store has gained the large files of that tree. */
  lemma RollbackRestores(
      x: Context, kids: seq<Kid>, c: PrepConfig, dirty: seq<Kid>, inodes: map<nat, Inode>, store: Store, g: GitConfig, next: nat)
    requires Admissible(x, kids) && Prepare(x, kids).PreparedKids? && !x.rc.quick
    requires Grows(Prepare(x, kids).st.store, store)
    requires CountedTree(dirty, inodes) && forall n :: n in inodes ==> n < next
    requires var p := PrepKids(c, dirty, [], PrepState(inodes, map[], store)); p.PreparedKids? && x.rc.store == p.st.store
    ensures var p := PrepKids(c, dirty, [], PrepState(inodes, map[], store));
            && Restores(x, kids, Switch(g, Committed(x, kids), Committed(x, kids), true, p.left, Inos(p.st.inodes, next)))
            && p.st.store.Keys == store.Keys + LargesIn(p.fms)
  {
    var p := PrepKids(c, dirty, [], PrepState(inodes, map[], store));
    LargesStored(c, dirty, [], PrepState(inodes, map[], store));
    SameKeys(c, dirty, [], PrepState(inodes, map[], store));
    ResidueGoes(c, dirty, inodes, store, Committed(x, kids), next);
    MadeOnDisk(x, kids, g, Committed(x, kids), true, p.left, Inos(p.st.inodes, next));
  }

  // ---------------------------------------------------------------------------
  // A restored image that is prepared again is what its commit has

  /** The files that Git could store have the same content and executable bit. */
  ghost predicate SameFiles(x: Context, v: seq<Leaf>, y: Context, w: seq<Leaf>) {
    |v| == |w| && forall i :: 0 <= i < |v| ==> SameFile(x, v[i], y, w[i])
  }

  ghost predicate SameFile(x: Context, l: Leaf, y: Context, m: Leaf) {
    && l.ino in x.inodes && m.ino in y.inodes && y.inodes[m.ino].kind == x.inodes[l.ino].kind
    && (x.inodes[l.ino].kind.Reg? ==> y.inodes[m.ino].perm.x == x.inodes[l.ino].perm.x)
  }

  lemma SameFilesSplit(x: Context, v1: seq<Leaf>, v2: seq<Leaf>, y: Context, w1: seq<Leaf>, w2: seq<Leaf>)
    requires SameFiles(x, v1 + v2, y, w1 + w2) && |v1| == |w1|
    ensures SameFiles(x, v1, y, w1) && SameFiles(x, v2, y, w2)
  {
    var v, w := v1 + v2, w1 + w2;
    forall i | 0 <= i < |v1| ensures SameFile(x, v1[i], y, w1[i]) { assert SameFile(x, v[i], y, w[i]); }
    forall i | 0 <= i < |v2| ensures SameFile(x, v2[i], y, w2[i]) { assert SameFile(x, v[|v1| + i], y, w[|v1| + i]); }
  }

  /** A file that is not gone is left under its stored name. */
  lemma LeftOfFile(c: PrepConfig, name: Name, ino: nat, path: Path, st: PrepState)
    requires path != GIT_DIR && PrepFile(c, name, ino, path, st).Prepared?
    ensures var p := PrepFile(c, name, ino, path, st); p.left == [] || p.left == [Kid(Escape(name), File(ino))]
  {
  }

  lemma StoreOne(inodes: map<nat, Inode>, k: Kid)
    ensures StoreKids(inodes, [k]) == StoreKid(inodes, k)
  {
    assert [k][..0] == [];
  }

  /** A directory is stored if something in it is. */
  function Wrapped(name: Name, es: seq<GEntry>): seq<GEntry> {
    if es == [] then [] else [GEntry(name, Tree(es))]
  }

  lemma StoredDir(x: Context, kid: Kid, path: Path, st: PrepState)
    requires kid.node.Dir? && AdmissibleKid(x, kid, path) && Tracks(x.inodes, st.inodes)
    requires PrepKid(x.c, kid, path, st).Prepared?
    ensures var ps := PrepKids(x.c, kid.node.kids, path, st);
            && ps.PreparedKids?
            && StoreKids(x.inodes, PrepKid(x.c, kid, path, st).left) == Wrapped(Escape(kid.name), StoreKids(x.inodes, ps.left))
  {
    var p, ps := PrepKid(x.c, kid, path, st), PrepKids(x.c, kid.node.kids, path, st);
    EscapeCompatible(kid.name);
    if p.left != [] { StoreOne(x.inodes, p.left[0]); }
  }

  lemma RecordedPlain(c: PrepConfig, name: Name, ino: nat, path: Path, st: PrepState)
    requires path != GIT_DIR && PrepFile(c, name, ino, path, st).Prepared?
    ensures var p := PrepFile(c, name, ino, path, st); ino in st.inodes && p.fm.kind == KindOf(st.inodes[ino].kind) && p.fm.children == []
  {
  }

  /** A file is stored, under its escaped name, unless the record restores it alone. */
  lemma StoredFile(x: Context, name: Name, ino: nat, path: Path, st: PrepState)
    requires AdmissiblePath(path, name) && ino in x.inodes && AdmissibleFile(x, name, x.inodes[ino], path)
    requires Tracks(x.inodes, st.inodes) && PrepFile(x.c, name, ino, path, st).Prepared?
    ensures var p := PrepFile(x.c, name, ino, path, st);
            && (!p.fm.Unstored() ==> Visible(x.inodes[ino])) && FlatFm(p.fm) == [p.fm]
            && StoreKids(x.inodes, p.left)
               == if p.fm.Unstored() then [] else [GEntry(Escape(name), StoreFile(x.inodes[ino]))]
  {
    var p := PrepFile(x.c, name, ino, path, st);
    PrepFileOk(x, name, ino, path, st);
    LeftOfFile(x.c, name, ino, path, st);
    RecordedPlain(x.c, name, ino, path, st);
    EscapeCompatible(name);
    if p.left != [] { StoreOne(x.inodes, p.left[0]); }
  }

  // How many files are stored.

  function BlobsOf(e: GEntry): nat
    decreases e, 1
  {
    match e.node case Tree(es) => Blobs(es) case _ => 1
  }

  function Blobs(es: seq<GEntry>): nat
    decreases es, 0
  {
    if es == [] then 0 else Blobs(es[..|es| - 1]) + BlobsOf(es[|es| - 1])
  }

  lemma {:induction false} BlobsSplit(a: seq<GEntry>, b: seq<GEntry>)
    ensures Blobs(a + b) == Blobs(a) + Blobs(b)
    decreases |b|
  {
    if b == [] {
      assert a + b == a;
    } else {
      var m := |b| - 1;
      BlobsSplit(a, b[..m]);
      assert (a + b)[..|a + b| - 1] == a + b[..m] && (a + b)[|a + b| - 1] == b[m];
    }
  }

  lemma BlobsOne(e: GEntry)
    ensures Blobs([e]) == BlobsOf(e)
  {
    assert [e][..0] == [];
  }

  /** The files of a record that Git has. */
  function Kept(f: seq<Fm>): nat {
    if f == [] then 0 else Kept(f[..|f| - 1]) + (if f[|f| - 1].Unstored() then 0 else 1)
  }

  lemma {:induction false} KeptSplit(a: seq<Fm>, b: seq<Fm>)
    ensures Kept(a + b) == Kept(a) + Kept(b)
    decreases |b|
  {
    if b == [] {
      assert a + b == a;
    } else {
      var m := |b| - 1;
      KeptSplit(a, b[..m]);
      assert (a + b)[..|a + b| - 1] == a + b[..m] && (a + b)[|a + b| - 1] == b[m];
    }
  }

  lemma {:induction false} BlobsKeptKid(x: Context, kid: Kid, path: Path, st: PrepState)
    requires AdmissibleKid(x, kid, path) && Tracks(x.inodes, st.inodes) && PrepKid(x.c, kid, path, st).Prepared?
    ensures var p := PrepKid(x.c, kid, path, st); Blobs(StoreKids(x.inodes, p.left)) == Kept(FlatFm(p.fm))
    decreases kid.node, 1
  {
    match kid.node
    case File(ino) =>
      StoredFile(x, kid.name, ino, path, st);
      var p := PrepFile(x.c, kid.name, ino, path, st);
      assert [p.fm][..0] == [];
      if !p.fm.Unstored() { BlobsOne(GEntry(Escape(kid.name), StoreFile(x.inodes[ino]))); }
    case Dir(_, _, kids) =>
      StoredDir(x, kid, path, st);
      BlobsKept(x, kids, path, st);
      var es := StoreKids(x.inodes, PrepKids(x.c, kids, path, st).left);
      if es != [] { BlobsOne(GEntry(Escape(kid.name), Tree(es))); }
  }

  /** Git stores one blob for each file that the record does not restore alone. */
  lemma {:induction false} BlobsKept(x: Context, kids: seq<Kid>, path: Path, st: PrepState)
    requires AdmissibleKids(x, kids, path) && Tracks(x.inodes, st.inodes) && PrepKids(x.c, kids, path, st).PreparedKids?
    ensures var p := PrepKids(x.c, kids, path, st); Blobs(StoreKids(x.inodes, p.left)) == Kept(Flat(p.fms))
    decreases kids, 0
  {
    if kids != [] {
      var n := |kids| - 1;
      PrepSnoc(x, kids, path, st);
      AdmissibleInit(x, kids, path);
      PrepKidsOk(x, kids[..n], path, st);
      var p1 := PrepKids(x.c, kids[..n], path, st);
      var p2 := PrepKid(x.c, kids[n], path + [kids[n].name], p1.st);
      BlobsKept(x, kids[..n], path, st);
      BlobsKeptKid(x, kids[n], path + [kids[n].name], p1.st);
      StoreSplit(x.inodes, p1.left, p2.left);
      BlobsSplit(StoreKids(x.inodes, p1.left), StoreKids(x.inodes, p2.left));
      FlatSnoc(p1.fms, p2.fm);
      KeptSplit(Flat(p1.fms), FlatFm(p2.fm));
    }
  }

  // Two trees of which the same files are stored.

  ghost predicate SameStored(f: seq<Fm>, g: seq<Fm>) {
    |f| == |g| && forall j :: 0 <= j < |f| ==> (f[j].Unstored() <==> g[j].Unstored())
  }

  lemma SameStoredSplit(f1: seq<Fm>, f2: seq<Fm>, g1: seq<Fm>, g2: seq<Fm>)
    requires SameStored(f1 + f2, g1 + g2) && |f1| == |g1|
    ensures SameStored(f1, g1) && SameStored(f2, g2)
  {
    var f, g := f1 + f2, g1 + g2;
    assert forall j :: 0 <= j < |f1| ==> f[j] == f1[j] && g[j] == g1[j];
    assert forall j :: 0 <= j < |f2| ==> f[|f1| + j] == f2[j] && |f1| + j < |g| && g[|f1| + j] == g2[j];
  }

  /** Of `g` no more files are stored than of `f`. */
  ghost predicate FewerStored(f: seq<Fm>, g: seq<Fm>) {
    |f| == |g| && forall j :: 0 <= j < |f| ==> f[j].Unstored() ==> g[j].Unstored()
  }

  lemma {:induction false} KeptLess(f: seq<Fm>, g: seq<Fm>)
    requires FewerStored(f, g)
    ensures Kept(g) <= Kept(f) && (Kept(g) == Kept(f) ==> SameStored(f, g))
  {
    if f != [] {
      var n := |f| - 1;
      assert forall j :: 0 <= j < n ==> f[..n][j] == f[j] && g[..n][j] == g[j];
      KeptLess(f[..n], g[..n]);
    }
  }

  ghost predicate TwoWalks(x: Context, y: Context, s: PrepState, t: PrepState) {
    Tracks(x.inodes, s.inodes) && Tracks(y.inodes, t.inodes)
  }

  ghost predicate KidTwice(x: Context, a: Kid, y: Context, b: Kid, path: Path, s: PrepState, t: PrepState) {
    && AdmissibleKid(x, a, path) && AdmissibleKid(y, b, path) && SameKid(a, b) && TwoWalks(x, y, s, t)
    && SameFiles(x, LeavesKid(a, path), y, LeavesKid(b, path))
    && var p, q := PrepKid(x.c, a, path, s), PrepKid(y.c, b, path, t);
       p.Prepared? && q.Prepared? && SameStored(FlatFm(p.fm), FlatFm(q.fm)) && DirsOf(a, p.fm) && DirsOf(b, q.fm)
  }

  ghost predicate KidsTwice(x: Context, a: seq<Kid>, y: Context, b: seq<Kid>, path: Path, s: PrepState, t: PrepState) {
    && AdmissibleKids(x, a, path) && AdmissibleKids(y, b, path) && SameKids(a, b) && TwoWalks(x, y, s, t)
    && SameFiles(x, LeavesKids(a, path), y, LeavesKids(b, path))
    && var p, q := PrepKids(x.c, a, path, s), PrepKids(y.c, b, path, t);
       p.PreparedKids? && q.PreparedKids? && SameStored(Flat(p.fms), Flat(q.fms)) && DirsIn(a, p.fms) && DirsIn(b, q.fms)
  }

  lemma {:induction false} StoredAgainKid(x: Context, a: Kid, y: Context, b: Kid, path: Path, s: PrepState, t: PrepState)
    requires KidTwice(x, a, y, b, path, s, t)
    ensures StoreKids(x.inodes, PrepKid(x.c, a, path, s).left) == StoreKids(y.inodes, PrepKid(y.c, b, path, t).left)
    decreases a.node, 1
  {
    match a.node
    case File(ino) =>
      StoredFileAgain(x, a.name, ino, y, b.node.ino, path, s, t);
    case Dir(_, _, kids) =>
      StoredDir(x, a, path, s);
      StoredDir(y, b, path, t);
      assert KidsTwice(x, kids, y, b.node.kids, path, s, t);
      StoredAgain(x, kids, y, b.node.kids, path, s, t);
  }

  lemma StoredFileAgain(x: Context, name: Name, ino: nat, y: Context, other: nat, path: Path, s: PrepState, t: PrepState)
    requires KidTwice(x, Kid(name, File(ino)), y, Kid(name, File(other)), path, s, t)
    ensures StoreKids(x.inodes, PrepFile(x.c, name, ino, path, s).left) == StoreKids(y.inodes, PrepFile(y.c, name, other, path, t).left)
  {
    var p, q := PrepFile(x.c, name, ino, path, s), PrepFile(y.c, name, other, path, t);
    StoredFile(x, name, ino, path, s);
    StoredFile(y, name, other, path, t);
    assert FlatFm(p.fm)[0] == p.fm && FlatFm(q.fm)[0] == q.fm;
    assert LeavesKid(Kid(name, File(ino)), path)[0].ino == ino && LeavesKid(Kid(name, File(other)), path)[0].ino == other;
  }

  lemma {:induction false} StoredAgain(x: Context, a: seq<Kid>, y: Context, b: seq<Kid>, path: Path, s: PrepState, t: PrepState)
    requires KidsTwice(x, a, y, b, path, s, t)
    ensures StoreKids(x.inodes, PrepKids(x.c, a, path, s).left) == StoreKids(y.inodes, PrepKids(y.c, b, path, t).left)
    decreases a, 0
  {
    if a != [] {
      var n := |a| - 1;
      var own := path + [a[n].name];
      SnocTwice(x, a, y, b, path, s, t);
      var p1, q1 := PrepKids(x.c, a[..n], path, s), PrepKids(y.c, b[..n], path, t);
      StoredAgain(x, a[..n], y, b[..n], path, s, t);
      StoredAgainKid(x, a[n], y, b[n], own, p1.st, q1.st);
      PrepSnoc(x, a, path, s);
      PrepSnoc(y, b, path, t);
      StoreSplit(x.inodes, p1.left, PrepKid(x.c, a[n], own, p1.st).left);
      StoreSplit(y.inodes, q1.left, PrepKid(y.c, b[n], own, q1.st).left);
    }
  }

  lemma SnocTwice(x: Context, a: seq<Kid>, y: Context, b: seq<Kid>, path: Path, s: PrepState, t: PrepState)
    requires KidsTwice(x, a, y, b, path, s, t) && a != []
    ensures var n := |a| - 1;
            var p1, q1 := PrepKids(x.c, a[..n], path, s), PrepKids(y.c, b[..n], path, t);
            && KidsTwice(x, a[..n], y, b[..n], path, s, t)
            && KidTwice(x, a[n], y, b[n], path + [a[n].name], p1.st, q1.st)
  {
    var n := |a| - 1;
    assert SameKid(a[n], b[n]) && SameKids(a[..n], b[..n]);
    FilesTwice(x, a, y, b, path);
    LastTracked(x, a, path, s);
    LastTracked(y, b, path, t);
    var own := path + [a[n].name];
    var p1, q1 := PrepKids(x.c, a[..n], path, s), PrepKids(y.c, b[..n], path, t);
    var p2, q2 := PrepKid(x.c, a[n], own, p1.st), PrepKid(y.c, b[n], own, q1.st);
    DirsParts(a, p1.fms, p2.fm);
    DirsParts(b, q1.fms, q2.fm);
    SnocStored(a[..n], b[..n], path, p1.fms, p2.fm, q1.fms, q2.fm);
  }

  lemma FilesTwice(x: Context, a: seq<Kid>, y: Context, b: seq<Kid>, path: Path)
    requires a != [] && SameKids(a, b) && SameFiles(x, LeavesKids(a, path), y, LeavesKids(b, path))
    ensures var n := |a| - 1;
            var own := path + [a[n].name];
            && SameFiles(x, LeavesKids(a[..n], path), y, LeavesKids(b[..n], path))
            && SameFiles(x, LeavesKid(a[n], own), y, LeavesKid(b[n], own))
  {
    var n := |a| - 1;
    var own := path + [a[n].name];
    assert SameKid(a[n], b[n]) && SameKids(a[..n], b[..n]);
    SameLength(a[..n], b[..n], path);
    SameFilesSplit(x, LeavesKids(a[..n], path), LeavesKid(a[n], own), y, LeavesKids(b[..n], path), LeavesKid(b[n], own));
  }

  /** The last entry of a listing that has been prepared. */
  lemma LastTracked(x: Context, kids: seq<Kid>, path: Path, st: PrepState)
    requires kids != [] && AdmissibleKids(x, kids, path) && Tracks(x.inodes, st.inodes)
    requires PrepKids(x.c, kids, path, st).PreparedKids?
    ensures var n := |kids| - 1;
            var p1 := PrepKids(x.c, kids[..n], path, st);
            && AdmissibleKids(x, kids[..n], path) && AdmissibleKid(x, kids[n], path + [kids[n].name])
            && p1.PreparedKids? && |p1.fms| == n && Tracks(x.inodes, p1.st.inodes)
            && var p2 := PrepKid(x.c, kids[n], path + [kids[n].name], p1.st);
               p2.Prepared? && PrepKids(x.c, kids, path, st) == PreparedKids(p1.fms + [p2.fm], p1.left + p2.left, p2.st)
  {
    PrepSnoc(x, kids, path, st);
    AdmissibleInit(x, kids, path);
    PrepKidsOk(x, kids[..|kids| - 1], path, st);
  }

  lemma DirsParts(a: seq<Kid>, f: seq<Fm>, f': Fm)
    requires a != [] && |f| == |a| - 1 && DirsIn(a, f + [f'])
    ensures DirsIn(a[..|a| - 1], f) && DirsOf(a[|a| - 1], f')
  {
    var n, g := |a| - 1, f + [f'];
    assert DirsOf(a[n], g[n]);
    forall i | 0 <= i < n ensures DirsOf(a[..n][i], f[i]) { assert DirsOf(a[i], g[i]); }
  }

  lemma SnocStored(a: seq<Kid>, b: seq<Kid>, path: Path, f: seq<Fm>, f': Fm, g: seq<Fm>, g': Fm)
    requires SameKids(a, b) && DirsIn(a, f) && DirsIn(b, g) && SameStored(Flat(f + [f']), Flat(g + [g']))
    ensures SameStored(Flat(f), Flat(g)) && SameStored(FlatFm(f'), FlatFm(g'))
  {
    FlatSnoc(f, f');
    FlatSnoc(g, g');
    FlatLength(a, f, path);
    FlatLength(b, g, path);
    SameLength(a, b, path);
    SameStoredSplit(Flat(f), FlatFm(f'), Flat(g), FlatFm(g'));
  }

  lemma {:induction false} StoreSplit(inodes: map<nat, Inode>, a: seq<Kid>, b: seq<Kid>)
    ensures StoreKids(inodes, a + b) == StoreKids(inodes, a) + StoreKids(inodes, b)
    decreases |b|
  {
    if b == [] {
      assert a + b == a;
    } else {
      var m := |b| - 1;
      StoreSplit(inodes, a, b[..m]);
      assert (a + b)[..|a + b| - 1] == a + b[..m] && (a + b)[|a + b| - 1] == b[m];
    }
  }

  /** Preparing changes nothing that Git stores. */
  lemma {:induction false} StoreTracksKid(i0: map<nat, Inode>, i1: map<nat, Inode>, k: Kid)
    requires Tracks(i0, i1)
    ensures StoreKid(i0, k) == StoreKid(i1, k)
    decreases k.node, 1
  {
    match k.node
    case File(ino) => if ino in i0 { assert ChmodMin(i1[ino]).perm == ChmodMin(i0[ino]).perm; }
    case Dir(_, _, kids) => StoreTracks(i0, i1, kids);
  }

  lemma {:induction false} StoreTracks(i0: map<nat, Inode>, i1: map<nat, Inode>, kids: seq<Kid>)
    requires Tracks(i0, i1)
    ensures StoreKids(i0, kids) == StoreKids(i1, kids)
    decreases kids, 0
  {
    if kids != [] {
      StoreTracks(i0, i1, kids[..|kids| - 1]);
      StoreTracksKid(i0, i1, kids[|kids| - 1]);
    }
  }

  /** The last link to a large file, called git.pickle: it is no longer a link, and a file of
      that name is never large. */
  ghost predicate PickleLink(x: Context, v: seq<Leaf>, j: nat)
    requires Known(x, v) && j < |v|
  {
    LastLink(x, v, j) && x.inodes[v[j].ino].kind.Reg? && BaseName(v[j]) == PICKLE_NAME
  }

  lemma UnstoredAgain(x: Context, v: seq<Leaf>, y: Context, w: seq<Leaf>, j: nat)
    requires Redone(x, v, y, w) && j < |v|
    ensures RecordAt(y, w, j).Unstored() <==> RecordAt(x, v, j).Unstored() && !PickleLink(x, v, j)
  {
    RepAgain(x, v, y, w, j);
    RepOfRep(x, v, j);
    FirstIsRep(x, v, y, w, j);
    var f := Rep(x, v, j);
    assert Same(x.rc.quick, x.inodes[v[j].ino], y.inodes[w[j].ino]);
    assert Same(x.rc.quick, x.inodes[v[f].ino], y.inodes[w[f].ino]);
    SameRep(x, v, y, w, f, j);
  }

  /** The records of both walks, as far as they say what is stored. */
  lemma StoredExactly(x: Context, v: seq<Leaf>, y: Context, w: seq<Leaf>, f: seq<Fm>, g: seq<Fm>)
    requires Redone(x, v, y, w) && |f| == |g| == |v|
    requires forall j :: 0 <= j < |v| ==> f[j] == RecordAt(x, v, j) && g[j] == RecordAt(y, w, j)
    ensures FewerStored(g, f)
    ensures SameStored(f, g) <==> forall j :: 0 <= j < |v| ==> !PickleLink(x, v, j)
  {
    forall j | 0 <= j < |v| ensures g[j].Unstored() <==> f[j].Unstored() && !PickleLink(x, v, j) {
      UnstoredAgain(x, v, y, w, j);
    }
    forall j | 0 <= j < |v| && PickleLink(x, v, j) ensures f[j].Unstored() {
    }
  }

  /** What Git has is what is left, with the inodes from before preparing. */
  lemma CommittedIs(x: Context, kids: seq<Kid>)
    requires Admissible(x, kids) && Prepare(x, kids).PreparedKids?
    ensures Committed(x, kids) == StoreKids(x.inodes, Prepare(x, kids).left)
    ensures Blobs(Committed(x, kids)) == Kept(Flat(Prepare(x, kids).fms))
  {
    var s := PrepState(x.inodes, map[], x.store);
    PrepKidsOk(x, kids, [], s);
    StoreTracks(x.inodes, Prepare(x, kids).st.inodes, Prepare(x, kids).left);
    BlobsKept(x, kids, [], s);
  }

  /** A restored image that is prepared again gives Git the tree of its own commit, so that
      the work tree is clean and can be switched: if and only if no last link to a large file
      is called git.pickle. */
  lemma CommittedAgain(x: Context, kids: seq<Kid>, disk: seq<Kid>, rs: RestState, y: Context)
    requires Admissible(x, kids) && Next(x, kids, disk, rs, y)
    requires Prepare(y, Restore(x, kids, disk, rs).out).PreparedKids?
    ensures var v := LeavesKids(kids, []);
            && Known(x, v)
            && (Committed(y, Restore(x, kids, disk, rs).out) == Committed(x, kids) <==>
                  forall j :: 0 <= j < |v| ==> !PickleLink(x, v, j))
  {
    NextRedone(x, kids, disk, rs, y);
    NextAdmissible(x, kids, disk, rs, y);
    CommittedExactly(x, kids, y, Restore(x, kids, disk, rs).out);
  }

  lemma CommittedExactly(x: Context, kids: seq<Kid>, y: Context, out: seq<Kid>)
    requires Admissible(x, kids) && Admissible(y, out) && SameKids(kids, out)
    requires Redone(x, LeavesKids(kids, []), y, LeavesKids(out, []))
    requires Prepare(x, kids).PreparedKids? && Prepare(y, out).PreparedKids?
    ensures var v := LeavesKids(kids, []);
            Committed(y, out) == Committed(x, kids) <==> forall j :: 0 <= j < |v| ==> !PickleLink(x, v, j)
  {
    var v, w := LeavesKids(kids, []), LeavesKids(out, []);
    var f, g := Flat(Prepare(x, kids).fms), Flat(Prepare(y, out).fms);
    RecordIs(x, kids);
    RecordIs(y, out);
    CommittedIs(x, kids);
    CommittedIs(y, out);
    StoredExactly(x, v, y, w, f, g);
    KeptLess(g, f);
    if SameStored(f, g) {
      RestoredFiles(x, v, y, w);
      CommittedTwice(x, kids, y, out);
    }
  }

  lemma RestoredFiles(x: Context, v: seq<Leaf>, y: Context, w: seq<Leaf>)
    requires Redone(x, v, y, w)
    ensures SameFiles(x, v, y, w)
  {
    forall i | 0 <= i < |v| ensures SameFile(x, v[i], y, w[i]) {
      assert Same(x.rc.quick, x.inodes[v[i].ino], y.inodes[w[i].ino]);
    }
  }

  /** The same files, and the same of them stored: the same tree. */
  lemma CommittedTwice(x: Context, kids: seq<Kid>, y: Context, out: seq<Kid>)
    requires Admissible(x, kids) && Admissible(y, out) && SameKids(kids, out)
    requires SameFiles(x, LeavesKids(kids, []), y, LeavesKids(out, []))
    requires Prepare(x, kids).PreparedKids? && Prepare(y, out).PreparedKids?
    requires SameStored(Flat(Prepare(x, kids).fms), Flat(Prepare(y, out).fms))
    requires DirsIn(kids, Prepare(x, kids).fms) && DirsIn(out, Prepare(y, out).fms)
    ensures Committed(x, kids) == Committed(y, out)
  {
    CommittedIs(x, kids);
    CommittedIs(y, out);
    StoredAgain(x, kids, y, out, [], PrepState(x.inodes, map[], x.store), PrepState(y.inodes, map[], y.store));
  }

  /** Build after build: restore an image, prepare it again, switch the work tree from its
      commit to any other image and restore that in full. The result is the other image,
      and nothing of the first stays. */
  lemma RestoreThenSwitch(
      x: Context, kids: seq<Kid>, disk: seq<Kid>, rs: RestState, y: Context, x2: Context, kids2: seq<Kid>, g: GitConfig, next: nat)
    requires Admissible(x, kids) && Next(x, kids, disk, rs, y) && Commits(x2, kids2)
    requires forall n :: n in y.inodes ==> n < next
    ensures var v, q := LeavesKids(kids, []), Prepare(y, Restore(x, kids, disk, rs).out);
            && Known(x, v)
            && ((forall j :: 0 <= j < |v| ==> !BlockedLink(x, v, j) && !PickleLink(x, v, j)) ==>
                  && q.PreparedKids?
                  && Restores(x2, kids2, Switch(g, Committed(x, kids), Committed(x2, kids2), false, q.left, Inos(q.st.inodes, next))))
  {
    var v, out := LeavesKids(kids, []), Restore(x, kids, disk, rs).out;
    PreparesAgain(x, kids, disk, rs, y);
    if forall j :: 0 <= j < |v| ==> !BlockedLink(x, v, j) && !PickleLink(x, v, j) {
      CommittedAgain(x, kids, disk, rs, y);
      NextAdmissible(x, kids, disk, rs, y);
      SwitchRestores(y, out, x2, kids2, g, next);
    }
  }
}
