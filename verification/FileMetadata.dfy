/**
  File metadata of the build cache: preparing an image tree for Git and
  restoring it afterwards.

  Git stores only non-empty directories, regular files and symlinks, and of
  their metadata almost nothing. `git_prepare` therefore walks the tree, records
  what Git would lose and removes or renames what Git cannot store;
  `git_restore` walks the record in the same order and puts everything back.

  A tree is a value over a table of inodes, so hard links are two names for one
  inode number. Directory listings are in the order `sorted(listdir())` visits.
 */
module FileMetadata {

  type Name = string
  type Path = seq<Name>
  type Bytes = seq<bv8>

  /** Permission bits: the owner's three, and the other nine as a number. */
  datatype Perm = Perm(r: bool, w: bool, x: bool, rest: nat)

  datatype Option<T> = None | Some(value: T)

  datatype Kind = Reg(content: Bytes) | Lnk(target: string) | Fifo | Sock | Dev

  datatype Inode = Inode(kind: Kind, perm: Perm, mtime: int, nlink: nat)

  datatype Node = Dir(perm: Perm, mtime: int, kids: seq<Kid>) | File(ino: nat)

  datatype Kid = Kid(name: Name, node: Node)

  /** Large file names hash these four attributes. */
  datatype LargeName = LargeName(mtime: int, perm: Perm, size: nat, path: Path)

  type Store = map<LargeName, Inode>

  datatype FmKind = FDir | FReg | FLnk | FFifo | FSock | FDev

  /** A node of the File_Metadata tree. */
  datatype Fm = Fm(
    name: Name, kind: FmKind, perm: Perm, mtime: int, size: nat, children: seq<Fm>,
    dontRestore: bool, hardlinkTo: Option<Path>, largeName: Option<LargeName>)
  {
    predicate Unstored() { kind.FFifo? || kind.FSock? || largeName.Some? || hardlinkTo.Some? }

    predicate EmptyDir() {
      kind.FDir? && forall i :: 0 <= i < |children| ==> children[i].Unstored() || children[i].EmptyDir()
    }
  }

  datatype Error = DeviceFile | NoSuchFile | FileExists | NotEmpty | NotADirectory

  // ---------------------------------------------------------------------------
  // Names

  const GIT_DIR: Path := ["ch", "git"]
  const PICKLE_NAME: Name := "git.pickle"

  predicate GitCompatible(n: Name) { !(".git" <= n) }

  /** n.replace(".git", ".weirdal_") */
  function ReplaceGit(n: Name): Name {
    if n == "" then ""
    else if ".git" <= n then ".weirdal_" + ReplaceGit(n[4..])
    else [n[0]] + ReplaceGit(n[1..])
  }

  /** The name under which Git stores a file. */
  function Escape(n: Name): Name { if GitCompatible(n) then n else ReplaceGit(n) }

  lemma EscapeCompatible(n: Name)
    ensures GitCompatible(Escape(n))
  {
    if !GitCompatible(n) { assert Escape(n)[1] == 'w'; }
  }

  /** fnmatch of "var/lib/rpm/__db.*" */
  predicate RpmDb(p: Path) {
    |p| >= 4 && p[0] == "var" && p[1] == "lib" && p[2] == "rpm" && "__db." <= p[3]
  }

  /** p | 0o400 and p | 0o700 */
  function MinFilePerm(p: Perm): Perm { p.(r := true) }
  function MinDirPerm(p: Perm): Perm { p.(r := true, w := true, x := true) }

  /** chmod_min for anything but a directory. */
  function ChmodMin(i: Inode): Inode { if i.kind.Lnk? then i else i.(perm := MinFilePerm(i.perm)) }

  function KindOf(k: Kind): FmKind {
    match k case Reg(_) => FReg case Lnk(_) => FLnk case Fifo => FFifo case Sock => FSock case Dev => FDev
  }

  function Size(k: Kind): nat { if k.Reg? then |k.content| else 0 }

  // ---------------------------------------------------------------------------
  // git_prepare

  /** The large file threshold, and the time of day while preparing. */
  datatype PrepConfig = PrepConfig(threshold: nat, now: int)

  /** What the walk changes besides the tree: the inodes, the `hardlinks`
      dictionary and the large file store. */
  datatype PrepState = PrepState(inodes: map<nat, Inode>, hardlinks: map<nat, Path>, store: Store)

  /** The record, what is left on disk under the parent, and the new state. */
  datatype Prepared = PrepErr(error: Error) | Prepared(fm: Fm, left: seq<Kid>, st: PrepState)
  datatype PreparedKids = KidsErr(error: Error) | PreparedKids(fms: seq<Fm>, left: seq<Kid>, st: PrepState)

  /** Remove one name of a file. */
  function Unlink(st: PrepState, ino: nat): PrepState
    requires ino in st.inodes
  {
    var i := st.inodes[ino];
    st.(inodes := st.inodes[ino := i.(nlink := if i.nlink == 0 then 0 else i.nlink - 1)])
  }

  function LargeNameOf(i: Inode, path: Path): LargeName { LargeName(i.mtime, i.perm, Size(i.kind), path) }

  predicate IsLarge(c: PrepConfig, name: Name, i: Inode) {
    i.kind.Reg? && |i.kind.content| >= c.threshold && name != PICKLE_NAME
  }

  /** Large files go out of band, FIFOs go away, and names special to Git change. */
  function PrepStored(c: PrepConfig, fm: Fm, ino: nat, path: Path, st: PrepState): Prepared
    requires ino in st.inodes
  {
    var i := st.inodes[ino];
    if IsLarge(c, fm.name, i) then
      var ln := LargeNameOf(i, path);
      var st := if ln in st.store then Unlink(st, ino) else st.(store := st.store[ln := i]);
      // The file is gone, so renaming it for Git's benefit fails.
      if GitCompatible(fm.name) then Prepared(fm.(largeName := Some(ln)), [], st) else PrepErr(NoSuchFile)
    else if i.kind.Fifo? then Prepared(fm, [], Unlink(st, ino))
    else Prepared(fm, [Kid(Escape(fm.name), File(ino))], st)
  }

  /** Second and later links go away; `hardlinks` remembers the first. */
  function PrepLink(c: PrepConfig, fm: Fm, ino: nat, path: Path, st: PrepState): Prepared
    requires ino in st.inodes
  {
    if st.inodes[ino].nlink <= 1 then PrepStored(c, fm, ino, path, st)
    else if ino in st.hardlinks then
      Prepared(fm.(hardlinkTo := Some(st.hardlinks[ino])), [], Unlink(st, ino))
    else PrepStored(c, fm, ino, path, st.(hardlinks := st.hardlinks[ino := path]))
  }

  function PrepFile(c: PrepConfig, name: Name, ino: nat, path: Path, st: PrepState): Prepared {
    if ino !in st.inodes then PrepErr(NoSuchFile)
    else
      var i := st.inodes[ino];
      var fm := Fm(name, KindOf(i.kind), i.perm, i.mtime, Size(i.kind), [], false, None, None);
      if path == GIT_DIR then Prepared(fm.(dontRestore := true), [Kid(name, File(ino))], st)
      else
        var i := ChmodMin(i);
        var st := st.(inodes := st.inodes[ino := i]);
        var fm := fm.(perm := i.perm);
        if i.kind.Dev? then PrepErr(DeviceFile)
        else if i.kind.Sock? || RpmDb(path) then Prepared(fm.(dontRestore := true), [], Unlink(st, ino))
        else PrepLink(c, fm, ino, path, st)
  }

  function PrepKid(c: PrepConfig, kid: Kid, path: Path, st: PrepState): Prepared
    decreases kid.node, 1
  {
    match kid.node
    case File(ino) => PrepFile(c, kid.name, ino, path, st)
    case Dir(perm, mtime, kids) =>
      var fm0 := Fm(kid.name, FDir, perm, mtime, 0, [], false, None, None);
      if path == GIT_DIR then Prepared(fm0.(dontRestore := true), [kid], st)
      else
        match PrepKids(c, kids, path, st)
        case KidsErr(e) => PrepErr(e)
        case PreparedKids(fms, left, st) =>
          var fm := fm0.(perm := MinDirPerm(perm), children := fms);
          if fm.EmptyDir() then
            if left == [] then Prepared(fm, [], st) else PrepErr(NotEmpty)
          else
            var node := Dir(MinDirPerm(perm), if left == kids then mtime else c.now, left);
            Prepared(fm, [Kid(Escape(kid.name), node)], st)
  }

  /** The entries of a directory, in order. */
  function PrepKids(c: PrepConfig, kids: seq<Kid>, path: Path, st: PrepState): PreparedKids
    decreases kids, 0
  {
    if kids == [] then PreparedKids([], [], st)
    else
      var n := |kids| - 1;
      match PrepKids(c, kids[..n], path, st)
      case KidsErr(e) => KidsErr(e)
      case PreparedKids(fms, left, st) =>
        match PrepKid(c, kids[n], path + [kids[n].name], st)
        case PrepErr(e) => KidsErr(e)
        case Prepared(fm, more, st) => PreparedKids(fms + [fm], left + more, st)
  }

  // ---------------------------------------------------------------------------
  // git_restore

  /** The large file store, the time of day, the mode of new files and whether
      this follows a commit (quick) or a checkout (full). */
  datatype RestConfig = RestConfig(store: Store, now: int, perm: Perm, quick: bool)

  /** The inodes, the next free inode number, and the files restored so far by
      path, which is where link(2) finds its targets. */
  datatype RestState = RestState(inodes: map<nat, Inode>, next: nat, done: map<Path, nat>)

  /** What is now on disk at the record's path, the rest of the parent's listing
      that is still to be claimed, and the new state. */
  datatype Restored = RestErr(error: Error) | Restored(out: seq<Kid>, disk: seq<Kid>, rs: RestState)

  predicate Has(disk: seq<Kid>, n: Name) { exists i :: 0 <= i < |disk| && disk[i].name == n }

  function Get(disk: seq<Kid>, n: Name): Node
    requires Has(disk, n)
  {
    if disk[0].name == n then disk[0].node else Get(disk[1..], n)
  }

  function Without(disk: seq<Kid>, n: Name): seq<Kid> {
    if disk == [] then []
    else if disk[0].name == n then disk[1..]
    else [disk[0]] + Without(disk[1..], n)
  }

  /** Existence and name, the first half of a restore. */
  datatype Found = FoundErr(error: Error) | Missing | Found(node: Node, disk: seq<Kid>, rs: RestState)

  function NewFile(rs: RestState, i: Inode, disk: seq<Kid>): Found {
    Found(File(rs.next), disk, rs.(inodes := rs.inodes[rs.next := i], next := rs.next + 1))
  }

  function Locate(c: RestConfig, fm: Fm, disk: seq<Kid>, rs: RestState): Found {
    if fm.hardlinkTo.Some? then
      var t := fm.hardlinkTo.value;
      if t !in rs.done || rs.done[t] !in rs.inodes then FoundErr(NoSuchFile)
      else if Has(disk, fm.name) then FoundErr(FileExists)
      else
        var ino := rs.done[t];
        var i := rs.inodes[ino];
        Found(File(ino), disk, rs.(inodes := rs.inodes[ino := i.(nlink := i.nlink + 1)]))
    else if fm.largeName.Some? then
      if fm.largeName.value !in c.store then FoundErr(NoSuchFile)
      else NewFile(rs, c.store[fm.largeName.value].(nlink := 1), Without(disk, fm.name))
    else if fm.EmptyDir() then
      if Has(disk, fm.name) then FoundErr(FileExists) else Found(Dir(c.perm, c.now, []), disk, rs)
    else if fm.kind.FFifo? then
      if Has(disk, fm.name) then FoundErr(FileExists) else NewFile(rs, Inode(Fifo, c.perm, c.now, 1), disk)
    else if !GitCompatible(fm.name) then
      if !Has(disk, Escape(fm.name)) then FoundErr(NoSuchFile)
      else Found(Get(disk, Escape(fm.name)), Without(disk, Escape(fm.name)), rs)
    else if Has(disk, fm.name) then Found(Get(disk, fm.name), Without(disk, fm.name), rs)
    else Missing
  }

  /** Do times and mode have to be set again? */
  predicate SetsMetadata(c: RestConfig, fm: Fm) {
    (!c.quick || fm.hardlinkTo.Some? || fm.kind.FDir? || fm.kind.FFifo?) && !fm.kind.FLnk?
  }

  function RestoreKid(c: RestConfig, fm: Fm, path: Path, disk: seq<Kid>, rs: RestState): Restored
    decreases fm, 1
  {
    if fm.dontRestore || RpmDb(path) then Restored([], disk, rs)
    else
      match Locate(c, fm, disk, rs)
      case FoundErr(e) => RestErr(e)
      case Missing =>
        if fm.children != [] || SetsMetadata(c, fm) then RestErr(NoSuchFile) else Restored([], disk, rs)
      case Found(File(ino), disk, rs) =>
        if fm.children != [] then RestErr(NotADirectory)
        else if ino !in rs.inodes then RestErr(NoSuchFile)
        else
          var i := rs.inodes[ino];
          var i := if SetsMetadata(c, fm) then i.(perm := fm.perm, mtime := fm.mtime) else i;
          Restored([Kid(fm.name, File(ino))], disk,
                   rs.(inodes := rs.inodes[ino := i], done := rs.done[path := ino]))
      case Found(Dir(perm, mtime, kids), disk, rs) =>
        match RestoreKids(c, fm.children, path, kids, rs)
        case RestErr(e) => RestErr(e)
        case Restored(out, rest, rs) =>
          // Restoring the children has changed the directory's own times.
          var d := Dir(perm, if fm.children == [] then mtime else c.now, out + rest);
          var d := if SetsMetadata(c, fm) then Dir(fm.perm, fm.mtime, d.kids) else d;
          Restored([Kid(fm.name, d)], disk, rs)
  }

  function RestoreKids(c: RestConfig, fms: seq<Fm>, path: Path, disk: seq<Kid>, rs: RestState): Restored
    decreases fms, 0
  {
    if fms == [] then Restored([], disk, rs)
    else
      var n := |fms| - 1;
      match RestoreKids(c, fms[..n], path, disk, rs)
      case RestErr(e) => RestErr(e)
      case Restored(out, disk, rs) =>
        match RestoreKid(c, fms[n], path + [fms[n].name], disk, rs)
        case RestErr(e) => RestErr(e)
        case Restored(more, disk, rs) => Restored(out + more, disk, rs)
  }
}
