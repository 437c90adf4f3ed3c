/**
  The walks of `git_prepare` and `git_restore` as they run: one recursive method
  each, with a loop over the children, changing the inode table, the `hardlinks`
  dictionary and the large file store as they go. Each is proved to do what the
  functions of `FileMetadata` say, so the theorems of `RoundTrip` are about it.
 */
module Worktree {
  import opened FileMetadata

  datatype Walked = Stopped(error: Error) | Walked(fm: Fm, left: seq<Kid>)

  class Preparation {
    const c: PrepConfig
    var inodes: map<nat, Inode>
    var hardlinks: map<nat, Path>
    var store: Store

    function State(): PrepState
      reads this
    {
      PrepState(inodes, hardlinks, store)
    }

    constructor (c: PrepConfig, inodes: map<nat, Inode>, store: Store)
      ensures this.c == c && State() == PrepState(inodes, map[], store)
    {
      this.c, this.inodes, this.hardlinks, this.store := c, inodes, map[], store;
    }

    /** What the method left is what the function says. */
    ghost predicate Agrees(p: Prepared, w: Walked)
      reads this
    {
      match p
      case PrepErr(e) => w == Stopped(e)
      case Prepared(fm, left, st) => w == Walked(fm, left) && State() == st
    }

    method UnlinkName(ino: nat)
      requires ino in inodes
      modifies this
      ensures State() == Unlink(old(State()), ino)
    {
      var i := inodes[ino];
      inodes := inodes[ino := i.(nlink := if i.nlink == 0 then 0 else i.nlink - 1)];
    }

    /** Large files, FIFOs and names. */
    method PrepareStored(fm: Fm, ino: nat, path: Path) returns (w: Walked)
      requires ino in inodes
      modifies this
      ensures Agrees(PrepStored(c, fm, ino, path, old(State())), w)
    {
      var i := inodes[ino];
      if IsLarge(c, fm.name, i) {
        var ln := LargeNameOf(i, path);
        if ln in store { UnlinkName(ino); } else { store := store[ln := i]; }
        w := if GitCompatible(fm.name) then Walked(fm.(largeName := Some(ln)), []) else Stopped(NoSuchFile);
      } else if i.kind.Fifo? {
        UnlinkName(ino);
        w := Walked(fm, []);
      } else {
        w := Walked(fm, [Kid(Escape(fm.name), File(ino))]);
      }
    }

    method PrepareFile(name: Name, ino: nat, path: Path) returns (w: Walked)
      modifies this
      ensures Agrees(PrepFile(c, name, ino, path, old(State())), w)
    {
      if ino !in inodes { return Stopped(NoSuchFile); }
      var i := inodes[ino];
      var fm := Fm(name, KindOf(i.kind), i.perm, i.mtime, Size(i.kind), [], false, None, None);
      if path == GIT_DIR { return Walked(fm.(dontRestore := true), [Kid(name, File(ino))]); }
      i := ChmodMin(i);
      inodes := inodes[ino := i];
      fm := fm.(perm := i.perm);
      if i.kind.Dev? { return Stopped(DeviceFile); }
      if i.kind.Sock? || RpmDb(path) {
        UnlinkName(ino);
        return Walked(fm.(dontRestore := true), []);
      }
      if i.nlink > 1 {
        if ino in hardlinks {
          fm := fm.(hardlinkTo := Some(hardlinks[ino]));
          UnlinkName(ino);
          return Walked(fm, []);
        }
        hardlinks := hardlinks[ino := path];
      }
      w := PrepareStored(fm, ino, path);
    }

    /** git_prepare */
    method Prepare(kid: Kid, path: Path) returns (w: Walked)
      modifies this
      ensures Agrees(PrepKid(c, kid, path, old(State())), w)
      decreases kid.node
    {
      match kid.node {
        case File(ino) => w := PrepareFile(kid.name, ino, path);
        case Dir(perm, mtime, kids) =>
          var fm := Fm(kid.name, FDir, perm, mtime, 0, [], false, None, None);
          if path == GIT_DIR { return Walked(fm.(dontRestore := true), [kid]); }
          var fms, left := [], [];
          var k := 0;
          ghost var st := State();
          while k < |kids|
            invariant 0 <= k <= |kids|
            invariant PrepKids(c, kids[..k], path, st) == PreparedKids(fms, left, State())
          {
            assert kids[..k + 1][..k] == kids[..k];
            w := Prepare(kids[k], path + [kids[k].name]);
            if w.Stopped? {
              PrepStops(c, kids, path, st, k + 1);
              return;
            }
            fms, left := fms + [w.fm], left + w.left;
            k := k + 1;
          }
          assert kids[..|kids|] == kids;
          fm := fm.(perm := MinDirPerm(perm), children := fms);
          if fm.EmptyDir() {
            return if left == [] then Walked(fm, []) else Stopped(NotEmpty);
          }
          w := Walked(fm, [Kid(Escape(kid.name), Dir(MinDirPerm(perm), if left == kids then mtime else c.now, left))]);
      }
    }
  }

  /** A failure below ends the walk. */
  lemma {:induction false} PrepStops(c: PrepConfig, kids: seq<Kid>, path: Path, st: PrepState, k: nat)
    requires k <= |kids| && PrepKids(c, kids[..k], path, st).KidsErr?
    ensures PrepKids(c, kids, path, st) == PrepKids(c, kids[..k], path, st)
  {
    if k == |kids| {
      assert kids[..k] == kids;
    } else {
      var init := kids[..|kids| - 1];
      assert init[..k] == kids[..k];
      PrepStops(c, init, path, st, k);
    }
  }

  datatype Undone = Aborted(error: Error) | Undone(out: seq<Kid>, disk: seq<Kid>)

  class Restoration {
    const c: RestConfig
    var inodes: map<nat, Inode>
    var next: nat
    var done: map<Path, nat>

    function State(): RestState
      reads this
    {
      RestState(inodes, next, done)
    }

    constructor (c: RestConfig, inodes: map<nat, Inode>, next: nat)
      ensures this.c == c && State() == RestState(inodes, next, map[])
    {
      this.c, this.inodes, this.next, this.done := c, inodes, next, map[];
    }

    ghost predicate Agrees(p: Restored, u: Undone)
      reads this
    {
      match p
      case RestErr(e) => u == Aborted(e)
      case Restored(out, disk, rs) => u == Undone(out, disk) && State() == rs
    }

    /** The first half: existence and name. */
    method Make(fm: Fm, disk: seq<Kid>) returns (error: Option<Error>, node: Option<Node>, rest: seq<Kid>)
      modifies this
      ensures match Locate(c, fm, disk, old(State()))
              case FoundErr(e) => error == Some(e)
              case Missing => error.None? && node.None? && State() == old(State())
              case Found(n, d, rs) => error.None? && node == Some(n) && rest == d && State() == rs
    {
      error, node, rest := None, None, disk;
      if fm.hardlinkTo.Some? {
        var t := fm.hardlinkTo.value;
        if t !in done || done[t] !in inodes { return Some(NoSuchFile), None, disk; }
        if Has(disk, fm.name) { return Some(FileExists), None, disk; }
        var i := inodes[done[t]];
        inodes := inodes[done[t] := i.(nlink := i.nlink + 1)];
        node := Some(File(done[t]));
      } else if fm.largeName.Some? {
        if fm.largeName.value !in c.store { return Some(NoSuchFile), None, disk; }
        var ino := AddFile(c.store[fm.largeName.value].(nlink := 1));
        node, rest := Some(File(ino)), Without(disk, fm.name);
      } else if fm.EmptyDir() {
        if Has(disk, fm.name) { return Some(FileExists), None, disk; }
        node := Some(Dir(c.perm, c.now, []));
      } else if fm.kind.FFifo? {
        if Has(disk, fm.name) { return Some(FileExists), None, disk; }
        var ino := AddFile(Inode(Fifo, c.perm, c.now, 1));
        node := Some(File(ino));
      } else if !GitCompatible(fm.name) {
        if !Has(disk, Escape(fm.name)) { return Some(NoSuchFile), None, disk; }
        node, rest := Some(Get(disk, Escape(fm.name))), Without(disk, Escape(fm.name));
      } else if Has(disk, fm.name) {
        node, rest := Some(Get(disk, fm.name)), Without(disk, fm.name);
      }
    }

    method AddFile(i: Inode) returns (ino: nat)
      modifies this
      ensures ino == old(next) && State() == old(State()).(inodes := old(inodes)[ino := i], next := ino + 1)
    {
      ino := next;
      inodes, next := inodes[next := i], next + 1;
    }

    /** git_restore */
    method Restore(fm: Fm, path: Path, disk: seq<Kid>) returns (u: Undone)
      modifies this
      ensures Agrees(RestoreKid(c, fm, path, disk, old(State())), u)
      decreases fm
    {
      if fm.dontRestore || RpmDb(path) { return Undone([], disk); }
      var error, node, rest := Make(fm, disk);
      if error.Some? { return Aborted(error.value); }
      if node.None? {
        return if fm.children != [] || SetsMetadata(c, fm) then Aborted(NoSuchFile) else Undone([], disk);
      }
      match node.value {
        case File(ino) =>
          if fm.children != [] { return Aborted(NotADirectory); }
          if ino !in inodes { return Aborted(NoSuchFile); }
          if SetsMetadata(c, fm) {
            inodes := inodes[ino := inodes[ino].(perm := fm.perm, mtime := fm.mtime)];
          } else {
            assert inodes == inodes[ino := inodes[ino]];
          }
          done := done[path := ino];
          u := Undone([Kid(fm.name, File(ino))], rest);
        case Dir(perm, mtime, kids) =>
          var out, below := [], kids;
          var k := 0;
          ghost var rs := State();
          while k < |fm.children|
            invariant 0 <= k <= |fm.children|
            invariant RestoreKids(c, fm.children[..k], path, kids, rs) == Restored(out, below, State())
          {
            assert fm.children[..k + 1][..k] == fm.children[..k];
            u := Restore(fm.children[k], path + [fm.children[k].name], below);
            if u.Aborted? {
              RestoreStops(c, fm.children, path, kids, rs, k + 1);
              return;
            }
            out, below := out + u.out, u.disk;
            k := k + 1;
          }
          assert fm.children[..|fm.children|] == fm.children;
          var d := Dir(perm, if fm.children == [] then mtime else c.now, out + below);
          if SetsMetadata(c, fm) { d := Dir(fm.perm, fm.mtime, d.kids); }
          u := Undone([Kid(fm.name, d)], rest);
      }
    }
  }

  lemma {:induction false} RestoreStops(
      c: RestConfig, fms: seq<Fm>, path: Path, disk: seq<Kid>, rs: RestState, k: nat)
    requires k <= |fms| && RestoreKids(c, fms[..k], path, disk, rs).RestErr?
    ensures RestoreKids(c, fms, path, disk, rs) == RestoreKids(c, fms[..k], path, disk, rs)
  {
    if k == |fms| {
      assert fms[..k] == fms;
    } else {
      var init := fms[..|fms| - 1];
      assert init[..k] == fms[..k];
      RestoreStops(c, init, path, disk, rs, k);
    }
  }
}
