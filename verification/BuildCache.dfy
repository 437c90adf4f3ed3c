/**
  The build cache's repository: commits, branches, reflogs, work trees and the
  out-of-band store of large files, and the operations that ch-image performs on
  them. Git is the abstract state `Repo`; `EnabledCache` below changes it in place.

  Hashes number the commits in the order of their making. State IDs are the chain
  of inputs that the real ones digest, so they are equal just when the chains are.
 */
module BuildCache {

  type Hash = nat
  type Name = string
  type Files = nat
  type Vars = map<string, string>

  datatype Option<T> = None | Some(value: T)

  /** What an instruction works on: the image's files (abstract) and its metadata
      without the history. */
  datatype Core = Core(files: Files, vars: Vars)

  datatype Image = Image(core: Core, history: seq<string>)

  datatype Sid = Root | Chain(parent: Sid, input: string)

  datatype Commit = Commit(sid: Sid, image: Image, larges: set<string>, parent: Option<Hash>)

  /** Where a work tree's HEAD is. */
  datatype Head = OnReady | OnUnready | Detached

  /** An image directory: by itself, or a work tree of the cache with its own reflog. */
  datatype Dir = Bare(image: Image) | Linked(image: Image, head: Hash, on: Head, log: set<Hash>)

  /** `ready` and `unready` are the branches of an image, the latter being the one
      whose name ends in a number sign; `tags` are those of deleted images; `kept` is the
      reflog of the bare repository's HEAD. */
  datatype Repo = Repo(
    commits: map<Hash, Commit>, next: Hash,
    ready: map<Name, Hash>, unready: map<Name, Hash>, tags: map<Name, Hash>,
    kept: set<Hash>, readyLog: map<Name, set<Hash>>, unreadyLog: map<Name, set<Hash>>,
    dirs: map<Name, Dir>, store: set<string>)

  const EMPTY: Image := Image(Core(0, map[]), [])

  const FRESH: Repo := Repo(map[0 := Commit(Root, EMPTY, {}, None)], 1,
                            map[], map[], map[], {0}, map[], map[], map[], {})

  // ---------------------------------------------------------------------------
  // Reachability

  /** `a` is `h` or an ancestor of it. */
  predicate Anc(commits: map<Hash, Commit>, a: Hash, h: Hash) {
    a == h ||
    (h in commits && commits[h].parent.Some? && commits[h].parent.value < h &&
     Anc(commits, a, commits[h].parent.value))
  }

  /** What `git log --all --reflog` starts from. */
  predicate Tip(r: Repo, t: Hash) {
    t in r.kept || t in r.ready.Values || t in r.unready.Values || t in r.tags.Values ||
    (exists n :: n in r.readyLog && t in r.readyLog[n]) ||
    (exists n :: n in r.unreadyLog && t in r.unreadyLog[n]) ||
    (exists n :: n in r.dirs && DirTip(r.dirs[n], t))
  }

  predicate DirTip(d: Dir, t: Hash) { d.Linked? && (t == d.head || t in d.log) }

  predicate Findable(r: Repo, h: Hash) {
    h in r.commits && exists t :: t in r.commits && Tip(r, t) && Anc(r.commits, h, t)
  }

  lemma {:induction false} AncTrans(commits: map<Hash, Commit>, a: Hash, b: Hash, c: Hash)
    requires Anc(commits, a, b) && Anc(commits, b, c)
    ensures Anc(commits, a, c)
  {
    if b != c { AncTrans(commits, a, b, commits[c].parent.value); }
  }

  /** New commits do not change the ancestry of old ones. */
  lemma {:induction false} AncGrow(c0: map<Hash, Commit>, c1: map<Hash, Commit>, a: Hash, h: Hash)
    requires h in c0 && Rooted(c0)
    requires forall k :: k in c0 ==> k in c1 && c1[k] == c0[k]
    ensures Anc(c0, a, h) <==> Anc(c1, a, h)
  {
    assert CommitOk(c0, h);
    if a != h && c0[h].parent.Some? && c0[h].parent.value < h {
      AncGrow(c0, c1, a, c0[h].parent.value);
    }
  }

  // ---------------------------------------------------------------------------
  // The invariant

  predicate CommitOk(commits: map<Hash, Commit>, h: Hash)
    requires h in commits
  {
    match commits[h].parent
    case None => commits[h].sid == Root
    case Some(p) => p < h && p in commits && commits[h].sid.Chain? && commits[h].sid.parent == commits[p].sid
  }

  /** Every commit's parent is there and carries the parent state ID. */
  predicate Rooted(commits: map<Hash, Commit>) { forall h :: h in commits ==> CommitOk(commits, h) }

  predicate DirOk(r: Repo, n: Name)
    requires n in r.dirs
  {
    r.dirs[n].Linked? ==> r.dirs[n].head in r.commits && r.commits[r.dirs[n].head].image == r.dirs[n].image
  }

  predicate Inv(r: Repo) {
    && 0 in r.commits && r.commits[0].sid == Root && Rooted(r.commits)
    && (forall h :: h in r.commits ==> h < r.next && r.commits[h].larges <= r.store)
    && (forall n :: n in r.ready ==> r.ready[n] in r.commits)
    && (forall n :: n in r.unready ==> r.unready[n] in r.commits)
    && (forall n :: n in r.tags ==> r.tags[n] in r.commits)
    && (forall n :: n in r.dirs ==> DirOk(r, n))
  }

  /** Findability is closed under parents. */
  lemma ParentFindable(r: Repo, h: Hash)
    requires Inv(r) && Findable(r, h) && r.commits[h].parent.Some?
    ensures Findable(r, r.commits[h].parent.value)
    ensures r.commits[h].sid.Chain? && r.commits[r.commits[h].parent.value].sid == r.commits[h].sid.parent
  {
    var p := r.commits[h].parent.value;
    assert CommitOk(r.commits, h);
    var t :| t in r.commits && Tip(r, t) && Anc(r.commits, h, t);
    assert Anc(r.commits, p, h);
    AncTrans(r.commits, p, h, t);
  }

  // ---------------------------------------------------------------------------
  // Looking for a state

  /** git log --grep on one branch. */
  function FindIn(commits: map<Hash, Commit>, sid: Sid, tip: Hash): Option<Hash> {
    if tip !in commits then None
    else if commits[tip].sid == sid then Some(tip)
    else if commits[tip].parent.Some? && commits[tip].parent.value < tip
    then FindIn(commits, sid, commits[tip].parent.value)
    else None
  }

  /** The same with --all --reflog: the youngest of the commits below `n`. */
  function FindAll(r: Repo, sid: Sid, n: nat): Option<Hash> {
    if n == 0 then None
    else if Findable(r, n - 1) && r.commits[n - 1].sid == sid then Some(n - 1)
    else FindAll(r, sid, n - 1)
  }

  /** find_sid: first the branch, then everywhere. */
  function FindSid(r: Repo, sid: Sid, image: Name): Option<Hash> {
    var here := if image in r.ready then FindIn(r.commits, sid, r.ready[image]) else None;
    if here.Some? then here else FindAll(r, sid, r.next)
  }

  lemma {:induction false} FindInSound(r: Repo, sid: Sid, tip: Hash, t: Hash)
    requires FindIn(r.commits, sid, tip).Some? && Anc(r.commits, tip, t) && t in r.commits && Tip(r, t)
    ensures Findable(r, FindIn(r.commits, sid, tip).value)
    ensures r.commits[FindIn(r.commits, sid, tip).value].sid == sid
  {
    if r.commits[tip].sid != sid {
      var p := r.commits[tip].parent.value;
      assert Anc(r.commits, p, tip);
      AncTrans(r.commits, p, tip, t);
      FindInSound(r, sid, p, t);
    }
  }

  lemma {:induction false} FindAllExact(r: Repo, sid: Sid, n: nat)
    ensures var f := FindAll(r, sid, n);
            && (f.Some? ==> Findable(r, f.value) && r.commits[f.value].sid == sid)
            && (f.None? ==> forall h :: 0 <= h < n && Findable(r, h) ==> r.commits[h].sid != sid)
  {
    if n > 0 { FindAllExact(r, sid, n - 1); }
  }

  /** A commit with the state, at or below the tip of the image's branch. */
  predicate BranchHas(r: Repo, sid: Sid, image: Name, h: Hash) {
    h in r.commits && r.commits[h].sid == sid && image in r.ready && Anc(r.commits, h, r.ready[image])
  }

  /** If the branch has the state, the answer is a commit of the branch, and the branch's
      other commits with the state are below it; otherwise it is the youngest commit with
      the state that can be found at all. */
  ghost predicate FoundFirst(r: Repo, sid: Sid, image: Name, f: Option<Hash>) {
    if exists h: Hash :: BranchHas(r, sid, image, h) then
      && f.Some? && BranchHas(r, sid, image, f.value)
      && forall h: Hash :: BranchHas(r, sid, image, h) ==> h <= f.value && Anc(r.commits, h, f.value)
    else if exists h: Hash :: Anywhere(r, sid, h) then
      f.Some? && Anywhere(r, sid, f.value) && forall h: Hash :: Anywhere(r, sid, h) ==> h <= f.value
    else f.None?
  }

  predicate Anywhere(r: Repo, sid: Sid, h: Hash) { Findable(r, h) && r.commits[h].sid == sid }

  lemma {:induction false} AncOlder(commits: map<Hash, Commit>, a: Hash, h: Hash)
    requires Anc(commits, a, h)
    ensures a <= h
  {
    if a != h { AncOlder(commits, a, commits[h].parent.value); }
  }

  /** On a branch: the first commit with the state on the way down. */
  lemma {:induction false} FindInFirst(commits: map<Hash, Commit>, sid: Sid, tip: Hash, h: Hash)
    requires Rooted(commits) && tip in commits && h in commits && commits[h].sid == sid && Anc(commits, h, tip)
    ensures var f := FindIn(commits, sid, tip); f.Some? && h <= f.value && Anc(commits, h, f.value)
  {
    assert CommitOk(commits, tip);
    if commits[tip].sid == sid {
      AncOlder(commits, h, tip);
    } else {
      FindInFirst(commits, sid, commits[tip].parent.value, h);
    }
  }

  lemma {:induction false} FindInBelow(commits: map<Hash, Commit>, sid: Sid, tip: Hash)
    requires FindIn(commits, sid, tip).Some?
    ensures var f := FindIn(commits, sid, tip).value; f in commits && commits[f].sid == sid && Anc(commits, f, tip)
  {
    if commits[tip].sid != sid { FindInBelow(commits, sid, commits[tip].parent.value); }
  }

  lemma {:induction false} FindAllYoungest(r: Repo, sid: Sid, n: nat, h: Hash)
    requires h < n && Findable(r, h) && r.commits[h].sid == sid
    ensures var f := FindAll(r, sid, n); f.Some? && h <= f.value
  {
    if h < n - 1 && !(Findable(r, n - 1) && r.commits[n - 1].sid == sid) { FindAllYoungest(r, sid, n - 1, h); }
  }

  lemma FindBranch(r: Repo, sid: Sid, image: Name, h: Hash)
    requires Inv(r) && BranchHas(r, sid, image, h)
    ensures var f := FindSid(r, sid, image);
            f.Some? && BranchHas(r, sid, image, f.value) && h <= f.value && Anc(r.commits, h, f.value)
  {
    FindInFirst(r.commits, sid, r.ready[image], h);
    FindInBelow(r.commits, sid, r.ready[image]);
  }

  lemma FindElsewhere(r: Repo, sid: Sid, image: Name, h: Hash)
    requires Inv(r) && (forall g: Hash :: !BranchHas(r, sid, image, g)) && Anywhere(r, sid, h)
    ensures var f := FindSid(r, sid, image); f.Some? && h <= f.value
  {
    if image in r.ready && FindIn(r.commits, sid, r.ready[image]).Some? {
      FindInBelow(r.commits, sid, r.ready[image]);
      assert BranchHas(r, sid, image, FindIn(r.commits, sid, r.ready[image]).value);
    }
    FindAllYoungest(r, sid, r.next, h);
  }

  /** find_sid finds a findable commit with the state ID, and fails only when there is
      none; the branch comes first. */
  lemma FindSidExact(r: Repo, sid: Sid, image: Name)
    requires Inv(r)
    ensures var f := FindSid(r, sid, image);
            && (f.Some? ==> Findable(r, f.value) && r.commits[f.value].sid == sid)
            && (f.None? ==> forall h :: Findable(r, h) ==> r.commits[h].sid != sid)
    ensures FoundFirst(r, sid, image, FindSid(r, sid, image))
  {
    FindAllExact(r, sid, r.next);
    if image in r.ready && FindIn(r.commits, sid, r.ready[image]).Some? {
      assert Tip(r, r.ready[image]);
      FindInSound(r, sid, r.ready[image], r.ready[image]);
    }
    FindSidFirst(r, sid, image);
  }

  lemma FindSidFirst(r: Repo, sid: Sid, image: Name)
    requires Inv(r)
    requires var f := FindSid(r, sid, image); f.Some? ==> Anywhere(r, sid, f.value)
    ensures FoundFirst(r, sid, image, FindSid(r, sid, image))
  {
    var f := FindSid(r, sid, image);
    if exists h: Hash :: BranchHas(r, sid, image, h) {
      forall h: Hash | BranchHas(r, sid, image, h)
        ensures f.Some? && BranchHas(r, sid, image, f.value) && h <= f.value && Anc(r.commits, h, f.value)
      {
        FindBranch(r, sid, image, h);
      }
    } else {
      forall h: Hash | Anywhere(r, sid, h) ensures f.Some? && h <= f.value { FindElsewhere(r, sid, image, h); }
    }
  }

  // ---------------------------------------------------------------------------
  // Operations

  function LogOf(logs: map<Name, set<Hash>>, n: Name): set<Hash> { if n in logs then logs[n] else {} }

  /** A reflog entry has the old value and the new one; here is the old one. */
  function Was(refs: map<Name, Hash>, n: Name): set<Hash> { if n in refs then {refs[n]} else {} }

  function ImageAt(r: Repo, h: Hash): Image { if h in r.commits then r.commits[h].image else EMPTY }

  /** The work tree of `n` is already at `h`. */
  predicate CheckedOut(r: Repo, n: Name, h: Hash) {
    n in r.dirs && r.dirs[n].Linked? && r.dirs[n].head == h
  }

  /** The work tree's reflog, with where HEAD is now. */
  function HeadLog(r: Repo, n: Name): set<Hash> {
    if n in r.dirs && r.dirs[n].Linked? then r.dirs[n].log + {r.dirs[n].head} else {}
  }

  function NewDir(r: Repo, n: Name, h: Hash): Dir {
    if CheckedOut(r, n, h) then r.dirs[n].(image := ImageAt(r, h))
    else Linked(ImageAt(r, h), h, OnUnready, HeadLog(r, n) + {h})
  }

  /** worktree_add and a full restore: when the work tree is at `h` already, HEAD
      stays on the branch where it is. */
  function Checkout(r: Repo, n: Name, h: Hash): Repo {
    (if CheckedOut(r, n, h) then r else MoveUnready(r, n, h)).(dirs := r.dirs[n := NewDir(r, n, h)])
  }

  function MoveUnready(r: Repo, n: Name, h: Hash): Repo {
    r.(unready := r.unready[n := h], unreadyLog := r.unreadyLog[n := LogOf(r.unreadyLog, n) + Was(r.unready, n) + {h}])
  }

  function MoveReady(r: Repo, n: Name, h: Hash): Repo {
    r.(ready := r.ready[n := h], readyLog := r.readyLog[n := LogOf(r.readyLog, n) + Was(r.ready, n) + {h}])
  }

  /** git commit in a work tree, after the image there became `image`: the branch
      that HEAD is on follows. Large files go to the store. */
  function CommitTo(r: Repo, n: Name, sid: Sid, image: Image, larges: set<string>): Repo
    requires n in r.dirs && r.dirs[n].Linked?
  {
    var d, h := r.dirs[n], r.next;
    Repo(r.commits[h := Commit(sid, image, larges, Some(d.head))], h + 1,
         if d.on.OnReady? then r.ready[n := h] else r.ready,
         if d.on.OnUnready? then r.unready[n := h] else r.unready,
         r.tags, r.kept,
         if d.on.OnReady? then r.readyLog[n := LogOf(r.readyLog, n) + Was(r.ready, n) + {h}] else r.readyLog,
         if d.on.OnUnready? then r.unreadyLog[n := LogOf(r.unreadyLog, n) + Was(r.unready, n) + {h}] else r.unreadyLog,
         r.dirs[n := Linked(image, h, d.on, d.log + {d.head} + {h})],
         r.store + larges)
  }

  /** Branch deletion for the branch that is not ready: the tip goes to HEAD's reflog, the
      branch's own reflog goes. */
  function DeleteUnready(r: Repo, n: Name): Repo {
    if n in r.unready
    then r.(kept := r.kept + {r.unready[n]}, unready := r.unready - {n}, unreadyLog := r.unreadyLog - {n})
    else r
  }

  function DeleteReady(r: Repo, n: Name): Repo {
    if n in r.ready
    then r.(kept := r.kept + {r.ready[n]}, ready := r.ready - {n}, readyLog := r.readyLog - {n})
    else r
  }

  /** branch_delete of a ready branch. */
  function BranchDelete(r: Repo, n: Name): Repo {
    if n in r.ready
    then DeleteUnready(DeleteReady(r.(tags := r.tags[n := r.ready[n]]), n), n)
    else r
  }

  /** ready(). */
  function Ready(r: Repo, n: Name): Repo
    requires n in r.dirs && r.dirs[n].Linked?
  {
    var d := r.dirs[n];
    var r1 := r.(tags := r.tags - {n}, dirs := r.dirs[n := d.(on := OnReady, log := d.log + {d.head})]);
    DeleteUnready(MoveReady(r1, n, d.head), n)
  }

  /** ch-image delete, for one existing image: the directory and its work tree go. */
  function Delete(r: Repo, n: Name): Repo { BranchDelete(r.(dirs := r.dirs - {n}), n) }

  /** ch-image undelete; None is a fatal error. */
  function Undelete(r: Repo, n: Name): Option<Repo> {
    if n in r.dirs || n !in r.tags then None else Some(Ready(Checkout(r, n, r.tags[n]), n))
  }

  /** rollback(): the work tree is reset to its HEAD, as `GitTree.RollbackRestores` proves for
      image trees. Preparing the partial image has put its large files into the store. */
  function Rollback(r: Repo, n: Name, larges: set<string>): Repo
    requires n in r.dirs && r.dirs[n].Linked?
  {
    r.(dirs := r.dirs[n := r.dirs[n].(image := ImageAt(r, r.dirs[n].head))], store := r.store + larges)
  }

  // ---------------------------------------------------------------------------
  // The operations keep the invariant

  /** What a checkout changes: one directory and perhaps the unready branch. */
  lemma CheckoutAt(r: Repo, n: Name, h: Hash)
    ensures var s := Checkout(r, n, h);
            && s.commits == r.commits && s.next == r.next && s.store == r.store
            && s.ready == r.ready && s.tags == r.tags && s.kept == r.kept
            && (s.unready == r.unready || s.unready == r.unready[n := h])
            && s.dirs == r.dirs[n := NewDir(r, n, h)]
  {
  }

  /** A work tree that is at the commit stays on its branch and no branch moves; any other
      gets the unready branch, which is then at the commit. The image is the commit's. */
  lemma CheckoutHead(r: Repo, n: Name, h: Hash)
    requires h in r.commits
    ensures var s := Checkout(r, n, h);
            && n in s.dirs && s.dirs[n].Linked? && s.dirs[n].head == h && s.dirs[n].image == r.commits[h].image
            && if n in r.dirs && r.dirs[n].Linked? && r.dirs[n].head == h
               then s.dirs[n].on == r.dirs[n].on && s.unready == r.unready
               else s.dirs[n].on == OnUnready && s.unready == r.unready[n := h]
    ensures forall m :: m != n ==>
              (m in Checkout(r, n, h).dirs <==> m in r.dirs) && (m in r.dirs ==> Checkout(r, n, h).dirs[m] == r.dirs[m])
  {
    CheckoutAt(r, n, h);
  }

  lemma CheckoutInv(r: Repo, n: Name, h: Hash)
    requires Inv(r) && h in r.commits
    ensures Inv(Checkout(r, n, h))
  {
    CheckoutAt(r, n, h);
    SameCommitsInv(r, Checkout(r, n, h), n, h);
  }

  lemma SameCommitsInv(r: Repo, s: Repo, n: Name, h: Hash)
    requires Inv(r) && h in r.commits && s.commits == r.commits && s.next == r.next && s.store == r.store
    requires s.ready == r.ready && s.tags == r.tags && (s.unready == r.unready || s.unready == r.unready[n := h])
    requires s.dirs == r.dirs[n := NewDir(r, n, h)]
    ensures Inv(s)
  {
    forall m | m in s.dirs ensures DirOk(s, m) { if m != n { assert DirOk(r, m); } }
  }

  lemma CommitAt(r: Repo, n: Name, sid: Sid, image: Image, larges: set<string>)
    requires n in r.dirs && r.dirs[n].Linked?
    ensures Committed(r, n, Commit(sid, image, larges, Some(r.dirs[n].head)), CommitTo(r, n, sid, image, larges))
  {
  }

  /** The branch of `n` stays, or moves to `h` and its reflog has the old and the new value. */
  ghost predicate BranchFollows(b0: map<Name, Hash>, l0: map<Name, set<Hash>>, b1: map<Name, Hash>, l1: map<Name, set<Hash>>, n: Name, h: Hash) {
    || (b1 == b0 && l1 == l0)
    || (b1 == b0[n := h] && l1 == l0[n := LogOf(l0, n) + Was(b0, n) + {h}])
  }

  /** `s` is `r` with one commit more, made in the work tree of `n`. */
  ghost predicate Committed(r: Repo, n: Name, c: Commit, s: Repo) {
    && n in r.dirs && r.dirs[n].Linked?
    && s.commits == r.commits[r.next := c] && s.next == r.next + 1
    && BranchFollows(r.ready, r.readyLog, s.ready, s.readyLog, n, r.next)
    && BranchFollows(r.unready, r.unreadyLog, s.unready, s.unreadyLog, n, r.next)
    && s.tags == r.tags && s.kept == r.kept
    && s.dirs == r.dirs[n := Linked(c.image, r.next, r.dirs[n].on, r.dirs[n].log + {r.dirs[n].head} + {r.next})]
    && s.store == r.store + c.larges
  }

  lemma CommitInv(r: Repo, n: Name, c: Commit, s: Repo)
    requires Inv(r) && Committed(r, n, c, s)
    requires c.sid.Chain? && c.sid.parent == r.commits[r.dirs[n].head].sid && c.parent == Some(r.dirs[n].head)
    ensures Inv(s)
  {
    assert DirOk(r, n);
    forall h | h in s.commits ensures CommitOk(s.commits, h) {
      if h in r.commits { assert CommitOk(r.commits, h); }
    }
    forall m | m in s.dirs ensures DirOk(s, m) { if m != n { assert DirOk(r, m); } }
  }

  /** What ready() changes. */
  ghost predicate Readied(r: Repo, n: Name, s: Repo) {
    && n in r.dirs && r.dirs[n].Linked?
    && s.commits == r.commits && s.next == r.next && s.store == r.store
    && s.ready == r.ready[n := r.dirs[n].head] && s.tags == r.tags - {n}
    && (s.unready == r.unready || s.unready == r.unready - {n})
    && s.dirs == r.dirs[n := Linked(r.dirs[n].image, r.dirs[n].head, OnReady, r.dirs[n].log + {r.dirs[n].head})]
  }

  lemma ReadyAt(r: Repo, n: Name)
    requires n in r.dirs && r.dirs[n].Linked?
    ensures Readied(r, n, Ready(r, n))
  {
  }

  lemma ReadyInv(r: Repo, n: Name, s: Repo)
    requires Inv(r) && Readied(r, n, s)
    ensures Inv(s)
  {
    assert DirOk(r, n);
    forall m | m in s.dirs ensures DirOk(s, m) { assert DirOk(r, m); }
  }

  /** What deleting an image changes. */
  ghost predicate Deleted(r: Repo, n: Name, s: Repo) {
    && s.commits == r.commits && s.next == r.next && s.store == r.store
    && s.ready == r.ready - {n} && (s.unready == r.unready || s.unready == r.unready - {n})
    && s.tags == (if n in r.ready then r.tags[n := r.ready[n]] else r.tags)
    && s.dirs == r.dirs - {n}
  }

  lemma DeleteAt(r: Repo, n: Name)
    ensures Deleted(r, n, Delete(r, n))
  {
    if n !in r.ready { assert r.ready - {n} == r.ready; }
  }

  lemma DeleteInv(r: Repo, n: Name, s: Repo)
    requires Inv(r) && Deleted(r, n, s)
    ensures Inv(s)
  {
    forall m | m in s.dirs ensures DirOk(s, m) { assert DirOk(r, m); }
  }

  lemma UndeleteInv(r: Repo, n: Name)
    requires Inv(r) && Undelete(r, n).Some?
    ensures Inv(Undelete(r, n).value)
  {
    CheckoutInv(r, n, r.tags[n]);
    ReadyAt(Checkout(r, n, r.tags[n]), n);
    ReadyInv(Checkout(r, n, r.tags[n]), n, Undelete(r, n).value);
  }

  // ---------------------------------------------------------------------------
  // Deleting and undeleting

  /** Neither the unready branch nor the tag of an image outlives ready(). */
  lemma ReadyCleans(r: Repo, n: Name)
    requires n in r.dirs && r.dirs[n].Linked?
    ensures var s := Ready(r, n);
            n !in s.unready && n !in s.tags && n in s.ready && s.ready[n] == r.dirs[n].head
  {
  }

  /** What undelete leaves when it does something. */
  lemma UndeleteAt(r: Repo, n: Name)
    requires n !in r.dirs && n in r.tags
    ensures var u := Undelete(r, n);
            && u.Some? && u.value.ready == r.ready[n := r.tags[n]] && u.value.tags == r.tags - {n}
            && n !in u.value.unready && u.value.commits == r.commits && u.value.store == r.store
            && n in u.value.dirs && u.value.dirs[n].Linked?
            && u.value.dirs[n].head == r.tags[n] && u.value.dirs[n].image == ImageAt(r, r.tags[n])
  {
    var h := r.tags[n];
    var c := Checkout(r, n, h);
    assert c.dirs[n] == Linked(ImageAt(r, h), h, OnUnready, {h});
    assert c.unready[n] == h;
  }

  /** delete and then undelete gives the image back at the same commit. */
  lemma DeleteUndelete(r: Repo, n: Name)
    requires Inv(r) && n in r.dirs && n in r.ready
    ensures var u := Undelete(Delete(r, n), n);
            && u.Some? && u.value.ready == r.ready
            && n in u.value.dirs && u.value.dirs[n].Linked?
            && u.value.dirs[n].head == r.ready[n] && u.value.dirs[n].image == r.commits[r.ready[n]].image
            && u.value.tags == r.tags - {n} && n !in u.value.unready
            && u.value.commits == r.commits && u.value.store == r.store
  {
    DeleteAt(r, n);
    UndeleteDeleted(r, Delete(r, n), n);
  }

  lemma PutBack(m: map<Name, Hash>, n: Name, h: Hash)
    requires n in m && m[n] == h
    ensures (m - {n})[n := h] == m
  {
  }

  lemma TakeOut(m: map<Name, Hash>, n: Name, h: Hash)
    ensures m[n := h] - {n} == m - {n}
  {
  }

  lemma UndeleteDeleted(r: Repo, s: Repo, n: Name)
    requires Inv(r) && n in r.ready
    requires s.ready == r.ready - {n} && s.tags == r.tags[n := r.ready[n]] && s.dirs == r.dirs - {n}
    requires s.commits == r.commits && s.store == r.store
    ensures var u := Undelete(s, n);
            && u.Some? && u.value.ready == r.ready
            && n in u.value.dirs && u.value.dirs[n].Linked?
            && u.value.dirs[n].head == r.ready[n] && u.value.dirs[n].image == r.commits[r.ready[n]].image
            && u.value.tags == r.tags - {n} && n !in u.value.unready
            && u.value.commits == r.commits && u.value.store == r.store
  {
    UndeleteAt(s, n);
    PutBack(r.ready, n, r.ready[n]);
    TakeOut(r.tags, n, r.ready[n]);
  }

  /** The tips that branch_delete does not touch: not the two branches' own reflogs
      and not the tag that it overwrites. */
  predicate Survives(r: Repo, n: Name, t: Hash) {
    t in r.kept || t in r.ready.Values || t in r.unready.Values ||
    (exists m :: m in r.tags && m != n && t == r.tags[m]) ||
    (exists m :: m in r.readyLog && m != n && t in r.readyLog[m]) ||
    (exists m :: m in r.unreadyLog && (m != n || n !in r.unready) && t in r.unreadyLog[m]) ||
    (exists m :: m in r.dirs && DirTip(r.dirs[m], t))
  }

  /** What deleting a ready branch changes. */
  ghost predicate BranchGone(r: Repo, n: Name, s: Repo) {
    && n in r.ready && s.commits == r.commits && s.dirs == r.dirs
    && s.ready == r.ready - {n} && s.tags == r.tags[n := r.ready[n]] && s.readyLog == r.readyLog - {n}
    && s.unready == r.unready - {n}
    && s.unreadyLog == (if n in r.unready then r.unreadyLog - {n} else r.unreadyLog)
    && s.kept == r.kept + {r.ready[n]} + (if n in r.unready then {r.unready[n]} else {})
  }

  lemma BranchDeleteAt(r: Repo, n: Name)
    requires n in r.ready
    ensures BranchGone(r, n, BranchDelete(r, n))
  {
    if n !in r.unready { assert r.unready - {n} == r.unready; }
  }

  lemma TipsSurvive(r: Repo, n: Name, s: Repo, t: Hash)
    requires BranchGone(r, n, s) && Tip(s, t)
    ensures Survives(r, n, t)
  {
    if t in s.ready.Values { var m :| m in s.ready && s.ready[m] == t; assert r.ready[m] == t; }
    if t in s.unready.Values { var m :| m in s.unready && s.unready[m] == t; assert r.unready[m] == t; }
    if t in s.tags.Values { var m :| m in s.tags && s.tags[m] == t; assert m == n ==> t == r.ready[n]; }
  }

  lemma SurvivorsStay(r: Repo, n: Name, s: Repo, t: Hash)
    requires BranchGone(r, n, s) && Survives(r, n, t)
    ensures Tip(s, t)
  {
    if t in r.ready.Values { var m :| m in r.ready && r.ready[m] == t; assert m != n ==> s.ready[m] == t; }
    if t in r.unready.Values { var m :| m in r.unready && r.unready[m] == t; assert m != n ==> s.unready[m] == t; }
    if m :| m in r.tags && m != n && t == r.tags[m] { assert s.tags[m] == t; }
    if m :| m in r.readyLog && m != n && t in r.readyLog[m] { assert t in s.readyLog[m]; }
    if m :| m in r.unreadyLog && (m != n || n !in r.unready) && t in r.unreadyLog[m] { assert t in s.unreadyLog[m]; }
  }

  /** Exactly which commits stay findable when a branch is deleted. In particular
      those of every branch do: what is lost was only in the deleted branches' own
      reflogs or under the older tag of that name. */
  lemma DeleteFindable(r: Repo, n: Name, h: Hash)
    requires n in r.ready
    ensures Findable(BranchDelete(r, n), h) <==>
            h in r.commits && exists t :: t in r.commits && Survives(r, n, t) && Anc(r.commits, h, t)
  {
    var s := BranchDelete(r, n);
    BranchDeleteAt(r, n);
    if Findable(s, h) {
      var t :| t in s.commits && Tip(s, t) && Anc(s.commits, h, t);
      TipsSurvive(r, n, s, t);
    }
    if t :| t in r.commits && Survives(r, n, t) && Anc(r.commits, h, t) { SurvivorsStay(r, n, s, t); }
  }

  /** Something that refers to a commit by name: a branch, another image's tag, the HEAD
      of another image's work tree, or the bare repository's HEAD, now or earlier. */
  predicate Named(r: Repo, n: Name, t: Hash) {
    t in r.kept || t in r.ready.Values || t in r.unready.Values ||
    (exists m :: m in r.tags && m != n && t == r.tags[m]) ||
    (exists m :: m in r.dirs && m != n && r.dirs[m].Linked? && t == r.dirs[m].head)
  }

  /** Deleting an image loses nothing that any of these reaches. */
  lemma NamedFindable(r: Repo, n: Name, t: Hash, h: Hash)
    requires n in r.ready && Named(r, n, t) && t in r.commits && h in r.commits && Anc(r.commits, h, t)
    ensures Findable(Delete(r, n), h)
  {
    var q := r.(dirs := r.dirs - {n});
    if m :| m in r.dirs && m != n && r.dirs[m].Linked? && t == r.dirs[m].head {
      assert m in q.dirs && DirTip(q.dirs[m], t);
    }
    assert Survives(q, n, t);
    DeleteFindable(q, n, h);
  }

  // ---------------------------------------------------------------------------
  // Garbage collection

  /** The reflogs expire. */
  function Expire(r: Repo): Repo {
    r.(kept := {0}, readyLog := map[], unreadyLog := map[],
       dirs := map n | n in r.dirs :: if r.dirs[n].Linked? then r.dirs[n].(log := {}) else r.dirs[n])
  }

  /** git gc: what cannot be reached any more goes. */
  function Prune(r: Repo): Repo {
    r.(commits := map h | h in r.commits && Findable(r, h) :: r.commits[h])
  }

  function LargesUsed(r: Repo): set<string> { set h, l | h in r.commits && l in r.commits[h].larges :: l }

  function Gc(r: Repo): Repo {
    var p := Prune(Expire(r));
    p.(store := p.store * LargesUsed(p))
  }

  lemma ExpireInv(r: Repo)
    requires Inv(r)
    ensures Inv(Expire(r))
  {
    var s := Expire(r);
    forall n | n in s.dirs ensures DirOk(s, n) { assert DirOk(r, n); }
  }

  lemma TipStays(r: Repo, t: Hash)
    requires t in r.commits && Tip(r, t)
    ensures t in Prune(r).commits
  {
    assert Anc(r.commits, t, t);
    assert Findable(r, t);
  }

  lemma PruneInv(r: Repo)
    requires Inv(r) && 0 in r.kept
    ensures Inv(Prune(r))
  {
    var s := Prune(r);
    TipStays(r, 0);
    forall h | h in s.commits ensures CommitOk(s.commits, h) {
      assert CommitOk(r.commits, h);
      if r.commits[h].parent.Some? { ParentFindable(r, h); }
    }
    forall n | n in r.ready ensures r.ready[n] in s.commits { TipStays(r, r.ready[n]); }
    forall n | n in r.unready ensures r.unready[n] in s.commits { TipStays(r, r.unready[n]); }
    forall n | n in r.tags ensures r.tags[n] in s.commits { TipStays(r, r.tags[n]); }
    forall n | n in s.dirs ensures DirOk(s, n) {
      assert DirOk(r, n);
      if r.dirs[n].Linked? {
        assert DirTip(r.dirs[n], r.dirs[n].head);
        TipStays(r, r.dirs[n].head);
      }
    }
  }

  /** What keeps a commit: it is the root, or a branch, a tag or the HEAD of a work tree is
      at it. */
  predicate Referred(r: Repo, t: Hash) {
    t == 0 || t in r.ready.Values || t in r.unready.Values || t in r.tags.Values ||
    (exists n :: n in r.dirs && HeadAt(r.dirs[n], t))
  }

  predicate HeadAt(d: Dir, t: Hash) { d.Linked? && t == d.head }

  predicate Kept(r: Repo, h: Hash) {
    h in r.commits && exists t :: t in r.commits && Referred(r, t) && Anc(r.commits, h, t)
  }

  /** What garbage collection leaves: the commits at and below references, the large files
      that they name, no reflogs, and everything else as it was. */
  ghost predicate Collected(r: Repo, g: Repo) {
    && (forall h :: h in g.commits <==> Kept(r, h))
    && (forall h :: h in g.commits ==> g.commits[h] == r.commits[h])
    && (forall l :: l in g.store <==> exists h :: h in g.commits && l in g.commits[h].larges)
    && g.next == r.next && g.ready == r.ready && g.unready == r.unready && g.tags == r.tags
    && g.kept == {0} && g.readyLog == map[] && g.unreadyLog == map[]
    && g.dirs.Keys == r.dirs.Keys && forall n :: n in r.dirs ==> LogLost(r.dirs[n], g.dirs[n])
  }

  predicate LogLost(d: Dir, e: Dir) {
    match d
    case Bare(_) => e == d
    case Linked(image, head, on, _) => e == Linked(image, head, on, {})
  }

  lemma ExpiredTip(r: Repo, t: Hash)
    ensures Tip(Expire(r), t) <==> Referred(r, t)
  {
    var s := Expire(r);
    if n :| n in r.dirs && HeadAt(r.dirs[n], t) { assert n in s.dirs && DirTip(s.dirs[n], t); }
    if n :| n in s.dirs && DirTip(s.dirs[n], t) { assert n in r.dirs && HeadAt(r.dirs[n], t); }
  }

  lemma ExpiredFindable(r: Repo, h: Hash)
    ensures Findable(Expire(r), h) <==> Kept(r, h)
  {
    if t :| t in r.commits && Tip(Expire(r), t) && Anc(r.commits, h, t) { ExpiredTip(r, t); }
    if t :| t in r.commits && Referred(r, t) && Anc(r.commits, h, t) { ExpiredTip(r, t); }
  }

  /** After garbage collection the store holds exactly the large files that commits name,
      every commit still finds its own, and the commits are those at and below the root,
      branches, tags and HEADs. */
  lemma GcExact(r: Repo)
    requires Inv(r)
    ensures Inv(Gc(r)) && Gc(r).store == LargesUsed(Gc(r))
    ensures forall h :: h in Gc(r).commits <==> Findable(Expire(r), h)
    ensures Collected(r, Gc(r))
  {
    ExpireInv(r);
    PruneInv(Expire(r));
    var p := Prune(Expire(r));
    forall h, l | h in p.commits && l in p.commits[h].larges ensures l in p.store {}
    var g := Gc(r);
    forall n | n in g.dirs ensures DirOk(g, n) { assert DirOk(p, n); }
    GcCollected(r, g);
  }

  lemma GcCommits(r: Repo, g: Repo)
    requires g == Gc(r)
    ensures forall h :: h in g.commits <==> Kept(r, h)
    ensures forall h :: h in g.commits ==> g.commits[h] == r.commits[h]
  {
    forall h: Hash ensures h in g.commits <==> Kept(r, h) { ExpiredFindable(r, h); }
  }

  lemma GcRefs(r: Repo, g: Repo)
    requires g == Gc(r)
    ensures g.next == r.next && g.ready == r.ready && g.unready == r.unready && g.tags == r.tags
    ensures g.kept == {0} && g.readyLog == map[] && g.unreadyLog == map[]
    ensures g.dirs.Keys == r.dirs.Keys && forall n :: n in r.dirs ==> LogLost(r.dirs[n], g.dirs[n])
  {
    assert g.dirs == Expire(r).dirs;
  }

  lemma GcCollected(r: Repo, g: Repo)
    requires g == Gc(r) && g.store == LargesUsed(g)
    ensures Collected(r, g)
  {
    GcCommits(r, g);
    GcRefs(r, g);
  }
}
