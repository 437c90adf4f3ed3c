/**
  The Dockerfile main loop over the build cache.

  What instructions do is a parameter (`Semantics`): how an instruction's operands
  expand to the input of its state ID, what it does to the metadata and to the
  files, and what a pull brings. `Build` is the loop as coded, with the cache enabled
  or rebuilding; `PVisitAll` is the reference, which knows no cache and no commits
  and just executes one instruction after the other. `Transparency` says that they
  give the same images.
 */
module MainLoop {
  import opened BuildCache

  datatype Mode = Enabled | Rebuild

  datatype Ran = Done(files: Files) | Failed(partial: Files)

  /** `input` sees the metadata and the images of finished stages (for COPY --from);
      None is a fatal error, as it is for `manifest`. `initial` is the metadata of an
      image that has none. */
  datatype Semantics = Semantics(
    input: (string, Vars, map<Name, Core>) -> Option<string>,
    effect: (string, Vars) -> Vars,
    run: (string, Core) -> Ran,
    manifest: Name -> Option<string>,
    pulled: string -> Core,
    initial: Vars,
    larges: Files -> set<string>)

  /** `Refused` is a FROM with an invalid option or image reference; its base image may be
      known by then, its own image is not. */
  datatype Inst =
    | ArgFirst(key: string, value: Option<string>)
    | From(ref: Name, args: Vars, tag: Name)
    | Refused(base: Option<Name>)
    | Step(op: string)
    | Ignored

  const DEFAULTS: Vars := map[
    "arg FAKEROOTDONTTRYCHOWN" := "1",
    "arg PATH" := "/usr/local/sbin:/usr/local/bin:/usr/sbin:/usr/bin:/sbin:/bin",
    "arg TAR_OPTIONS" := "--no-same-owner"]

  // ---------------------------------------------------------------------------
  // The reference

  /** `imgs` are the images in storage, `built` those of this build's finished
      stages, `cur` the stage in progress. Storage may hold images of which nothing
      is claimed because a build failed in the middle of them: `torn`. */
  datatype PState = PState(
    argfrom: Vars, imgs: map<Name, Core>, torn: set<Name>, built: map<Name, Core>, tag: Name, cur: Option<Core>)

  function PClose(p: PState): PState {
    if p.cur.Some?
    then p.(imgs := p.imgs[p.tag := p.cur.value], torn := p.torn - {p.tag},
            built := p.built[p.tag := p.cur.value], cur := None)
    else p
  }

  function PBase(sem: Semantics, imgs: map<Name, Core>, ref: Name): Option<Core> {
    if ref in imgs then Some(imgs[ref])
    else match sem.manifest(ref)
      case None => None
      case Some(m) => Some(sem.pulled(m))
  }

  /** A new stage on base image `b`. */
  function POpened(p: PState, ref: Name, args: Vars, tag: Name, b: Core): PState {
    var q, af := PClose(p), p.argfrom + args;
    PState(af, q.imgs[ref := b], q.torn, q.built, tag, Some(Core(b.files, b.vars + DEFAULTS + af)))
  }

  /** The defaults of a stage's variables, under what is set by then. */
  lemma StageDefaults(p: PState, ref: Name, args: Vars, tag: Name, b: Core)
    ensures var v, given := POpened(p, ref, args, tag, b).cur.value.vars, p.argfrom + args;
            && (forall k :: k in given ==> k in v && v[k] == given[k])
            && (forall k :: k in v && k !in given && k !in {"arg PATH", "arg TAR_OPTIONS", "arg FAKEROOTDONTTRYCHOWN"} ==>
                              k in b.vars && v[k] == b.vars[k])
            && Given(v, given, "arg PATH", "/usr/local/sbin:/usr/local/bin:/usr/sbin:/usr/bin:/sbin:/bin")
            && Given(v, given, "arg TAR_OPTIONS", "--no-same-owner") && Given(v, given, "arg FAKEROOTDONTTRYCHOWN", "1")
  {
  }

  predicate Given(v: Vars, given: Vars, k: string, value: string) { k in v && (k !in given ==> v[k] == value) }

  function PVisit(sem: Semantics, p: PState, inst: Inst): Option<PState> {
    match inst
    case Ignored => Some(p)
    case ArgFirst(k, v) =>
      if p.cur.Some? then None
      else Some(p.(argfrom := if v.Some? then p.argfrom["arg " + k := v.value] else p.argfrom))
    case Refused(_) => None
    case From(ref, args, tag) =>
      if ref == tag then None
      else (match PBase(sem, PClose(p).imgs, ref)
        case None => None
        case Some(b) => Some(POpened(p, ref, args, tag, b)))
    case Step(op) =>
      if p.cur.None? then None
      else match sem.input(op, p.cur.value.vars, p.built)
        case None => None
        case Some(input) => PExecute(sem, p, input)
  }

  function PExecute(sem: Semantics, p: PState, input: string): Option<PState>
    requires p.cur.Some?
  {
    var vars := sem.effect(input, p.cur.value.vars);
    match sem.run(input, Core(p.cur.value.files, vars))
    case Failed(_) => None
    case Done(files) => Some(p.(cur := Some(Core(files, vars))))
  }

  /** How far execution came: to the end, or to the last state before a failure, and
      then `at` is the instruction that failed. */
  datatype POut = POut(ok: bool, state: PState, at: Inst)

  function PVisitAll(sem: Semantics, p: PState, prog: seq<Inst>): POut {
    if prog == [] then POut(true, p, Ignored)
    else
      var o := PVisitAll(sem, p, prog[..|prog| - 1]);
      if !o.ok then o
      else match PVisit(sem, o.state, prog[|prog| - 1])
        case None => POut(false, o.state, prog[|prog| - 1])
        case Some(q) => POut(true, q, Ignored)
  }

  /** What storage should hold, and of which images nothing is claimed. */
  datatype World = World(imgs: map<Name, Core>, torn: set<Name>)

  /** The images whose directories a failed FROM deletes. */
  function Doomed(tag: Option<Name>, inst: Inst): set<Name> {
    match inst
    case From(ref, _, tag) => {ref, tag}
    case Refused(base) => (if base.Some? then {base.value} else {}) + (if tag.Some? then {tag.value} else {})
    case _ => {}
  }

  function TagOf(p: PState): Option<Name> { if p.cur.Some? then Some(p.tag) else None }

  /** After an instruction that fails in state `p`: FROM has perhaps closed the previous
      stage; images of which only the branch remains, `kept`, are torn. */
  function PStopped(p: PState, inst: Inst, kept: set<Name>): World {
    var q, d := if inst.From? && inst.ref != inst.tag then PClose(p) else p, Doomed(TagOf(p), inst);
    World(q.imgs - d, q.torn + (if q.cur.Some? then {q.tag} else {}) + d * kept)
  }

  /** Storage after a build: `kept` are the images that have a ready branch. */
  function PAfter(o: POut, kept: set<Name>): World {
    if o.ok then World(PClose(o.state).imgs, PClose(o.state).torn) else PStopped(o.state, o.at, kept)
  }

  function PStart(imgs: map<Name, Core>, torn: set<Name>): PState { PState(map[], imgs, torn, map[], "", None) }

  // ---------------------------------------------------------------------------
  // The loop

  /** The previous instruction: none, one before FROM, or one with an image. */
  datatype Prev = NoInst | NoImage | InImage(sid: Option<Sid>, hash: Option<Hash>)

  datatype Loop = Loop(
    missCt: nat, prev: Prev, total: nat, argfrom: Vars, vars: Vars, history: seq<string>, tag: Name, done: set<Name>)

  datatype Out = Out(ok: bool, repo: Repo, loop: Loop)

  const START: Loop := Loop(0, NoInst, 0, map[], map[], [], "", {})

  /** Make what is unpacked in storage a commit of its own below the root. */
  function AddBase(sem: Semantics, r: Repo, n: Name, input: string, image: Image): Repo {
    var c := Checkout(r, n, 0);
    Ready(CommitTo(c, n, Chain(Root, input), image, sem.larges(image.core.files)), n)
  }

  function Adopt(sem: Semantics, r: Repo, n: Name): Repo
    requires n in r.dirs && r.dirs[n].Bare?
  {
    var i := r.dirs[n].image;
    AddBase(sem, r, n, "IMPORT " + n, i.(core := i.core.(vars := i.core.vars + DEFAULTS)))
  }

  function Pull(sem: Semantics, r: Repo, n: Name, manifest: string): Repo {
    AddBase(sem, r.(dirs := r.dirs - {n}), n, manifest, Image(sem.pulled(manifest), []))
  }

  /** Checkout if nothing has missed, then ready. */
  function Close(r: Repo, lp: Loop): Repo
    requires lp.prev.InImage? && lp.prev.hash.Some?
  {
    var c := if lp.missCt == 0 then Checkout(r, lp.tag, lp.prev.hash.value) else r;
    if lp.tag in c.dirs && c.dirs[lp.tag].Linked? then Ready(c, lp.tag) else c
  }

  function Closed(r: Repo, lp: Loop): Repo {
    if lp.prev.InImage? && lp.prev.hash.Some? then Close(r, lp) else r
  }

  /** find_image, and adopting or pulling when there is none. */
  function FindBase(sem: Semantics, r: Repo, ref: Name): Option<Repo> {
    if ref in r.ready then Some(r)
    else if ref in r.dirs && r.dirs[ref].Bare? then Some(Adopt(sem, r, ref))
    else match sem.manifest(ref)
      case None => None
      case Some(m) => Some(Pull(sem, r, ref, m))
  }

  /** metadata_load from a base image's directory, and without one the initial metadata. */
  function LoadVars(initial: Vars, r: Repo, ref: Name): Vars {
    (if ref in r.dirs then r.dirs[ref].image.core.vars else initial) + DEFAULTS
  }

  function LoadHistory(r: Repo, ref: Name): seq<string> {
    if ref in r.dirs then r.dirs[ref].image.history else []
  }

  function Opened(sem: Semantics, lp: Loop, r: Repo, ref: Name, af: Vars, tag: Name, missCt: nat, prev: Prev): Loop {
    Loop(missCt, prev, lp.total + 1, af, LoadVars(sem.initial, r, ref) + af, LoadHistory(r, ref), tag,
         lp.done + (if lp.prev.InImage? then {lp.tag} else {}))
  }

  /** The new stage's context. */
  function OpenStage(sem: Semantics, r: Repo, lp: Loop, ref: Name, args: Vars, tag: Name): Out {
    if ref in r.ready && r.ready[ref] in r.commits then
      var h := r.ready[ref];
      Out(true, r, Opened(sem, lp, r, ref, lp.argfrom + args, tag, 0, InImage(Some(r.commits[h].sid), Some(h))))
    else Out(false, r, lp)
  }

  /** FROM once the previous stage is closed. */
  function FromOn(sem: Semantics, r: Repo, lp: Loop, ref: Name, args: Vars, tag: Name): Out {
    match FindBase(sem, r, ref)
    case None => Out(false, r, lp)
    case Some(b) => OpenStage(sem, b, lp, ref, args, tag)
  }

  function VisitFrom(sem: Semantics, r: Repo, lp: Loop, ref: Name, args: Vars, tag: Name): Out {
    if ref == tag then Out(false, r, lp) else FromOn(sem, Closed(r, lp), lp, ref, args, tag)
  }

  function LoopTag(lp: Loop): Option<Name> { if lp.prev.InImage? then Some(lp.tag) else None }

  /** prepare_rollback() of FROM: the directories go, the branches stay. */
  function PrepareRollback(r: Repo, d: set<Name>): Repo { r.(dirs := r.dirs - d) }

  function Built(r: Repo, done: set<Name>): map<Name, Core> {
    map t | t in done && t in r.dirs :: r.dirs[t].image.core
  }

  function Seek(mode: Mode, r: Repo, sid: Sid, tag: Name): Option<Hash> {
    if mode.Enabled? then FindSid(r, sid, tag) else None
  }

  function VisitStep(mode: Mode, sem: Semantics, r: Repo, lp: Loop, op: string): Out {
    if !(lp.prev.InImage? && lp.prev.sid.Some? && lp.prev.hash.Some?) then Out(false, r, lp)
    else match sem.input(op, lp.vars, Built(r, lp.done))
      case None => Out(false, r, lp)
      case Some(input) => Prepared(mode, sem, r, lp, input)
  }

  /** prepare() once the input is known, and what the loop does then: nothing on a
      hit; on a miss execute, after a checkout if it is the stage's first. */
  function Prepared(mode: Mode, sem: Semantics, r: Repo, lp: Loop, input: string): Out
    requires lp.prev.InImage? && lp.prev.sid.Some? && lp.prev.hash.Some?
  {
    var vars, sid := sem.effect(input, lp.vars), Chain(lp.prev.sid.value, input);
    var hash := Seek(mode, r, sid, lp.tag);
    if hash.Some? then
      Out(true, r, lp.(prev := InImage(Some(sid), hash), vars := vars, total := lp.total + 1))
    else
      Execute(sem, if lp.missCt == 0 then Checkout(r, lp.tag, lp.prev.hash.value) else r, lp, input, vars, sid)
  }

  /** execute, metadata_update and commit, or rollback, in the checked-out image. */
  function Execute(sem: Semantics, r: Repo, lp: Loop, input: string, vars: Vars, sid: Sid): Out {
    if !(lp.tag in r.dirs && r.dirs[lp.tag].Linked?) then Out(false, r, lp)
    else
      var d := r.dirs[lp.tag];
      match sem.run(input, Core(d.image.core.files, vars))
      case Failed(partial) =>
        var dirty := r.(dirs := r.dirs[lp.tag := d.(image := Image(Core(partial, d.image.core.vars), d.image.history))]);
        Out(false, Rollback(dirty, lp.tag, sem.larges(partial)), lp)
      case Done(files) =>
        var history := lp.history + [input];
        var image := Image(Core(files, vars), history);
        Out(true, CommitTo(r, lp.tag, sid, image, sem.larges(files)),
            lp.(missCt := lp.missCt + 1, prev := InImage(Some(sid), Some(r.next)), vars := vars,
                history := history, total := lp.total + 1))
  }

  function VisitArg(r: Repo, lp: Loop, k: string, v: Option<string>): Out {
    if lp.prev.InImage? then Out(false, r, lp)
    else Out(true, r, lp.(missCt := lp.missCt + 1, prev := NoImage, total := lp.total + 1,
                          argfrom := if v.Some? then lp.argfrom["arg " + k := v.value] else lp.argfrom))
  }

  function Visit(mode: Mode, sem: Semantics, r: Repo, lp: Loop, inst: Inst): Out {
    match inst
    case Ignored => Out(true, r, lp)
    case ArgFirst(k, v) => VisitArg(r, lp, k, v)
    case Refused(_) => Out(false, PrepareRollback(r, Doomed(LoopTag(lp), inst)), lp)
    case From(ref, args, tag) =>
      var o := VisitFrom(sem, r, lp, ref, args, tag);
      if o.ok then o else Out(false, PrepareRollback(o.repo, Doomed(LoopTag(lp), inst)), lp)
    case Step(op) => VisitStep(mode, sem, r, lp, op)
  }

  function VisitAll(mode: Mode, sem: Semantics, r: Repo, prog: seq<Inst>): Out {
    if prog == [] then Out(true, r, START)
    else
      var o := VisitAll(mode, sem, r, prog[..|prog| - 1]);
      if o.ok then Visit(mode, sem, o.repo, o.loop, prog[|prog| - 1]) else o
  }

  /** A whole build with the cache enabled or rebuilding. */
  function Build(mode: Mode, sem: Semantics, r: Repo, prog: seq<Inst>): Out {
    var o := VisitAll(mode, sem, r, prog);
    if o.ok then Out(true, Closed(o.repo, o.loop), o.loop) else o
  }

  // ---------------------------------------------------------------------------
  // What state IDs stand for

  /** The image that a chain of inputs makes. */
  function Eval(sem: Semantics, sid: Sid): Option<Core> {
    match sid
    case Root => Some(EMPTY.core)
    case Chain(Root, input) => Some(sem.pulled(input))
    case Chain(s, input) =>
      match Eval(sem, s)
      case None => None
      case Some(c) =>
        var vars := sem.effect(input, c.vars);
        match sem.run(input, Core(c.files, vars))
        case Failed(_) => None
        case Done(files) => Some(Core(files, vars))
  }

  ghost predicate CoherentAt(sem: Semantics, r: Repo, h: Hash)
    requires h in r.commits
  {
    Eval(sem, r.commits[h].sid) == Some(r.commits[h].image.core)
  }

  /** Every commit holds the image that its state ID stands for. */
  ghost predicate Coherent(sem: Semantics, r: Repo) {
    && (forall h :: h in r.commits ==> CoherentAt(sem, r, h))
    && (forall n :: n in r.ready && r.ready[n] in r.commits ==> r.commits[r.ready[n]].sid.Chain?)
    && (forall n :: n in r.tags && r.tags[n] in r.commits ==> r.commits[r.tags[n]].sid.Chain?)
  }

  /** The image `n` in storage is that of its branch, and is what `imgs` says. An image
      that is not in the cache yet must be what its import's state ID stands for. */
  ghost predicate Synced(sem: Semantics, r: Repo, imgs: map<Name, Core>, n: Name) {
    && (n in imgs <==> n in r.dirs)
    && (n in r.ready <==> n in r.dirs && r.dirs[n].Linked?)
    && (n in r.dirs && n in imgs ==> r.dirs[n].image.core == imgs[n])
    && (n in r.ready && n in r.dirs && r.dirs[n].Linked? ==> r.dirs[n].head == r.ready[n])
    && (n in r.dirs && r.dirs[n].Bare? ==> Importable(sem, n, r.dirs[n].image.core))
  }

  ghost predicate Importable(sem: Semantics, n: Name, c: Core) {
    c.vars + DEFAULTS == c.vars && sem.pulled("IMPORT " + n) == c
  }

  ghost predicate Sound(sem: Semantics, r: Repo) { Inv(r) && Coherent(sem, r) }

  // ---------------------------------------------------------------------------
  // Findable commits under checkout and commit

  ghost predicate InLogs(l: map<Name, set<Hash>>, t: Hash) { exists m :: m in l && t in l[m] }

  /** What is new in a branch's values or in its reflog is where the branch moved. */
  lemma FollowTips(b0: map<Name, Hash>, l0: map<Name, set<Hash>>, b1: map<Name, Hash>, l1: map<Name, set<Hash>>, n: Name, h: Hash, t: Hash)
    requires BranchFollows(b0, l0, b1, l1, n, h) && t != h && (t in b1.Values || InLogs(l1, t))
    ensures t in b0.Values || InLogs(l0, t)
  {
    if t in b1.Values {
      var m :| m in b1 && b1[m] == t;
      assert b0[m] == t;
    } else {
      var m :| m in l1 && t in l1[m];
      if !(m in l0 && t in l0[m]) { assert m in b0 && b0[m] == t; }
    }
  }

  ghost predicate HeadsMoved(r: Repo, n: Name, h: Hash, s: Repo) {
    forall m, t: Hash :: m in s.dirs && DirTip(s.dirs[m], t) && t != h ==> m in r.dirs && DirTip(r.dirs[m], t)
  }

  lemma CheckoutMoves(r: Repo, n: Name, h: Hash)
    ensures var s := Checkout(r, n, h);
            && BranchFollows(r.unready, r.unreadyLog, s.unready, s.unreadyLog, n, h) && HeadsMoved(r, n, h, s)
            && s.kept == r.kept && s.ready == r.ready && s.tags == r.tags && s.readyLog == r.readyLog
  {
  }

  lemma CheckoutTips(r: Repo, n: Name, h: Hash, t: Hash)
    requires Tip(Checkout(r, n, h), t)
    ensures Tip(r, t) || t == h
  {
    var s := Checkout(r, n, h);
    CheckoutMoves(r, n, h);
    if t != h {
      if t in s.unready.Values || InLogs(s.unreadyLog, t) {
        FollowTips(r.unready, r.unreadyLog, s.unready, s.unreadyLog, n, h, t);
      }
    }
  }

  lemma CheckoutFindsNoMore(r: Repo, n: Name, h: Hash, x: Hash)
    requires Findable(r, h) && Findable(Checkout(r, n, h), x)
    ensures Findable(r, x)
  {
    var s := Checkout(r, n, h);
    CheckoutAt(r, n, h);
    var t :| t in s.commits && Tip(s, t) && Anc(s.commits, x, t);
    CheckoutTips(r, n, h, t);
    if t == h {
      var u :| u in r.commits && Tip(r, u) && Anc(r.commits, h, u);
      AncTrans(r.commits, x, h, u);
    }
  }

  lemma CommitTips(r: Repo, n: Name, c: Commit, s: Repo, t: Hash)
    requires Committed(r, n, c, s) && Tip(s, t)
    ensures Tip(r, t) || t == r.next
  {
    if t != r.next {
      if t in s.unready.Values || InLogs(s.unreadyLog, t) {
        FollowTips(r.unready, r.unreadyLog, s.unready, s.unreadyLog, n, r.next, t);
      }
      if t in s.ready.Values || InLogs(s.readyLog, t) {
        FollowTips(r.ready, r.readyLog, s.ready, s.readyLog, n, r.next, t);
      }
      assert HeadsMoved(r, n, r.next, s);
    }
  }

  lemma CommitFindsOne(r: Repo, n: Name, c: Commit, s: Repo, x: Hash)
    requires Inv(r) && Committed(r, n, c, s) && c.parent == Some(r.dirs[n].head)
    requires Findable(s, x) && x != r.next
    ensures Findable(r, x)
  {
    var h := r.dirs[n].head;
    assert DirOk(r, n);
    var t :| t in s.commits && Tip(s, t) && Anc(s.commits, x, t);
    CommitTips(r, n, c, s, t);
    if t == r.next {
      assert Anc(s.commits, x, h);
      AncGrow(r.commits, s.commits, x, h);
      assert DirTip(r.dirs[n], h);
      assert Tip(r, h);
    } else {
      AncGrow(r.commits, s.commits, x, t);
    }
  }

  /** No findable commit is a child of the state `sid`. */
  ghost predicate NoChild(r: Repo, sid: Sid) {
    forall x :: Findable(r, x) && r.commits[x].sid.Chain? ==> r.commits[x].sid.parent != sid
  }

  ghost predicate Unknown(r: Repo, sid: Sid) {
    forall x :: Findable(r, x) ==> r.commits[x].sid != sid
  }

  lemma ChainIsLonger(s: Sid, input: string)
    ensures Chain(s, input) != s
  {
    assert s < Chain(s, input);
  }

  lemma NotAChild(r: Repo, s: Repo, c: Commit, x: Hash)
    requires Inv(s) && Unknown(r, c.sid) && c.sid.Chain? && r.next !in r.commits
    requires s.commits == r.commits[r.next := c] && s.next == r.next + 1
    requires forall y :: Findable(s, y) && y != r.next ==> Findable(r, y)
    requires Findable(s, x) && s.commits[x].sid.Chain?
    ensures s.commits[x].sid.parent != c.sid
  {
    if x == r.next {
      ChainIsLonger(c.sid.parent, c.sid.input);
    } else {
      ParentBelow(s, x);
      var p := s.commits[x].parent.value;
      assert Findable(r, p) && s.commits[p] == r.commits[p];
    }
  }

  /** A commit of a chained state has a findable parent, an earlier commit of its prefix. */
  lemma ParentBelow(s: Repo, x: Hash)
    requires Inv(s) && Findable(s, x) && s.commits[x].sid.Chain?
    ensures s.commits[x].parent.Some? && s.commits[x].parent.value < x < s.next && Findable(s, s.commits[x].parent.value)
    ensures s.commits[s.commits[x].parent.value].sid == s.commits[x].sid.parent
  {
    assert CommitOk(s.commits, x);
    ParentFindable(s, x);
  }

  /** A state that nobody could find has no findable children once it is committed:
      this is why nothing hits after a miss. */
  lemma NewHasNoChild(r: Repo, n: Name, c: Commit, s: Repo)
    requires Inv(r) && Committed(r, n, c, s) && Unknown(r, c.sid) && c.parent == Some(r.dirs[n].head)
    requires c.sid.Chain? && c.sid.parent == r.commits[r.dirs[n].head].sid
    ensures NoChild(s, c.sid)
  {
    CommitInv(r, n, c, s);
    forall y: Hash | Findable(s, y) && y != r.next ensures Findable(r, y) { CommitFindsOne(r, n, c, s, y); }
    forall x: Hash | Findable(s, x) && s.commits[x].sid.Chain? ensures s.commits[x].sid.parent != c.sid {
      NotAChild(r, s, c, x);
    }
  }

  // ---------------------------------------------------------------------------
  // The loop follows the reference

  /** Within a stage: the previous instruction's commit holds the current image, and
      from the first miss on it is what is checked out, and nothing more can hit. */
  ghost predicate InStage(mode: Mode, r: Repo, lp: Loop, cur: Core) {
    && lp.prev.InImage? && lp.prev.sid.Some? && lp.prev.hash.Some?
    && var sid, h := lp.prev.sid.value, lp.prev.hash.value;
    && Findable(r, h) && r.commits[h].sid == sid && sid.Chain?
    && r.commits[h].image.core == cur && lp.vars == cur.vars
    && (lp.missCt > 0 ==> lp.tag in r.dirs && r.dirs[lp.tag].Linked? && r.dirs[lp.tag].head == h)
    && (lp.missCt > 0 && mode.Enabled? ==> NoChild(r, sid))
  }

  ghost predicate OthersSynced(sem: Semantics, r: Repo, p: PState) {
    forall n :: n !in p.torn && (p.cur.Some? ==> n != p.tag) ==> Synced(sem, r, p.imgs, n)
  }

  ghost predicate AllSynced(sem: Semantics, r: Repo, imgs: map<Name, Core>, torn: set<Name>) {
    forall n :: n !in torn ==> Synced(sem, r, imgs, n)
  }

  ghost predicate BuiltOk(p: PState) {
    forall t :: t in p.built ==> t in p.imgs && p.imgs[t] == p.built[t] && t !in p.torn && (p.cur.Some? ==> t != p.tag)
  }

  /** What the loop and the reference have in common besides the images. */
  ghost predicate Alike(lp: Loop, p: PState) {
    && lp.argfrom == p.argfrom && lp.done == p.built.Keys && lp.tag == p.tag
    && (lp.prev.InImage? <==> p.cur.Some?)
  }

  ghost predicate Rel(mode: Mode, sem: Semantics, r: Repo, lp: Loop, p: PState) {
    && Sound(sem, r)
    && Alike(lp, p)
    && OthersSynced(sem, r, p) && BuiltOk(p)
    && (p.cur.Some? ==> InStage(mode, r, lp, p.cur.value))
  }

  lemma EvalStep(sem: Semantics, sid: Sid, input: string, c: Core)
    requires sid.Chain? && Eval(sem, sid) == Some(c)
    ensures var vars := sem.effect(input, c.vars);
            Eval(sem, Chain(sid, input)) ==
              match sem.run(input, Core(c.files, vars))
              case Failed(_) => None
              case Done(files) => Some(Core(files, vars))
  {
  }

  lemma BuiltSame(sem: Semantics, r: Repo, p: PState)
    requires OthersSynced(sem, r, p) && BuiltOk(p)
    ensures Built(r, p.built.Keys) == p.built
  {
    forall t | t in p.built ensures t in r.dirs && r.dirs[t].image.core == p.built[t] {
      assert Synced(sem, r, p.imgs, t);
    }
  }

  /** A checkout in the current stage. */
  lemma CheckoutRel(sem: Semantics, r: Repo, p: PState, h: Hash)
    requires Sound(sem, r) && h in r.commits && OthersSynced(sem, r, p) && p.cur.Some?
    ensures var s := Checkout(r, p.tag, h);
            && Sound(sem, s) && OthersSynced(sem, s, p)
            && p.tag in s.dirs && s.dirs[p.tag].Linked? && s.dirs[p.tag].head == h
            && s.commits == r.commits && s.dirs[p.tag].image == r.commits[h].image
  {
    var s := Checkout(r, p.tag, h);
    CheckoutAt(r, p.tag, h);
    CheckoutInv(r, p.tag, h);
    forall x | x in s.commits ensures CoherentAt(sem, s, x) { assert CoherentAt(sem, r, x); }
    forall n | n !in p.torn && n != p.tag ensures Synced(sem, s, p.imgs, n) { assert Synced(sem, r, p.imgs, n); }
  }

  lemma CommitCoherent(sem: Semantics, r: Repo, n: Name, c: Commit, s: Repo)
    requires Sound(sem, r) && Committed(r, n, c, s) && c.sid.Chain? && c.parent == Some(r.dirs[n].head)
    requires c.sid.parent == r.commits[r.dirs[n].head].sid && Eval(sem, c.sid) == Some(c.image.core)
    ensures Sound(sem, s)
  {
    CommitInv(r, n, c, s);
    forall x | x in s.commits ensures CoherentAt(sem, s, x) { if x in r.commits { assert CoherentAt(sem, r, x); } }
  }

  lemma CommitOthers(sem: Semantics, r: Repo, p: PState, c: Commit, s: Repo)
    requires p.cur.Some? && Committed(r, p.tag, c, s) && OthersSynced(sem, r, p)
    ensures OthersSynced(sem, s, p)
  {
    forall n | n !in p.torn && n != p.tag ensures Synced(sem, s, p.imgs, n) { assert Synced(sem, r, p.imgs, n); }
  }

  /** A commit of what the reference has computed. */
  lemma CommitRel(
      mode: Mode, sem: Semantics, r: Repo, lp: Loop, p: PState, q: PState, sid: Sid, image: Image, larges: set<string>)
    requires Sound(sem, r) && OthersSynced(sem, r, p) && BuiltOk(p) && p.cur.Some?
    requires lp.argfrom == p.argfrom && lp.done == p.built.Keys && lp.tag == p.tag
    requires q == p.(cur := Some(image.core))
    requires lp.tag in r.dirs && r.dirs[lp.tag].Linked? && sid.Chain?
    requires sid.parent == r.commits[r.dirs[lp.tag].head].sid && Eval(sem, sid) == Some(image.core)
    requires mode.Enabled? ==> Unknown(r, sid)
    requires lp.prev == InImage(Some(sid), Some(r.next)) && lp.vars == image.core.vars
    ensures Rel(mode, sem, CommitTo(r, lp.tag, sid, image, larges), lp, q)
  {
    var s, c := CommitTo(r, lp.tag, sid, image, larges), Commit(sid, image, larges, Some(r.dirs[lp.tag].head));
    CommitAt(r, lp.tag, sid, image, larges);
    CommitCoherent(sem, r, lp.tag, c, s);
    CommitOthers(sem, r, p, c, s);
    if mode.Enabled? { NewHasNoChild(r, lp.tag, c, s); }
    HeadFindable(s, lp.tag);
    SameOthers(sem, s, p, q);
  }

  lemma SameOthers(sem: Semantics, r: Repo, p: PState, q: PState)
    requires OthersSynced(sem, r, p) && BuiltOk(p) && p.cur.Some? && q.cur.Some? && q == p.(cur := q.cur)
    ensures OthersSynced(sem, r, q) && BuiltOk(q)
  {
  }

  lemma HeadFindable(r: Repo, n: Name)
    requires Inv(r) && n in r.dirs && r.dirs[n].Linked?
    ensures Findable(r, r.dirs[n].head)
  {
    var h := r.dirs[n].head;
    assert DirOk(r, n) && DirTip(r.dirs[n], h) && Tip(r, h) && Anc(r.commits, h, h);
  }

  /** rollback() after a partial execution: the image is the last committed one. The
      store has gained the large files of the partial one. */
  lemma FailedExecution(sem: Semantics, r: Repo, lp: Loop, input: string, vars: Vars, sid: Sid)
    requires Inv(r) && !Execute(sem, r, lp, input, vars, sid).ok
    ensures Regained(r, Execute(sem, r, lp, input, vars, sid).repo)
  {
    if lp.tag in r.dirs && r.dirs[lp.tag].Linked? {
      assert DirOk(r, lp.tag);
      assert r.dirs == r.dirs[lp.tag := r.dirs[lp.tag]];
    }
  }

  /** The same but for more large files. */
  ghost predicate Regained(r: Repo, s: Repo) { r.store <= s.store && s == r.(store := s.store) }

  lemma RegainedLeft(sem: Semantics, r: Repo, p: PState, s: Repo)
    requires Sound(sem, r) && OthersSynced(sem, r, p) && p.cur.Some? && Regained(r, s)
    ensures Sound(sem, s) && OthersSynced(sem, s, p)
  {
    forall n | n in s.dirs ensures DirOk(s, n) { assert DirOk(r, n); }
    forall x | x in s.commits ensures CoherentAt(sem, s, x) { assert CoherentAt(sem, r, x); }
    forall n | n !in p.torn && n != p.tag ensures Synced(sem, s, p.imgs, n) { assert Synced(sem, r, p.imgs, n); }
  }

  /** What an execution makes of a stage: the loop and the reference go on alike, and
      both stop at a failure. */
  lemma ExecuteRel(mode: Mode, sem: Semantics, r: Repo, lp: Loop, p: PState, input: string, sid: Sid)
    requires Sound(sem, r) && OthersSynced(sem, r, p) && BuiltOk(p) && p.cur.Some?
    requires lp.argfrom == p.argfrom && lp.done == p.built.Keys && lp.tag == p.tag
    requires lp.tag in r.dirs && r.dirs[lp.tag].Linked? && r.dirs[lp.tag].image.core.files == p.cur.value.files
    requires sid.Chain? && sid.parent.Chain? && sid.input == input
    requires sid.parent == r.commits[r.dirs[lp.tag].head].sid && Eval(sem, sid.parent) == Some(p.cur.value)
    requires mode.Enabled? ==> Unknown(r, sid)
    ensures var vars := sem.effect(input, p.cur.value.vars);
            var o := Execute(sem, r, lp, input, vars, sid);
            match sem.run(input, Core(p.cur.value.files, vars))
            case Failed(_) => !o.ok && Sound(sem, o.repo) && OthersSynced(sem, o.repo, p)
            case Done(files) => o.ok && Rel(mode, sem, o.repo, o.loop, p.(cur := Some(Core(files, vars))))
  {
    var vars := sem.effect(input, p.cur.value.vars);
    match sem.run(input, Core(p.cur.value.files, vars))
    case Failed(_) =>
      FailedExecution(sem, r, lp, input, vars, sid);
      RegainedLeft(sem, r, p, Execute(sem, r, lp, input, vars, sid).repo);
    case Done(files) =>
      EvalStep(sem, sid.parent, input, p.cur.value);
      var o := Execute(sem, r, lp, input, vars, sid);
      CommitRel(mode, sem, r, o.loop, p, p.(cur := Some(Core(files, vars))), sid,
                Image(Core(files, vars), lp.history + [input]), sem.larges(files));
  }

  /** A hit or a miss. */
  lemma PreparedRel(mode: Mode, sem: Semantics, r: Repo, lp: Loop, p: PState, input: string)
    requires Rel(mode, sem, r, lp, p) && p.cur.Some?
    ensures var o, q := Prepared(mode, sem, r, lp, input), PExecute(sem, p, input);
            && (o.ok <==> q.Some?)
            && (q.Some? ==> Rel(mode, sem, o.repo, o.loop, q.value))
            && (q.None? ==> Sound(sem, o.repo) && OthersSynced(sem, o.repo, p))
  {
    if Seek(mode, r, Chain(lp.prev.sid.value, input), lp.tag).Some? {
      HitRel(mode, sem, r, lp, p, input);
    } else {
      MissRel(mode, sem, r, lp, p, input);
    }
  }

  /** One instruction after FROM. */
  lemma StepRel(mode: Mode, sem: Semantics, r: Repo, lp: Loop, p: PState, op: string)
    requires Rel(mode, sem, r, lp, p)
    ensures var o, q := VisitStep(mode, sem, r, lp, op), PVisit(sem, p, Step(op));
            && (o.ok <==> q.Some?)
            && (q.Some? ==> Rel(mode, sem, o.repo, o.loop, q.value))
            && (q.None? ==> Left(sem, o.repo, p, Step(op)))
  {
    if p.cur.None? {
      StepLeft(sem, r, p, op);
    } else {
      BuiltSame(sem, r, p);
      match sem.input(op, p.cur.value.vars, p.built)
      case None => StepLeft(sem, r, p, op);
      case Some(input) => InputRel(mode, sem, r, lp, p, op, input);
    }
  }

  /** Once its state ID's input is known. */
  lemma InputRel(mode: Mode, sem: Semantics, r: Repo, lp: Loop, p: PState, op: string, input: string)
    requires Rel(mode, sem, r, lp, p) && p.cur.Some?
    ensures var o, q := Prepared(mode, sem, r, lp, input), PExecute(sem, p, input);
            && (o.ok <==> q.Some?)
            && (q.Some? ==> Rel(mode, sem, o.repo, o.loop, q.value))
            && (q.None? ==> Left(sem, o.repo, p, Step(op)))
  {
    var o, q := Prepared(mode, sem, r, lp, input), PExecute(sem, p, input);
    PreparedRel(mode, sem, r, lp, p, input);
    if q.None? { StepLeft(sem, o.repo, p, op); }
  }

  lemma StepLeft(sem: Semantics, r: Repo, p: PState, op: string)
    requires Sound(sem, r) && OthersSynced(sem, r, p)
    ensures Left(sem, r, p, Step(op))
  {
    OpenLeft(sem, r, p, Step(op));
  }

  /** What a failed instruction leaves: a sound cache, every image that is not torn in
      step, and no directory that prepare_rollback deletes. */
  ghost predicate Left(sem: Semantics, r: Repo, p: PState, inst: Inst) {
    var w, d := PStopped(p, inst, r.ready.Keys), Doomed(TagOf(p), inst);
    && Sound(sem, r) && AllSynced(sem, r, w.imgs, w.torn)
    && forall n :: n in d ==> n !in r.dirs
  }

  /** An instruction that fails within a stage. */
  lemma OpenLeft(sem: Semantics, r: Repo, p: PState, inst: Inst)
    requires Sound(sem, r) && OthersSynced(sem, r, p) && Doomed(TagOf(p), inst) == {} && !inst.From?
    ensures Left(sem, r, p, inst)
  {
    assert p.imgs - {} == p.imgs;
  }

  /** The deletions of a failed FROM. */
  lemma RolledBackLeft(sem: Semantics, r: Repo, p: PState, inst: Inst)
    requires Sound(sem, r)
    requires if inst.From? && inst.ref != inst.tag then AllSynced(sem, r, PClose(p).imgs, PClose(p).torn) else OthersSynced(sem, r, p)
    ensures Left(sem, PrepareRollback(r, Doomed(TagOf(p), inst)), p, inst)
  {
    var d := Doomed(TagOf(p), inst);
    var q, s := if inst.From? && inst.ref != inst.tag then PClose(p) else p, PrepareRollback(r, d);
    forall n | n in s.dirs ensures DirOk(s, n) { assert DirOk(r, n); }
    forall x | x in s.commits ensures CoherentAt(sem, s, x) { assert CoherentAt(sem, r, x); }
    forall n | n !in PStopped(p, inst, s.ready.Keys).torn ensures Synced(sem, s, q.imgs - d, n) {
      if n !in d { assert Synced(sem, r, q.imgs, n); }
    }
  }

  /** A hit: only before the first miss, and at a commit of the image that executing
      would have made. */
  lemma HitRel(mode: Mode, sem: Semantics, r: Repo, lp: Loop, p: PState, input: string)
    requires Rel(mode, sem, r, lp, p) && p.cur.Some?
    requires Seek(mode, r, Chain(lp.prev.sid.value, input), lp.tag).Some?
    ensures lp.missCt == 0
    ensures var o, q := Prepared(mode, sem, r, lp, input), PExecute(sem, p, input);
            o.ok && q.Some? && o.repo == r && Rel(mode, sem, o.repo, o.loop, q.value)
  {
    var sid := Chain(lp.prev.sid.value, input);
    FindSidExact(r, sid, lp.tag);
    assert CoherentAt(sem, r, lp.prev.hash.value) && CoherentAt(sem, r, FindSid(r, sid, lp.tag).value);
    EvalStep(sem, lp.prev.sid.value, input, p.cur.value);
    SameOthers(sem, r, p, PExecute(sem, p, input).value);
  }

  lemma MissRel(mode: Mode, sem: Semantics, r: Repo, lp: Loop, p: PState, input: string)
    requires Rel(mode, sem, r, lp, p) && p.cur.Some?
    requires Seek(mode, r, Chain(lp.prev.sid.value, input), lp.tag).None?
    ensures var o, q := Prepared(mode, sem, r, lp, input), PExecute(sem, p, input);
            && (o.ok <==> q.Some?)
            && (q.Some? ==> Rel(mode, sem, o.repo, o.loop, q.value))
            && (q.None? ==> Sound(sem, o.repo) && OthersSynced(sem, o.repo, p))
  {
    var h, sid := lp.prev.hash.value, Chain(lp.prev.sid.value, input);
    var s := if lp.missCt == 0 then Checkout(r, lp.tag, h) else r;
    assert CoherentAt(sem, r, h);
    if mode.Enabled? {
      FindSidExact(r, sid, lp.tag);
      UnknownAfter(r, lp.tag, h, sid, s);
    }
    StartsFromParent(mode, sem, r, lp, p);
    ExecuteRel(mode, sem, s, lp, p, input, sid);
  }

  /** When an instruction is executed, the image directory holds the previous
      instruction's image, at its commit, thanks to the one checkout at the first
      miss of the stage. */
  lemma StartsFromParent(mode: Mode, sem: Semantics, r: Repo, lp: Loop, p: PState)
    requires Rel(mode, sem, r, lp, p) && p.cur.Some?
    ensures var s := if lp.missCt == 0 then Checkout(r, lp.tag, lp.prev.hash.value) else r;
            && Sound(sem, s) && OthersSynced(sem, s, p) && s.commits == r.commits
            && lp.tag in s.dirs && s.dirs[lp.tag].Linked?
            && s.dirs[lp.tag].head == lp.prev.hash.value && s.dirs[lp.tag].image.core == p.cur.value
  {
    if lp.missCt == 0 {
      CheckoutRel(sem, r, p, lp.prev.hash.value);
    } else {
      assert DirOk(r, lp.tag);
    }
  }

  lemma UnknownAfter(r: Repo, n: Name, h: Hash, sid: Sid, s: Repo)
    requires Findable(r, h) && Unknown(r, sid) && (s == r || s == Checkout(r, n, h))
    ensures Unknown(s, sid)
  {
    CheckoutAt(r, n, h);
    forall x: Hash | Findable(s, x) ensures s.commits[x].sid != sid {
      if s != r { CheckoutFindsNoMore(r, n, h, x); }
    }
  }

  // ---------------------------------------------------------------------------
  // Between stages

  /** ready() on a checked-out image. */
  lemma ReadyRel(sem: Semantics, r: Repo, p: PState)
    requires Sound(sem, r) && OthersSynced(sem, r, p) && p.cur.Some?
    requires p.tag in r.dirs && r.dirs[p.tag].Linked? && r.dirs[p.tag].image.core == p.cur.value
    requires r.commits[r.dirs[p.tag].head].sid.Chain?
    ensures Sound(sem, Ready(r, p.tag)) && AllSynced(sem, Ready(r, p.tag), PClose(p).imgs, PClose(p).torn)
  {
    ReadyAt(r, p.tag);
    ReadiedRel(sem, r, Ready(r, p.tag), p);
  }

  lemma ReadiedRel(sem: Semantics, r: Repo, s: Repo, p: PState)
    requires Sound(sem, r) && OthersSynced(sem, r, p) && p.cur.Some? && Readied(r, p.tag, s)
    requires r.dirs[p.tag].image.core == p.cur.value && r.commits[r.dirs[p.tag].head].sid.Chain?
    ensures Sound(sem, s) && AllSynced(sem, s, PClose(p).imgs, PClose(p).torn)
  {
    var q := PClose(p);
    ReadyInv(r, p.tag, s);
    forall x | x in s.commits ensures CoherentAt(sem, s, x) { assert CoherentAt(sem, r, x); }
    forall n | n !in q.torn ensures Synced(sem, s, q.imgs, n) { if n != p.tag { assert Synced(sem, r, p.imgs, n); } }
  }

  /** Closing a stage, if there is one. */
  lemma CloseRel(mode: Mode, sem: Semantics, r: Repo, lp: Loop, p: PState)
    requires Rel(mode, sem, r, lp, p)
    ensures Sound(sem, Closed(r, lp)) && AllSynced(sem, Closed(r, lp), PClose(p).imgs, PClose(p).torn)
  {
    if p.cur.Some? {
      if lp.missCt == 0 {
        CheckoutRel(sem, r, p, lp.prev.hash.value);
        ReadyRel(sem, Checkout(r, lp.tag, lp.prev.hash.value), p);
      } else {
        assert DirOk(r, lp.tag);
        ReadyRel(sem, r, p);
      }
    }
  }

  /** A base image put into the cache. */
  lemma AddBaseRel(
      sem: Semantics, r: Repo, imgs: map<Name, Core>, torn: set<Name>, n: Name, input: string, image: Image)
    requires Sound(sem, r) && image.core == sem.pulled(input)
    requires forall m :: m !in torn && m != n ==> Synced(sem, r, imgs, m)
    ensures var s := AddBase(sem, r, n, input, image);
            && Sound(sem, s) && AllSynced(sem, s, imgs[n := image.core], torn - {n}) && n in s.ready
  {
    var p := PState(map[], imgs, torn, map[], n, Some(image.core));
    CheckoutRel(sem, r, p, 0);
    CommitBase(sem, Checkout(r, n, 0), p, input, image, sem.larges(image.core.files));
  }

  lemma CommitBase(sem: Semantics, r: Repo, p: PState, input: string, image: Image, larges: set<string>)
    requires Sound(sem, r) && OthersSynced(sem, r, p) && p.cur == Some(image.core) && image.core == sem.pulled(input)
    requires p.tag in r.dirs && r.dirs[p.tag].Linked? && r.dirs[p.tag].head == 0
    ensures var s := Ready(CommitTo(r, p.tag, Chain(Root, input), image, larges), p.tag);
            && Sound(sem, s) && AllSynced(sem, s, PClose(p).imgs, PClose(p).torn) && p.tag in s.ready
  {
    var sid := Chain(Root, input);
    var s, c := CommitTo(r, p.tag, sid, image, larges), Commit(sid, image, larges, Some(0));
    CommitAt(r, p.tag, sid, image, larges);
    CommitCoherent(sem, r, p.tag, c, s);
    CommitOthers(sem, r, p, c, s);
    ReadyRel(sem, s, p);
  }

  lemma FindBaseRel(sem: Semantics, r: Repo, imgs: map<Name, Core>, torn: set<Name>, ref: Name)
    requires Sound(sem, r) && AllSynced(sem, r, imgs, torn) && ref !in torn
    ensures var b, c := FindBase(sem, r, ref), PBase(sem, imgs, ref);
            && (b.Some? <==> c.Some?)
            && (b.Some? ==> Sound(sem, b.value) && AllSynced(sem, b.value, imgs[ref := c.value], torn) && ref in b.value.ready)
  {
    assert Synced(sem, r, imgs, ref);
    if ref in r.ready {
      assert imgs[ref := imgs[ref]] == imgs;
    } else if ref in r.dirs {
      AdoptRel(sem, r, imgs, torn, ref);
    } else if sem.manifest(ref).Some? {
      PullRel(sem, r, imgs, torn, ref, sem.manifest(ref).value);
    }
  }

  lemma AdoptRel(sem: Semantics, r: Repo, imgs: map<Name, Core>, torn: set<Name>, ref: Name)
    requires Sound(sem, r) && AllSynced(sem, r, imgs, torn) && ref !in torn && ref !in r.ready && ref in r.dirs
    ensures r.dirs[ref].Bare? && ref in imgs
    ensures var s := Adopt(sem, r, ref);
            Sound(sem, s) && AllSynced(sem, s, imgs[ref := imgs[ref]], torn) && ref in s.ready
  {
    assert Synced(sem, r, imgs, ref);
    var i := r.dirs[ref].image;
    assert i.core.(vars := i.core.vars + DEFAULTS) == i.core;
    AddBaseRel(sem, r, imgs, torn, ref, "IMPORT " + ref, i);
  }

  lemma PullRel(sem: Semantics, r: Repo, imgs: map<Name, Core>, torn: set<Name>, ref: Name, m: string)
    requires Sound(sem, r) && AllSynced(sem, r, imgs, torn) && ref !in torn && ref !in r.ready && ref !in r.dirs
    ensures var s := Pull(sem, r, ref, m);
            Sound(sem, s) && AllSynced(sem, s, imgs[ref := sem.pulled(m)], torn) && ref in s.ready
  {
    assert r.(dirs := r.dirs - {ref}) == r;
    AddBaseRel(sem, r, imgs, torn, ref, m, Image(sem.pulled(m), []));
  }

  /** What a FROM must find for its stage to be the same whether or not the cache is
      used: the base image's metadata already has the default and pre-FROM
      variables (they are merged in, but are in no state ID), and the tag is new. */
  ghost predicate Settled(sem: Semantics, p: PState, inst: Inst) {
    inst.From? ==>
      var q, af := PClose(p), p.argfrom + inst.args;
      var b := PBase(sem, q.imgs, inst.ref);
      && inst.tag !in q.built && inst.ref !in q.torn
      && (b.Some? ==> b.value.vars + DEFAULTS == b.value.vars && b.value.vars + af == b.value.vars)
  }

  /** FROM: either the new stage is open in both, or the directories of base and target
      are gone and everything else is as the reference says. */
  lemma FromRel(mode: Mode, sem: Semantics, r: Repo, lp: Loop, p: PState, ref: Name, args: Vars, tag: Name)
    requires Rel(mode, sem, r, lp, p) && Settled(sem, p, From(ref, args, tag))
    ensures var inst := From(ref, args, tag);
            var o, q := Visit(mode, sem, r, lp, inst), PVisit(sem, p, inst);
            && (o.ok <==> q.Some?)
            && (q.Some? ==> Rel(mode, sem, o.repo, o.loop, q.value))
            && (q.None? ==> Left(sem, o.repo, p, inst))
  {
    if ref == tag {
      RolledBackLeft(sem, r, p, From(ref, args, tag));
    } else {
      CloseRel(mode, sem, r, lp, p);
      FromOnRel(mode, sem, Closed(r, lp), lp, p, ref, args, tag);
      RolledBackLeft(sem, Closed(r, lp), p, From(ref, args, tag));
    }
  }

  lemma FromOnRel(mode: Mode, sem: Semantics, r: Repo, lp: Loop, p: PState, ref: Name, args: Vars, tag: Name)
    requires Sound(sem, r) && AllSynced(sem, r, PClose(p).imgs, PClose(p).torn) && Alike(lp, p) && BuiltOk(p)
    requires tag != ref && Settled(sem, p, From(ref, args, tag))
    ensures var o, b := FromOn(sem, r, lp, ref, args, tag), PBase(sem, PClose(p).imgs, ref);
            && (o.ok <==> b.Some?)
            && (b.Some? ==> Rel(mode, sem, o.repo, o.loop, POpened(p, ref, args, tag, b.value)))
            && (b.None? ==> o.repo == r)
  {
    FindBaseRel(sem, r, PClose(p).imgs, PClose(p).torn, ref);
    if PBase(sem, PClose(p).imgs, ref).Some? {
      OpenRel(mode, sem, FindBase(sem, r, ref).value, lp, p, ref, args, tag, PBase(sem, PClose(p).imgs, ref).value);
    }
  }

  lemma OpenRel(mode: Mode, sem: Semantics, r: Repo, lp: Loop, p: PState, ref: Name, args: Vars, tag: Name, b: Core)
    requires ref in r.ready && Sound(sem, r) && AllSynced(sem, r, PClose(p).imgs[ref := b], PClose(p).torn)
    requires Alike(lp, p) && BuiltOk(p)
    requires PBase(sem, PClose(p).imgs, ref) == Some(b)
    requires tag != ref && Settled(sem, p, From(ref, args, tag))
    ensures var o := OpenStage(sem, r, lp, ref, args, tag);
            o.ok && o.repo == r && Rel(mode, sem, r, o.loop, POpened(p, ref, args, tag, b))
  {
    assert Synced(sem, r, PClose(p).imgs[ref := b], ref);
    InStepLoads(sem, r, ref, b, p.argfrom + args);
    OpenAlike(sem, r, lp, p, ref, args, tag, b);
    OpenInStage(mode, sem, r, lp, ref, args, tag, b);
    BuiltStays(sem, p, ref, b);
    StageOthers(sem, r, p, POpened(p, ref, args, tag, b));
  }

  /** Files of the branch and metadata of the directory are the same image's. */
  lemma InStepLoads(sem: Semantics, r: Repo, ref: Name, b: Core, af: Vars)
    requires Sound(sem, r) && ref in r.ready && ref in r.dirs && r.dirs[ref].Linked?
    requires r.dirs[ref].head == r.ready[ref] && r.dirs[ref].image.core == b
    requires b.vars + DEFAULTS == b.vars && b.vars + af == b.vars
    ensures Opens(sem, r, ref, b, af)
  {
    assert DirOk(r, ref);
  }

  /** FROM opens a stage on exactly the image `b` of the branch. */
  ghost predicate Opens(sem: Semantics, r: Repo, ref: Name, b: Core, af: Vars) {
    && ref in r.ready && r.ready[ref] in r.commits
    && r.commits[r.ready[ref]].image.core == b && r.commits[r.ready[ref]].sid.Chain?
    && LoadVars(sem.initial, r, ref) + af == b.vars
  }

  lemma OpenAlike(sem: Semantics, r: Repo, lp: Loop, p: PState, ref: Name, args: Vars, tag: Name, b: Core)
    requires Alike(lp, p) && ref in r.ready && r.ready[ref] in r.commits
    requires b.vars + DEFAULTS == b.vars && b.vars + (p.argfrom + args) == b.vars
    ensures Alike(OpenStage(sem, r, lp, ref, args, tag).loop, POpened(p, ref, args, tag, b))
    ensures POpened(p, ref, args, tag, b).cur == Some(b)
  {
    assert PClose(p).built.Keys == lp.done + (if lp.prev.InImage? then {lp.tag} else {});
  }

  lemma OpenInStage(mode: Mode, sem: Semantics, r: Repo, lp: Loop, ref: Name, args: Vars, tag: Name, b: Core)
    requires Inv(r) && Opens(sem, r, ref, b, lp.argfrom + args)
    ensures var o := OpenStage(sem, r, lp, ref, args, tag); o.ok && o.repo == r && InStage(mode, r, o.loop, b)
  {
    ReadyFindable(r, ref);
  }

  lemma ReadyFindable(r: Repo, n: Name)
    requires Inv(r) && n in r.ready
    ensures Findable(r, r.ready[n])
  {
    assert Tip(r, r.ready[n]) && Anc(r.commits, r.ready[n], r.ready[n]);
  }

  lemma BuiltStays(sem: Semantics, p: PState, ref: Name, b: Core)
    requires BuiltOk(p) && PBase(sem, PClose(p).imgs, ref) == Some(b)
    ensures Holds(PClose(p).imgs[ref := b], PClose(p).built)
  {
  }

  ghost predicate Holds(imgs: map<Name, Core>, built: map<Name, Core>) {
    forall t :: t in built ==> t in imgs && imgs[t] == built[t]
  }

  lemma StageOthers(sem: Semantics, r: Repo, p: PState, q: PState)
    requires AllSynced(sem, r, q.imgs, q.torn) && BuiltOk(p) && q.cur.Some?
    requires q.built == PClose(p).built && q.torn == PClose(p).torn && q.tag !in q.built
    requires Holds(q.imgs, q.built)
    ensures OthersSynced(sem, r, q) && BuiltOk(q)
  {
  }

  /** A program whose every FROM is settled when it is reached. */
  ghost predicate SettledAll(sem: Semantics, p: PState, prog: seq<Inst>) {
    prog == [] ||
    (SettledAll(sem, p, prog[..|prog| - 1]) &&
     (PVisitAll(sem, p, prog[..|prog| - 1]).ok ==>
        Settled(sem, PVisitAll(sem, p, prog[..|prog| - 1]).state, prog[|prog| - 1])))
  }

  lemma VisitRel(mode: Mode, sem: Semantics, r: Repo, lp: Loop, p: PState, inst: Inst)
    requires Rel(mode, sem, r, lp, p) && Settled(sem, p, inst)
    ensures var o, q := Visit(mode, sem, r, lp, inst), PVisit(sem, p, inst);
            && (o.ok <==> q.Some?)
            && (q.Some? ==> Rel(mode, sem, o.repo, o.loop, q.value))
            && (q.None? ==> Left(sem, o.repo, p, inst))
  {
    match inst
    case Ignored =>
    case Refused(_) =>
      RolledBackLeft(sem, r, p, inst);
    case ArgFirst(k, v) =>
      OpenLeft(sem, r, p, inst);
      if p.cur.None? { assert OthersSynced(sem, r, PVisit(sem, p, inst).value); }
    case From(ref, args, tag) =>
      FromRel(mode, sem, r, lp, p, ref, args, tag);
    case Step(op) =>
      StepRel(mode, sem, r, lp, p, op);
  }

  lemma {:induction false} VisitAllRel(mode: Mode, sem: Semantics, r: Repo, p: PState, prog: seq<Inst>)
    requires Rel(mode, sem, r, START, p) && SettledAll(sem, p, prog)
    ensures var o, q := VisitAll(mode, sem, r, prog), PVisitAll(sem, p, prog);
            && (o.ok <==> q.ok)
            && (q.ok ==> Rel(mode, sem, o.repo, o.loop, q.state))
            && (!q.ok ==> Left(sem, o.repo, q.state, q.at))
  {
    if prog != [] {
      var init, inst := prog[..|prog| - 1], prog[|prog| - 1];
      VisitAllRel(mode, sem, r, p, init);
      var o := VisitAll(mode, sem, r, init);
      if o.ok { VisitRel(mode, sem, o.repo, o.loop, PVisitAll(sem, p, init).state, inst); }
    }
  }

  /** Cache transparency: from any sound cache, whatever earlier builds left in it, a
      build succeeds just when plain execution does, and then with the same images in
      storage. A build that fails tears the image of the stage it was in; if what failed
      is a FROM, then the directories of its base and target are gone, and those of
      the two that are in the cache are torn. */
  lemma Transparency(mode: Mode, sem: Semantics, r: Repo, imgs: map<Name, Core>, torn: set<Name>, prog: seq<Inst>)
    requires Sound(sem, r) && AllSynced(sem, r, imgs, torn)
    requires SettledAll(sem, PStart(imgs, torn), prog)
    ensures var o, q := Build(mode, sem, r, prog), PVisitAll(sem, PStart(imgs, torn), prog);
            var w := PAfter(q, o.repo.ready.Keys);
            && (o.ok <==> q.ok) && Sound(sem, o.repo) && AllSynced(sem, o.repo, w.imgs, w.torn)
            && (!q.ok ==> forall n :: n in Doomed(TagOf(q.state), q.at) ==> n !in o.repo.dirs)
  {
    var p := PStart(imgs, torn);
    assert OthersSynced(sem, r, p);
    VisitAllRel(mode, sem, r, p, prog);
    var o, q := VisitAll(mode, sem, r, prog), PVisitAll(sem, p, prog);
    if q.ok { CloseRel(mode, sem, o.repo, o.loop, q.state); }
  }

  /** FROM fails on these grounds alone, the previous stage being closed. */
  predicate FromFails(sem: Semantics, r: Repo, ref: Name, tag: Name) {
    ref == tag || (ref !in r.ready && !(ref in r.dirs && r.dirs[ref].Bare?) && sem.manifest(ref).None?)
  }

  /** Which image directories survive a FROM: all of them if it succeeds, and all but
      its base's and its target's if it fails. The branches stay either way. */
  lemma SurvivesFrom(mode: Mode, sem: Semantics, r: Repo, lp: Loop, ref: Name, args: Vars, tag: Name, n: Name)
    requires Inv(Closed(r, lp)) && n in r.dirs
    ensures var o, c := Visit(mode, sem, r, lp, From(ref, args, tag)), Closed(r, lp);
            && (o.ok <==> !FromFails(sem, c, ref, tag))
            && (n in o.repo.dirs <==> o.ok || (n != ref && n != tag))
            && (n in r.ready ==> n in o.repo.ready)
  {
    if ref == tag {
    } else {
      ClosedKeeps(r, lp, n);
      SurvivesOn(sem, Closed(r, lp), lp, ref, args, tag);
    }
  }

  /** And which survive a FROM that is refused before it gets that far: all but its base's,
      if that is known, and that of the stage before it. */
  lemma SurvivesRefused(mode: Mode, sem: Semantics, r: Repo, lp: Loop, base: Option<Name>, n: Name)
    requires n in r.dirs
    ensures var o := Visit(mode, sem, r, lp, Refused(base));
            && !o.ok && o.loop == lp && o.repo == r.(dirs := o.repo.dirs)
            && (n in o.repo.dirs <==> base != Some(n) && !(lp.prev.InImage? && n == lp.tag))
            && (n in o.repo.dirs ==> o.repo.dirs[n] == r.dirs[n])
  {
  }

  lemma SurvivesOn(sem: Semantics, r: Repo, lp: Loop, ref: Name, args: Vars, tag: Name)
    requires Inv(r) && ref != tag
    ensures var o := FromOn(sem, r, lp, ref, args, tag);
            && (o.ok <==> !FromFails(sem, r, ref, tag)) && (!o.ok ==> o.repo == r)
            && r.dirs.Keys <= o.repo.dirs.Keys && r.ready.Keys <= o.repo.ready.Keys
  {
    if FindBase(sem, r, ref).Some? { FoundBase(sem, r, ref, FindBase(sem, r, ref).value); }
  }

  lemma FoundBase(sem: Semantics, r: Repo, ref: Name, s: Repo)
    requires Inv(r) && FindBase(sem, r, ref) == Some(s)
    ensures BaseThere(r, ref, s)
  {
    if ref !in r.ready {
      if ref in r.dirs && r.dirs[ref].Bare? { AdoptedBase(sem, r, ref); } else { PulledBase(sem, r, ref, sem.manifest(ref).value); }
    }
  }

  lemma AdoptedBase(sem: Semantics, r: Repo, ref: Name)
    requires ref in r.dirs && r.dirs[ref].Bare?
    ensures BaseThere(r, ref, Adopt(sem, r, ref))
  {
    var i := r.dirs[ref].image;
    BaseAdded(sem, r, ref, "IMPORT " + ref, i.(core := i.core.(vars := i.core.vars + DEFAULTS)));
  }

  lemma PulledBase(sem: Semantics, r: Repo, ref: Name, m: string)
    ensures BaseThere(r, ref, Pull(sem, r, ref, m))
  {
    BaseAdded(sem, r.(dirs := r.dirs - {ref}), ref, m, Image(sem.pulled(m), []));
  }

  ghost predicate BaseThere(r: Repo, n: Name, s: Repo) {
    && n in s.ready && s.ready[n] in s.commits
    && r.dirs.Keys <= s.dirs.Keys && r.ready.Keys <= s.ready.Keys
  }

  lemma BaseAdded(sem: Semantics, r: Repo, n: Name, input: string, image: Image)
    ensures BaseThere(r, n, AddBase(sem, r, n, input, image)) && n in AddBase(sem, r, n, input, image).dirs
  {
    var c := Checkout(r, n, 0);
    CheckoutAt(r, n, 0);
    var larges := sem.larges(image.core.files);
    CommitAt(c, n, Chain(Root, input), image, larges);
    ReadyAt(CommitTo(c, n, Chain(Root, input), image, larges), n);
  }

  lemma ClosedKeeps(r: Repo, lp: Loop, n: Name)
    requires n in r.dirs
    ensures n in Closed(r, lp).dirs && (n in r.ready ==> n in Closed(r, lp).ready)
  {
  }
}
