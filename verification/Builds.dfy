/**
  Whole histories of builds: the third cache mode, in which nothing is cached, and
  sequences of commands that share one cache and one storage directory.
 */
module Builds {
  import opened BuildCache
  import opened MainLoop

  // ---------------------------------------------------------------------------
  // The cache disabled

  datatype DOut = DOut(ok: bool, dirs: map<Name, Dir>, loop: Loop)

  /** pull_lazy() and adopt() without a cache: the base image's directory. */
  function DBase(sem: Semantics, dirs: map<Name, Dir>, ref: Name): Option<map<Name, Dir>> {
    if ref in dirs then
      var i := dirs[ref].image;
      Some(if dirs[ref].Bare? then dirs[ref := Bare(i.(core := i.core.(vars := i.core.vars + DEFAULTS)))] else dirs)
    else match sem.manifest(ref)
      case None => None
      case Some(m) => Some(dirs[ref := Bare(Image(sem.pulled(m), []))])
  }

  function DBuilt(dirs: map<Name, Dir>, done: set<Name>): map<Name, Core> {
    map t | t in done && t in dirs :: dirs[t].image.core
  }

  /** FROM always misses, which copies the base image; so does everything else,
      which does not. */
  function DFrom(sem: Semantics, dirs: map<Name, Dir>, lp: Loop, ref: Name, args: Vars, tag: Name): DOut {
    if ref == tag then DOut(false, dirs, lp)
    else match DBase(sem, dirs, ref)
      case None => DOut(false, dirs, lp)
      case Some(b) => DOpen(b, lp, ref, args, tag)
  }

  function DOpen(dirs: map<Name, Dir>, lp: Loop, ref: Name, args: Vars, tag: Name): DOut {
    if ref !in dirs then DOut(false, dirs, lp)
    else
      var i, af := dirs[ref].image, lp.argfrom + args;
      DOut(true, dirs[tag := Bare(i)],
           Loop(1, InImage(None, None), lp.total + 1, af, i.core.vars + DEFAULTS + af, i.history, tag,
                lp.done + (if lp.prev.InImage? then {lp.tag} else {})))
  }

  function DStep(sem: Semantics, dirs: map<Name, Dir>, lp: Loop, op: string): DOut {
    if !lp.prev.InImage? || lp.tag !in dirs then DOut(false, dirs, lp)
    else match sem.input(op, lp.vars, DBuilt(dirs, lp.done))
      case None => DOut(false, dirs, lp)
      case Some(input) =>
        var i, vars := dirs[lp.tag].image, sem.effect(input, lp.vars);
        match sem.run(input, Core(i.core.files, vars))
        case Failed(partial) =>
          DOut(false, dirs[lp.tag := Bare(Image(Core(partial, i.core.vars), i.history))], lp)
        case Done(files) =>
          var history := lp.history + [input];
          DOut(true, dirs[lp.tag := Bare(Image(Core(files, vars), history))],
               lp.(missCt := lp.missCt + 1, vars := vars, history := history, total := lp.total + 1))
  }

  function DVisit(sem: Semantics, dirs: map<Name, Dir>, lp: Loop, inst: Inst): DOut {
    match inst
    case Ignored => DOut(true, dirs, lp)
    case ArgFirst(k, v) => var o := VisitArg(FRESH, lp, k, v); DOut(o.ok, dirs, o.loop)
    case Refused(_) => DOut(false, dirs - Doomed(LoopTag(lp), inst), lp)
    case From(ref, args, tag) =>
      var o := DFrom(sem, dirs, lp, ref, args, tag);
      if o.ok then o else DOut(false, o.dirs - Doomed(LoopTag(lp), inst), lp)
    case Step(op) => DStep(sem, dirs, lp, op)
  }

  function DBuild(sem: Semantics, dirs: map<Name, Dir>, prog: seq<Inst>): DOut {
    if prog == [] then DOut(true, dirs, START)
    else
      var o := DBuild(sem, dirs, prog[..|prog| - 1]);
      if o.ok then DVisit(sem, o.dirs, o.loop, prog[|prog| - 1]) else o
  }

  ghost predicate DSame(dirs: map<Name, Dir>, imgs: map<Name, Core>, n: Name) {
    (n in dirs <==> n in imgs) && (n in dirs && n in imgs ==> dirs[n].image.core == imgs[n])
  }

  ghost predicate DRel(dirs: map<Name, Dir>, lp: Loop, p: PState) {
    && Alike(lp, p) && BuiltOk(p)
    && (forall n :: n !in p.torn && (p.cur.Some? ==> n != p.tag) ==> DSame(dirs, p.imgs, n))
    && (p.cur.Some? ==> lp.tag in dirs && dirs[lp.tag].image.core == p.cur.value && lp.vars == p.cur.value.vars)
  }

  /** What a failed instruction leaves in storage: a failed execution leaves its own
      image in pieces, a failed FROM no directory of its base and target. */
  ghost predicate DLeft(dirs: map<Name, Dir>, p: PState, inst: Inst) {
    var w, d := PStopped(p, inst, {}), Doomed(TagOf(p), inst);
    (forall n :: n !in w.torn ==> DSame(dirs, w.imgs, n)) && (forall n :: n in d ==> n !in dirs)
  }

  lemma DOpenLeft(dirs: map<Name, Dir>, e: map<Name, Dir>, lp: Loop, p: PState, inst: Inst)
    requires DRel(dirs, lp, p) && Doomed(TagOf(p), inst) == {}
    requires e == dirs || (p.cur.Some? && lp.tag in e && e == dirs[lp.tag := e[lp.tag]])
    ensures DLeft(e, p, inst)
  {
    assert p.imgs - {} == p.imgs;
    forall n | n !in PStopped(p, inst, {}).torn ensures DSame(e, p.imgs, n) { assert DSame(dirs, p.imgs, n); }
  }

  lemma DRolledBack(dirs: map<Name, Dir>, lp: Loop, p: PState, inst: Inst)
    requires DRel(dirs, lp, p)
    ensures DLeft(dirs - Doomed(TagOf(p), inst), p, inst)
  {
    DCloseRel(dirs, lp, p);
    var q, d := if inst.From? && inst.ref != inst.tag then PClose(p) else p, Doomed(TagOf(p), inst);
    forall n | n !in PStopped(p, inst, {}).torn ensures DSame(dirs - d, q.imgs - d, n) {
      if n !in d { assert DSame(dirs, q.imgs, n); }
    }
  }

  lemma DFromRel(sem: Semantics, dirs: map<Name, Dir>, lp: Loop, p: PState, ref: Name, args: Vars, tag: Name)
    requires DRel(dirs, lp, p) && Settled(sem, p, From(ref, args, tag))
    ensures var o, q := DFrom(sem, dirs, lp, ref, args, tag), PVisit(sem, p, From(ref, args, tag));
            (o.ok <==> q.Some?) && (q.Some? ==> DRel(o.dirs, o.loop, q.value)) && (!o.ok ==> o.dirs == dirs)
  {
    DCloseRel(dirs, lp, p);
    var c := PClose(p);
    assert DSame(dirs, c.imgs, ref);
    if ref != tag && PBase(sem, c.imgs, ref).Some? {
      var b := PBase(sem, c.imgs, ref).value;
      DBaseRel(sem, dirs, c.imgs, c.torn, ref, b);
      DOpenRel(DBase(sem, dirs, ref).value, lp, p, ref, args, tag, b);
    }
  }

  lemma DBaseRel(
      sem: Semantics, dirs: map<Name, Dir>, imgs: map<Name, Core>, torn: set<Name>, ref: Name, b: Core)
    requires PBase(sem, imgs, ref) == Some(b) && b.vars + DEFAULTS == b.vars && ref !in torn
    requires forall n :: n !in torn ==> DSame(dirs, imgs, n)
    ensures var e := DBase(sem, dirs, ref);
            e.Some? && ref in e.value && forall n :: n !in torn ==> DSame(e.value, imgs[ref := b], n)
  {
    assert DSame(dirs, imgs, ref);
    if ref in dirs { assert b.(vars := b.vars + DEFAULTS) == b; }
    forall n | n !in torn ensures DSame(DBase(sem, dirs, ref).value, imgs[ref := b], n) { assert DSame(dirs, imgs, n); }
  }

  lemma DOpenRel(dirs: map<Name, Dir>, lp: Loop, p: PState, ref: Name, args: Vars, tag: Name, b: Core)
    requires Alike(lp, p) && BuiltOk(p) && ref in dirs && tag !in PClose(p).built && ref !in PClose(p).torn
    requires forall n :: n !in PClose(p).torn ==> DSame(dirs, PClose(p).imgs[ref := b], n)
    requires b.vars + DEFAULTS == b.vars && b.vars + (p.argfrom + args) == b.vars
    requires forall t :: t in PClose(p).built ==>
               t in PClose(p).imgs[ref := b] && PClose(p).imgs[ref := b][t] == PClose(p).built[t]
    ensures var o := DOpen(dirs, lp, ref, args, tag); o.ok && DRel(o.dirs, o.loop, POpened(p, ref, args, tag, b))
  {
    var q := POpened(p, ref, args, tag, b);
    assert DSame(dirs, q.imgs, ref);
    assert b.vars + DEFAULTS + (p.argfrom + args) == b.vars;
    forall n | n !in q.torn && n != tag ensures DSame(dirs[tag := Bare(dirs[ref].image)], q.imgs, n) {
      assert DSame(dirs, q.imgs, n);
    }
  }

  lemma DCloseRel(dirs: map<Name, Dir>, lp: Loop, p: PState)
    requires DRel(dirs, lp, p)
    ensures forall n :: n !in PClose(p).torn ==> DSame(dirs, PClose(p).imgs, n)
  {
    forall n | n !in PClose(p).torn ensures DSame(dirs, PClose(p).imgs, n) {
      if n != p.tag || p.cur.None? { assert DSame(dirs, p.imgs, n); }
    }
  }

  lemma DStepRel(sem: Semantics, dirs: map<Name, Dir>, lp: Loop, p: PState, op: string)
    requires DRel(dirs, lp, p)
    ensures var o, q := DStep(sem, dirs, lp, op), PVisit(sem, p, Step(op));
            && (o.ok <==> q.Some?) && (q.Some? ==> DRel(o.dirs, o.loop, q.value))
            && (!o.ok ==> DLeft(o.dirs, p, Step(op)))
  {
    if p.cur.Some? {
      forall t | t in p.built ensures t in dirs && dirs[t].image.core == p.built[t] {
        assert DSame(dirs, p.imgs, t);
      }
      assert DBuilt(dirs, lp.done) == p.built;
      var o, q := DStep(sem, dirs, lp, op), PVisit(sem, p, Step(op));
      if q.Some? {
        forall n | n !in p.torn && n != p.tag ensures DSame(o.dirs, q.value.imgs, n) { assert DSame(dirs, p.imgs, n); }
      }
    }
    if !DStep(sem, dirs, lp, op).ok { DOpenLeft(dirs, DStep(sem, dirs, lp, op).dirs, lp, p, Step(op)); }
  }

  /** Building without a cache is plain execution, also in what a failure leaves behind. */
  lemma {:induction false} DisabledIsPlain(
      sem: Semantics, dirs: map<Name, Dir>, imgs: map<Name, Core>, torn: set<Name>, prog: seq<Inst>)
    requires forall n :: n !in torn ==> DSame(dirs, imgs, n)
    requires SettledAll(sem, PStart(imgs, torn), prog)
    ensures var o, q := DBuild(sem, dirs, prog), PVisitAll(sem, PStart(imgs, torn), prog);
            && (o.ok <==> q.ok) && (q.ok ==> DRel(o.dirs, o.loop, q.state))
            && (!q.ok ==> DLeft(o.dirs, q.state, q.at))
  {
    if prog != [] {
      var init, inst := prog[..|prog| - 1], prog[|prog| - 1];
      DisabledIsPlain(sem, dirs, imgs, torn, init);
      var o, q := DBuild(sem, dirs, init), PVisitAll(sem, PStart(imgs, torn), init);
      if o.ok { DVisitRel(sem, o.dirs, o.loop, q.state, inst); }
    }
  }

  lemma DVisitRel(sem: Semantics, dirs: map<Name, Dir>, lp: Loop, p: PState, inst: Inst)
    requires DRel(dirs, lp, p) && Settled(sem, p, inst)
    ensures var o, q := DVisit(sem, dirs, lp, inst), PVisit(sem, p, inst);
            && (o.ok <==> q.Some?) && (q.Some? ==> DRel(o.dirs, o.loop, q.value))
            && (!o.ok ==> DLeft(o.dirs, p, inst))
  {
    match inst
    case Ignored =>
    case ArgFirst(k, v) =>
      DOpenLeft(dirs, dirs, lp, p, inst);
    case Refused(_) =>
      DRolledBack(dirs, lp, p, inst);
    case From(ref, args, tag) =>
      DFromRel(sem, dirs, lp, p, ref, args, tag);
      DRolledBack(dirs, lp, p, inst);
    case Step(op) => DStepRel(sem, dirs, lp, p, op);
  }

  /** What a build in a mode with a cache leaves in storage is what the reference says. */
  lemma CachedImage(
      mode: Mode, sem: Semantics, r: Repo, imgs: map<Name, Core>, torn: set<Name>, prog: seq<Inst>, n: Name)
    requires Sound(sem, r) && AllSynced(sem, r, imgs, torn) && SettledAll(sem, PStart(imgs, torn), prog)
    requires n !in torn
    ensures var o, q := Build(mode, sem, r, prog), PVisitAll(sem, PStart(imgs, torn), prog);
            (o.ok <==> q.ok) && (q.ok ==> DSame(o.repo.dirs, PClose(q.state).imgs, n))
  {
    Transparency(mode, sem, r, imgs, torn, prog);
    TornShrinks(sem, PStart(imgs, torn), prog);
    var o, q := Build(mode, sem, r, prog), PVisitAll(sem, PStart(imgs, torn), prog);
    if q.ok { assert Synced(sem, o.repo, PClose(q.state).imgs, n); }
  }

  lemma DisabledImage(
      sem: Semantics, r: Repo, imgs: map<Name, Core>, torn: set<Name>, prog: seq<Inst>, n: Name)
    requires AllSynced(sem, r, imgs, torn) && SettledAll(sem, PStart(imgs, torn), prog) && n !in torn
    ensures var o, q := DBuild(sem, r.dirs, prog), PVisitAll(sem, PStart(imgs, torn), prog);
            (o.ok <==> q.ok) && (q.ok ==> DSame(o.dirs, PClose(q.state).imgs, n))
  {
    forall m | m !in torn ensures DSame(r.dirs, imgs, m) { assert Synced(sem, r, imgs, m); }
    DisabledIsPlain(sem, r.dirs, imgs, torn, prog);
    TornShrinks(sem, PStart(imgs, torn), prog);
    var o, q := DBuild(sem, r.dirs, prog), PVisitAll(sem, PStart(imgs, torn), prog);
    if q.ok { DCloseRel(o.dirs, o.loop, q.state); }
  }

  /** The three modes agree: on success, and then on every image in storage, files
      and metadata, the history apart. */
  lemma ModesAgree(
      sem: Semantics, r: Repo, imgs: map<Name, Core>, torn: set<Name>, prog: seq<Inst>, n: Name)
    requires Sound(sem, r) && AllSynced(sem, r, imgs, torn) && SettledAll(sem, PStart(imgs, torn), prog) && n !in torn
    ensures var e, b, d := Build(Enabled, sem, r, prog), Build(Rebuild, sem, r, prog), DBuild(sem, r.dirs, prog);
            && (e.ok <==> b.ok) && (e.ok <==> d.ok)
            && (e.ok ==>
                  (n in e.repo.dirs <==> n in b.repo.dirs) && (n in e.repo.dirs <==> n in d.dirs) &&
                  (n in e.repo.dirs ==> e.repo.dirs[n].image.core == b.repo.dirs[n].image.core == d.dirs[n].image.core))
  {
    CachedImage(Enabled, sem, r, imgs, torn, prog, n);
    CachedImage(Rebuild, sem, r, imgs, torn, prog, n);
    DisabledImage(sem, r, imgs, torn, prog, n);
  }

  lemma {:induction false} TornShrinks(sem: Semantics, p: PState, prog: seq<Inst>)
    ensures PVisitAll(sem, p, prog).state.torn <= p.torn
  {
    if prog != [] { TornShrinks(sem, p, prog[..|prog| - 1]); }
  }

  // ---------------------------------------------------------------------------
  // Histories of commands

  datatype Cmd = BuildCmd(mode: Mode, prog: seq<Inst>) | DeleteCmd(image: Name) | UndeleteCmd(image: Name) | GcCmd

  function Do(sem: Semantics, r: Repo, cmd: Cmd): Repo {
    match cmd
    case BuildCmd(mode, prog) => Build(mode, sem, r, prog).repo
    case DeleteCmd(n) => if n in r.dirs then Delete(r, n) else r
    case UndeleteCmd(n) => if Undelete(r, n).Some? then Undelete(r, n).value else r
    case GcCmd => Gc(r)
  }

  function After(sem: Semantics, r: Repo, w: World, cmd: Cmd): World {
    match cmd
    case BuildCmd(mode, prog) =>
      PAfter(PVisitAll(sem, PStart(w.imgs, w.torn), prog), Build(mode, sem, r, prog).repo.ready.Keys)
    case DeleteCmd(n) => if n in r.dirs then World(w.imgs - {n}, w.torn - {n}) else w
    case UndeleteCmd(n) =>
      if Undelete(r, n).Some? then World(w.imgs[n := ImageAt(r, r.tags[n]).core], w.torn - {n}) else w
    case GcCmd => w
  }

  ghost predicate InStep(sem: Semantics, r: Repo, w: World) {
    Sound(sem, r) && AllSynced(sem, r, w.imgs, w.torn)
  }

  ghost predicate Admissible(sem: Semantics, w: World, cmd: Cmd) {
    cmd.BuildCmd? ==> SettledAll(sem, PStart(w.imgs, w.torn), cmd.prog)
  }

  lemma DeleteKeeps(sem: Semantics, r: Repo, w: World, n: Name)
    requires InStep(sem, r, w) && n in r.dirs
    ensures InStep(sem, Delete(r, n), World(w.imgs - {n}, w.torn - {n}))
  {
    DeleteAt(r, n);
    DeletedKeeps(sem, r, Delete(r, n), w, n);
  }

  lemma DeletedKeeps(sem: Semantics, r: Repo, s: Repo, w: World, n: Name)
    requires InStep(sem, r, w) && Deleted(r, n, s)
    ensures InStep(sem, s, World(w.imgs - {n}, w.torn - {n}))
  {
    DeleteInv(r, n, s);
    forall x | x in s.commits ensures CoherentAt(sem, s, x) { assert CoherentAt(sem, r, x); }
    forall m | m !in w.torn - {n} ensures Synced(sem, s, w.imgs - {n}, m) {
      if m != n { assert Synced(sem, r, w.imgs, m); }
    }
  }

  lemma UndeleteKeeps(sem: Semantics, r: Repo, w: World, n: Name)
    requires InStep(sem, r, w) && Undelete(r, n).Some?
    ensures InStep(sem, Undelete(r, n).value, World(w.imgs[n := ImageAt(r, r.tags[n]).core], w.torn - {n}))
  {
    var h := r.tags[n];
    var p := PState(map[], w.imgs, w.torn, map[], n, Some(ImageAt(r, h).core));
    CheckoutRel(sem, r, p, h);
    ReadyRel(sem, Checkout(r, n, h), p);
  }

  lemma CollectedSynced(sem: Semantics, r: Repo, s: Repo, imgs: map<Name, Core>, n: Name)
    requires Synced(sem, r, imgs, n) && Collected(r, s)
    ensures Synced(sem, s, imgs, n)
  {
    assert n in s.dirs.Keys <==> n in r.dirs.Keys;
    assert n in r.dirs ==> LogLost(r.dirs[n], s.dirs[n]);
  }

  lemma CollectedKeeps(sem: Semantics, r: Repo, s: Repo, w: World)
    requires InStep(sem, r, w) && Collected(r, s) && Inv(s)
    ensures InStep(sem, s, w)
  {
    forall x | x in s.commits ensures CoherentAt(sem, s, x) { assert CoherentAt(sem, r, x); }
    forall m | m !in w.torn ensures Synced(sem, s, w.imgs, m) {
      assert Synced(sem, r, w.imgs, m);
      CollectedSynced(sem, r, s, w.imgs, m);
    }
  }

  lemma GcKeeps(sem: Semantics, r: Repo, w: World)
    requires InStep(sem, r, w)
    ensures InStep(sem, Gc(r), w)
  {
    GcExact(r);
    CollectedKeeps(sem, r, Gc(r), w);
  }

  /** A command keeps cache and storage in step with the reference. */
  lemma DoKeeps(sem: Semantics, r: Repo, w: World, cmd: Cmd)
    requires InStep(sem, r, w) && Admissible(sem, w, cmd)
    ensures InStep(sem, Do(sem, r, cmd), After(sem, r, w, cmd))
  {
    match cmd
    case BuildCmd(mode, prog) => Transparency(mode, sem, r, w.imgs, w.torn, prog);
    case DeleteCmd(n) => if n in r.dirs { DeleteKeeps(sem, r, w, n); }
    case UndeleteCmd(n) => if Undelete(r, n).Some? { UndeleteKeeps(sem, r, w, n); }
    case GcCmd => GcKeeps(sem, r, w);
  }

  function DoAll(sem: Semantics, cmds: seq<Cmd>): (Repo, World) {
    if cmds == [] then (FRESH, World(map[], {}))
    else
      var (r, w) := DoAll(sem, cmds[..|cmds| - 1]);
      (Do(sem, r, cmds[|cmds| - 1]), After(sem, r, w, cmds[|cmds| - 1]))
  }

  ghost predicate AllAdmissible(sem: Semantics, cmds: seq<Cmd>) {
    cmds == [] ||
    (AllAdmissible(sem, cmds[..|cmds| - 1]) &&
     Admissible(sem, DoAll(sem, cmds[..|cmds| - 1]).1, cmds[|cmds| - 1]))
  }

  /** After any history of builds that succeed or fail, deletions, undeletions and
      garbage collections, starting from an empty cache, the cache is sound and storage
      holds what the same history without a cache would have put there. */
  lemma {:induction false} HistoryInStep(sem: Semantics, cmds: seq<Cmd>)
    requires AllAdmissible(sem, cmds)
    ensures InStep(sem, DoAll(sem, cmds).0, DoAll(sem, cmds).1)
  {
    if cmds == [] {
      assert CoherentAt(sem, FRESH, 0) && CommitOk(FRESH.commits, 0);
    } else {
      var (r, w) := DoAll(sem, cmds[..|cmds| - 1]);
      HistoryInStep(sem, cmds[..|cmds| - 1]);
      DoKeeps(sem, r, w, cmds[|cmds| - 1]);
    }
  }
}
