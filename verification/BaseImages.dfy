/**
  FROM on an image that is in the cache: the files come from its branch, the metadata
  from its directory, and variables are merged into the latter that are in no state ID.
  A stage agrees with plain execution on the branch's image exactly if neither makes a
  difference (`TornBase` when everything is executed, `BaseExactly` with hits).
 */
module BaseImages {
  import opened BuildCache
  import opened MainLoop
  import opened Builds

  /** FROM and a number of instructions. */
  function Stage(ref: Name, af: Vars, tag: Name, ops: seq<string>): seq<Inst> {
    if ops == [] then [From(ref, af, tag)]
    else Stage(ref, af, tag, ops[..|ops| - 1]) + [Step(ops[|ops| - 1])]
  }

  /** What is on the branch of an image. */
  function Branch(r: Repo, ref: Name): Core
    requires ref in r.ready && r.ready[ref] in r.commits
  {
    r.commits[r.ready[ref]].image.core
  }

  /** A build succeeds just when plain execution does, and then with the same image. */
  ghost predicate Agrees(mode: Mode, sem: Semantics, r: Repo, w: World, prog: seq<Inst>, tag: Name) {
    var o, q := Build(mode, sem, r, prog), PVisitAll(sem, PStart(w.imgs, w.torn), prog);
    && (o.ok <==> q.ok)
    && (q.ok ==> tag in o.repo.dirs && q.state.cur == Some(o.repo.dirs[tag].image.core))
  }

  /** Plain execution has the branch's image as its base. */
  function OnBranch(w: World, r: Repo, ref: Name): World
    requires ref in r.ready && r.ready[ref] in r.commits
  {
    World(w.imgs[ref := Branch(r, ref)], w.torn + {ref})
  }

  lemma OneInst(mode: Mode, sem: Semantics, r: Repo, p: PState, a: Inst)
    ensures VisitAll(mode, sem, r, [a]) == Visit(mode, sem, r, START, a)
    ensures PVisitAll(sem, p, [a]) ==
            match PVisit(sem, p, a) case None => POut(false, p, a) case Some(q) => POut(true, q, Ignored)
  {
    var s := [a];
    assert s[..|s| - 1] == [];
  }

  lemma MoreInsts(mode: Mode, sem: Semantics, r: Repo, p: PState, prog: seq<Inst>, a: Inst)
    ensures var o := VisitAll(mode, sem, r, prog);
            VisitAll(mode, sem, r, prog + [a]) == if o.ok then Visit(mode, sem, o.repo, o.loop, a) else o
    ensures var o := PVisitAll(sem, p, prog);
            PVisitAll(sem, p, prog + [a]) == if !o.ok then o else
              match PVisit(sem, o.state, a) case None => POut(false, o.state, a) case Some(q) => POut(true, q, Ignored)
  {
    assert (prog + [a])[..|prog + [a]| - 1] == prog;
  }

  lemma TwoStage(ref: Name, af: Vars, tag: Name, op: string)
    ensures Stage(ref, af, tag, [op]) == [From(ref, af, tag)] + [Step(op)]
  {
    assert [op][..0] == [];
  }

  /** The loop after FROM on a branch. */
  function AtBranch(sem: Semantics, r: Repo, ref: Name, af: Vars, tag: Name): Loop
    requires ref in r.ready && r.ready[ref] in r.commits
  {
    Opened(sem, START, r, ref, af, tag, 0, InImage(Some(r.commits[r.ready[ref]].sid), Some(r.ready[ref])))
  }

  lemma FromBranch(mode: Mode, sem: Semantics, r: Repo, ref: Name, af: Vars, tag: Name)
    requires Inv(r) && ref in r.ready && ref != tag
    ensures VisitAll(mode, sem, r, [From(ref, af, tag)]) == Out(true, r, AtBranch(sem, r, ref, af, tag))
  {
    OneInst(mode, sem, r, PStart(map[], {}), From(ref, af, tag));
    assert map[] + af == af;
  }

  lemma FromPlain(sem: Semantics, r: Repo, w: World, ref: Name, af: Vars, tag: Name)
    requires ref in r.ready && r.ready[ref] in r.commits && ref != tag
    ensures var b, v := Branch(r, ref), OnBranch(w, r, ref);
            PVisitAll(sem, PStart(v.imgs, v.torn), [From(ref, af, tag)])
            == POut(true, POpened(PStart(v.imgs, v.torn), ref, af, tag, b), Ignored)
  {
    var v := OnBranch(w, r, ref);
    OneInst(Rebuild, sem, r, PStart(v.imgs, v.torn), From(ref, af, tag));
  }

  /** A stage of one instruction. */
  lemma OnceIs(mode: Mode, sem: Semantics, r: Repo, ref: Name, af: Vars, tag: Name, op: string)
    requires Inv(r) && ref in r.ready && ref != tag
    ensures VisitAll(mode, sem, r, Stage(ref, af, tag, [op])) == VisitStep(mode, sem, r, AtBranch(sem, r, ref, af, tag), op)
  {
    FromBranch(mode, sem, r, ref, af, tag);
    TwoStage(ref, af, tag, op);
    MoreInsts(mode, sem, r, PStart(map[], {}), [From(ref, af, tag)], Step(op));
  }

  // ---------------------------------------------------------------------------
  // Everything executed

  /** The loop is where plain execution is, when nothing hits. */
  ghost predicate Follows(r: Repo, lp: Loop, p: PState) {
    && lp.prev.InImage? && lp.prev.sid.Some? && lp.prev.hash.Some? && lp.prev.hash.value in r.commits && p.cur.Some?
    && lp.done == {} && p.built == map[] && lp.vars == p.cur.value.vars
    && (lp.missCt == 0 ==> r.commits[lp.prev.hash.value].image.core.files == p.cur.value.files)
    && (lp.missCt > 0 ==> lp.tag in r.dirs && r.dirs[lp.tag].Linked? && r.dirs[lp.tag].image.core == p.cur.value)
  }

  lemma StepFollows(sem: Semantics, r: Repo, lp: Loop, p: PState, op: string)
    requires Follows(r, lp, p)
    ensures var o, q := VisitStep(Rebuild, sem, r, lp, op), PVisit(sem, p, Step(op));
            && (o.ok <==> q.Some?)
            && (q.Some? ==> Follows(o.repo, o.loop, q.value) && o.loop.missCt > 0 && o.loop.tag == lp.tag)
  {
    assert Built(r, {}) == map[];
    var h := lp.prev.hash.value;
    var c := if lp.missCt == 0 then Checkout(r, lp.tag, h) else r;
    CheckoutAt(r, lp.tag, h);
    assert lp.tag in c.dirs && c.dirs[lp.tag].Linked? && c.dirs[lp.tag].image.core.files == p.cur.value.files;
    match sem.input(op, lp.vars, map[])
    case None =>
    case Some(input) => ExecuteFollows(sem, c, lp, p, input, Chain(lp.prev.sid.value, input));
  }

  lemma ExecuteFollows(sem: Semantics, r: Repo, lp: Loop, p: PState, input: string, sid: Sid)
    requires p.cur.Some? && p.built == map[] && lp.done == {} && lp.vars == p.cur.value.vars
    requires lp.tag in r.dirs && r.dirs[lp.tag].Linked? && r.dirs[lp.tag].image.core.files == p.cur.value.files
    ensures var o, q := Execute(sem, r, lp, input, sem.effect(input, lp.vars), sid), PExecute(sem, p, input);
            && (o.ok <==> q.Some?)
            && (q.Some? ==> Follows(o.repo, o.loop, q.value) && o.loop.missCt > 0 && o.loop.tag == lp.tag)
  {
    var vars := sem.effect(input, lp.vars);
    match sem.run(input, Core(p.cur.value.files, vars))
    case Failed(_) =>
    case Done(files) =>
      CommitAt(r, lp.tag, sid, Image(Core(files, vars), lp.history + [input]), sem.larges(files));
  }

  lemma {:induction false} StageFollows(
      sem: Semantics, r: Repo, w: World, ref: Name, af: Vars, tag: Name, ops: seq<string>)
    requires Inv(r) && ref in r.ready && ref != tag
    requires LoadVars(sem.initial, r, ref) + af == Branch(r, ref).vars + DEFAULTS + af
    ensures var v, prog := OnBranch(w, r, ref), Stage(ref, af, tag, ops);
            var o, q := VisitAll(Rebuild, sem, r, prog), PVisitAll(sem, PStart(v.imgs, v.torn), prog);
            && (o.ok <==> q.ok)
            && (q.ok ==> Follows(o.repo, o.loop, q.state) && o.loop.tag == tag && (ops != [] ==> o.loop.missCt > 0))
  {
    if ops == [] {
      OpeningFollows(sem, r, w, ref, af, tag);
    } else {
      var init, op, v := ops[..|ops| - 1], ops[|ops| - 1], OnBranch(w, r, ref);
      StageFollows(sem, r, w, ref, af, tag, init);
      MoreInsts(Rebuild, sem, r, PStart(v.imgs, v.torn), Stage(ref, af, tag, init), Step(op));
      var o, q := VisitAll(Rebuild, sem, r, Stage(ref, af, tag, init)), PVisitAll(sem, PStart(v.imgs, v.torn), Stage(ref, af, tag, init));
      if q.ok { StepFollows(sem, o.repo, o.loop, q.state, op); }
    }
  }

  lemma OpeningFollows(sem: Semantics, r: Repo, w: World, ref: Name, af: Vars, tag: Name)
    requires Inv(r) && ref in r.ready && ref != tag
    requires LoadVars(sem.initial, r, ref) + af == Branch(r, ref).vars + DEFAULTS + af
    ensures var v, prog := OnBranch(w, r, ref), Stage(ref, af, tag, []);
            var o, q := VisitAll(Rebuild, sem, r, prog), PVisitAll(sem, PStart(v.imgs, v.torn), prog);
            o.ok && q.ok && Follows(o.repo, o.loop, q.state) && o.loop.tag == tag
  {
    FromBranch(Rebuild, sem, r, ref, af, tag);
    FromPlain(sem, r, w, ref, af, tag);
    assert map[] + af == af;
  }

  lemma RebuildAgrees(sem: Semantics, r: Repo, w: World, ref: Name, af: Vars, tag: Name, ops: seq<string>)
    requires Inv(r) && ref in r.ready && ref != tag && ops != []
    requires LoadVars(sem.initial, r, ref) + af == Branch(r, ref).vars + DEFAULTS + af
    ensures Agrees(Rebuild, sem, r, OnBranch(w, r, ref), Stage(ref, af, tag, ops), tag)
  {
    StageFollows(sem, r, w, ref, af, tag, ops);
    var o := VisitAll(Rebuild, sem, r, Stage(ref, af, tag, ops));
    if o.ok { ReadyAt(o.repo, tag); }
  }

  // ---------------------------------------------------------------------------
  // One instruction

  /** One instruction on a base image with the given metadata. */
  function After1(sem: Semantics, files: Files, vars: Vars, input: string): Option<Core> {
    match sem.run(input, Core(files, sem.effect(input, vars)))
    case Failed(_) => None
    case Done(files) => Some(Core(files, sem.effect(input, vars)))
  }

  /** A first miss in a stage that is one instruction long. */
  lemma MissOnce(mode: Mode, sem: Semantics, r: Repo, lp: Loop, op: string, input: string, h: Hash)
    requires Inv(r) && h in r.commits && lp.prev == InImage(Some(r.commits[h].sid), Some(h))
    requires lp.missCt == 0 && lp.done == {} && sem.input(op, lp.vars, map[]) == Some(input)
    requires Seek(mode, r, Chain(r.commits[h].sid, input), lp.tag).None?
    ensures var o, a := VisitStep(mode, sem, r, lp, op), After1(sem, r.commits[h].image.core.files, lp.vars, input);
            && (o.ok <==> a.Some?)
            && (o.ok ==> o.loop.prev.InImage? && o.loop.prev.hash.Some? && o.loop.missCt > 0 && o.loop.tag == lp.tag)
            && (o.ok ==> lp.tag in o.repo.dirs && o.repo.dirs[lp.tag].Linked? &&
                         o.repo.dirs[lp.tag].image.core == a.value)
  {
    assert Built(r, {}) == map[];
    CheckoutAt(r, lp.tag, h);
    var c := Checkout(r, lp.tag, h);
    assert c.dirs[lp.tag].image == r.commits[h].image;
    match sem.run(input, Core(r.commits[h].image.core.files, sem.effect(input, lp.vars)))
    case Failed(_) =>
    case Done(files) =>
      var vars := sem.effect(input, lp.vars);
      CommitAt(c, lp.tag, Chain(r.commits[h].sid, input), Image(Core(files, vars), lp.history + [input]), sem.larges(files));
  }

  /** What one missed instruction makes is made from the files of the branch and the
      metadata of the directory. */
  lemma MixedBase(mode: Mode, sem: Semantics, r: Repo, ref: Name, af: Vars, tag: Name, op: string, input: string)
    requires Inv(r) && ref in r.ready && ref != tag
    requires sem.input(op, LoadVars(sem.initial, r, ref) + af, map[]) == Some(input)
    requires Seek(mode, r, Chain(r.commits[r.ready[ref]].sid, input), tag).None?
    ensures var o := Build(mode, sem, r, Stage(ref, af, tag, [op]));
            var made := After1(sem, Branch(r, ref).files, LoadVars(sem.initial, r, ref) + af, input);
            (o.ok <==> made.Some?) && (o.ok ==> tag in o.repo.dirs && Some(o.repo.dirs[tag].image.core) == made)
  {
    var h, lp := r.ready[ref], AtBranch(sem, r, ref, af, tag);
    OnceIs(mode, sem, r, ref, af, tag, op);
    MissOnce(mode, sem, r, lp, op, input, h);
    var o := VisitStep(mode, sem, r, lp, op);
    if o.ok { ReadyImage(o.repo, o.loop, tag); }
  }

  /** ready() leaves the directory's image. */
  lemma ReadyImage(r: Repo, lp: Loop, tag: Name)
    requires lp.prev.InImage? && lp.prev.hash.Some? && lp.missCt > 0 && lp.tag == tag && tag in r.dirs && r.dirs[tag].Linked?
    ensures tag in Closed(r, lp).dirs && Closed(r, lp).dirs[tag].image == r.dirs[tag].image
  {
    ReadyAt(r, tag);
  }

  lemma PlainStep(sem: Semantics, p: PState, op: string, input: string)
    requires p.cur.Some? && p.built == map[] && sem.input(op, p.cur.value.vars, map[]) == Some(input)
    ensures var q, with := PVisit(sem, p, Step(op)), After1(sem, p.cur.value.files, p.cur.value.vars, input);
            (with.Some? <==> q.Some?) && (q.Some? ==> q.value.cur == with)
  {
  }

  /** Plain execution of the same. */
  lemma PlainOnce(sem: Semantics, r: Repo, w: World, ref: Name, af: Vars, tag: Name, op: string, input: string)
    requires Inv(r) && ref in r.ready && ref != tag
    requires sem.input(op, Branch(r, ref).vars + DEFAULTS + af, map[]) == Some(input)
    ensures var v, b := OnBranch(w, r, ref), Branch(r, ref);
            var q := PVisitAll(sem, PStart(v.imgs, v.torn), Stage(ref, af, tag, [op]));
            var with := After1(sem, b.files, b.vars + DEFAULTS + af, input);
            (with.Some? <==> q.ok) && (q.ok ==> q.state.cur == with)
  {
    var v, b := OnBranch(w, r, ref), Branch(r, ref);
    var p := POpened(PStart(v.imgs, v.torn), ref, af, tag, b);
    FromPlain(sem, r, w, ref, af, tag);
    TwoStage(ref, af, tag, op);
    MoreInsts(Rebuild, sem, r, PStart(v.imgs, v.torn), [From(ref, af, tag)], Step(op));
    OpenedCur(v, ref, af, tag, b);
    PlainStep(sem, p, op, input);
  }

  lemma OpenedCur(v: World, ref: Name, af: Vars, tag: Name, b: Core)
    ensures var p := POpened(PStart(v.imgs, v.torn), ref, af, tag, b);
            p.built == map[] && p.cur == Some(Core(b.files, b.vars + DEFAULTS + af))
  {
    assert map[] + af == af;
  }

  /** An instruction that sees whether the variables are `v`. */
  function Observer(v: Vars, initial: Vars, pulled: Core): Semantics {
    Semantics((op, vars, built) => Some(op), (input, vars) => vars,
              (input, c: Core) => Done(if c.vars == v then 1 else 0),
              n => None, m => pulled, initial, f => {})
  }

  /** FROM takes the files from the base image's branch and the metadata from its
      directory, or from nowhere. A stage that executes its instructions agrees with
      plain execution on the branch's image, whatever instructions do, exactly if the
      directory has that image's variables, up to those that FROM merges. */
  lemma TornBase(r: Repo, initial: Vars, w: World, ref: Name, af: Vars, tag: Name)
    requires Inv(r) && ref in r.ready && ref != tag
    ensures (forall sem: Semantics, ops: seq<string> {:trigger Agrees(Rebuild, sem, r, OnBranch(w, r, ref), Stage(ref, af, tag, ops), tag)} ::
               sem.initial == initial && ops != [] ==>
                 Agrees(Rebuild, sem, r, OnBranch(w, r, ref), Stage(ref, af, tag, ops), tag))
       <==> LoadVars(initial, r, ref) + af == Branch(r, ref).vars + DEFAULTS + af
  {
    var v := Branch(r, ref).vars + DEFAULTS + af;
    if LoadVars(initial, r, ref) + af == v {
      forall sem: Semantics, ops: seq<string> | sem.initial == initial && ops != []
        ensures Agrees(Rebuild, sem, r, OnBranch(w, r, ref), Stage(ref, af, tag, ops), tag)
      {
        RebuildAgrees(sem, r, w, ref, af, tag, ops);
      }
    } else {
      var sem := Observer(v, initial, Core(0, map[]));
      MixedBase(Rebuild, sem, r, ref, af, tag, "x", "x");
      PlainOnce(sem, r, w, ref, af, tag, "x", "x");
      assert !Agrees(Rebuild, sem, r, OnBranch(w, r, ref), Stage(ref, af, tag, ["x"]), tag);
    }
  }

  // ---------------------------------------------------------------------------
  // Variables that are in no state ID

  lemma ClosedCached(r: Repo, lp: Loop, x: Hash)
    requires lp.prev.InImage? && lp.prev.hash == Some(x) && lp.missCt == 0
    ensures lp.tag in Closed(r, lp).dirs && Closed(r, lp).dirs[lp.tag].image == ImageAt(r, x)
  {
    CheckoutAt(r, lp.tag, x);
  }

  lemma HitVisit(sem: Semantics, r: Repo, lp: Loop, op: string, input: string, sid: Sid)
    requires lp.prev.InImage? && lp.prev.sid == Some(sid) && lp.prev.hash.Some? && lp.done == {} && lp.missCt == 0
    requires sem.input(op, lp.vars, map[]) == Some(input) && FindSid(r, Chain(sid, input), lp.tag).Some?
    ensures var o, x := VisitStep(Enabled, sem, r, lp, op), FindSid(r, Chain(sid, input), lp.tag).value;
            && o.ok && lp.tag in Closed(o.repo, o.loop).dirs
            && Closed(o.repo, o.loop).dirs[lp.tag].image == ImageAt(r, x)
  {
    assert Built(r, {}) == map[];
    ClosedCached(r, VisitStep(Enabled, sem, r, lp, op).loop, FindSid(r, Chain(sid, input), lp.tag).value);
  }

  lemma HitImage(sem: Semantics, r: Repo, h: Hash, input: string, tag: Name)
    requires Sound(sem, r) && h in r.commits && r.commits[h].sid.Chain? && FindSid(r, Chain(r.commits[h].sid, input), tag).Some?
    ensures var b := r.commits[h].image.core;
            Some(ImageAt(r, FindSid(r, Chain(r.commits[h].sid, input), tag).value).core)
            == After1(sem, b.files, b.vars, input)
  {
    var x := FindSid(r, Chain(r.commits[h].sid, input), tag).value;
    FindSidExact(r, Chain(r.commits[h].sid, input), tag);
    assert CoherentAt(sem, r, h) && CoherentAt(sem, r, x);
    EvalStep(sem, r.commits[h].sid, input, r.commits[h].image.core);
  }

  /** A hit gives the image that the instruction makes of the branch's own. */
  lemma HitOnce(sem: Semantics, r: Repo, ref: Name, af: Vars, tag: Name, op: string, input: string)
    requires Sound(sem, r) && ref in r.ready && ref != tag
    requires sem.input(op, LoadVars(sem.initial, r, ref) + af, map[]) == Some(input)
    requires FindSid(r, Chain(r.commits[r.ready[ref]].sid, input), tag).Some?
    ensures var o := Build(Enabled, sem, r, Stage(ref, af, tag, [op]));
            && o.ok && tag in o.repo.dirs
            && Some(o.repo.dirs[tag].image.core) == After1(sem, Branch(r, ref).files, Branch(r, ref).vars, input)
  {
    var h, lp := r.ready[ref], AtBranch(sem, r, ref, af, tag);
    OnceIs(Enabled, sem, r, ref, af, tag, op);
    HitVisit(sem, r, lp, op, input, r.commits[h].sid);
    HitImage(sem, r, h, input, tag);
  }

  /** A stage of one instruction, its state being known: the result does not depend on
      the variables merged at FROM, so it is that of plain execution just when they
      make no difference there. */
  lemma PreFromVariables(
      sem: Semantics, r: Repo, w: World, ref: Name, af: Vars, tag: Name, op: string, input: string, base: Core)
    requires Sound(sem, r) && ref in r.ready && base == Branch(r, ref) && ref != tag
    requires sem.input(op, LoadVars(sem.initial, r, ref) + af, map[]) == Some(input)
    requires sem.input(op, base.vars + DEFAULTS + af, map[]) == Some(input)
    requires FindSid(r, Chain(r.commits[r.ready[ref]].sid, input), tag).Some?
    ensures var prog := Stage(ref, af, tag, [op]);
            var o := Build(Enabled, sem, r, prog);
            && o.ok && tag in o.repo.dirs
            && Some(o.repo.dirs[tag].image.core) == After1(sem, base.files, base.vars, input)
            && (Agrees(Enabled, sem, r, OnBranch(w, r, ref), prog, tag) <==>
                  After1(sem, base.files, base.vars + DEFAULTS + af, input) == After1(sem, base.files, base.vars, input))
  {
    HitOnce(sem, r, ref, af, tag, op, input);
    PlainOnce(sem, r, w, ref, af, tag, op, input);
  }

  /** Loop and reference are in the same stage, or have both failed. */
  ghost predicate StageOk(mode: Mode, sem: Semantics, o: Out, q: POut, tag: Name) {
    && (o.ok <==> q.ok)
    && (q.ok ==> Rel(mode, sem, o.repo, o.loop, q.state) && q.state.cur.Some? && q.state.tag == tag)
  }

  lemma StageStep(mode: Mode, sem: Semantics, o: Out, q: POut, op: string, tag: Name, o1: Out, q1: POut)
    requires StageOk(mode, sem, o, q, tag) && q.ok && o1 == VisitStep(mode, sem, o.repo, o.loop, op)
    requires q1.ok <==> PVisit(sem, q.state, Step(op)).Some?
    requires q1.ok ==> q1.state == PVisit(sem, q.state, Step(op)).value
    ensures StageOk(mode, sem, o1, q1, tag)
  {
    StepRel(mode, sem, o.repo, o.loop, q.state, op);
    SameStage(sem, q.state, op);
  }

  lemma SameStage(sem: Semantics, p: PState, op: string)
    ensures var v := PVisit(sem, p, Step(op)); v.Some? ==> v.value.cur.Some? && v.value.tag == p.tag
  {
  }

  lemma StageMore(mode: Mode, sem: Semantics, r: Repo, p: PState, prog: seq<Inst>, op: string, tag: Name)
    requires StageOk(mode, sem, VisitAll(mode, sem, r, prog), PVisitAll(sem, p, prog), tag)
    ensures StageOk(mode, sem, VisitAll(mode, sem, r, prog + [Step(op)]), PVisitAll(sem, p, prog + [Step(op)]), tag)
  {
    var o, q := VisitAll(mode, sem, r, prog), PVisitAll(sem, p, prog);
    MoreInsts(mode, sem, r, p, prog, Step(op));
    if q.ok {
      StageStep(mode, sem, o, q, op, tag, VisitStep(mode, sem, o.repo, o.loop, op), PVisitAll(sem, p, prog + [Step(op)]));
    }
  }

  lemma StageOpens(mode: Mode, sem: Semantics, r: Repo, w: World, ref: Name, af: Vars, tag: Name)
    requires InStep(sem, r, w) && ref in r.ready && ref != tag && Opens(sem, r, ref, Branch(r, ref), af)
    requires Branch(r, ref).vars + DEFAULTS + af == Branch(r, ref).vars
    ensures var v, prog := OnBranch(w, r, ref), [From(ref, af, tag)];
            StageOk(mode, sem, VisitAll(mode, sem, r, prog), PVisitAll(sem, PStart(v.imgs, v.torn), prog), tag)
  {
    FromBranch(mode, sem, r, ref, af, tag);
    FromPlain(sem, r, w, ref, af, tag);
    OpenedRel(mode, sem, r, w, ref, af, tag);
  }

  /** A whole stage, with hits and misses as they come, when FROM opens it on exactly the
      branch's image. */
  lemma {:induction false} StageRel(
      mode: Mode, sem: Semantics, r: Repo, w: World, ref: Name, af: Vars, tag: Name, ops: seq<string>)
    requires InStep(sem, r, w) && ref in r.ready && ref != tag && Opens(sem, r, ref, Branch(r, ref), af)
    requires Branch(r, ref).vars + DEFAULTS + af == Branch(r, ref).vars
    ensures var v, prog := OnBranch(w, r, ref), Stage(ref, af, tag, ops);
            StageOk(mode, sem, VisitAll(mode, sem, r, prog), PVisitAll(sem, PStart(v.imgs, v.torn), prog), tag)
  {
    if ops == [] {
      StageOpens(mode, sem, r, w, ref, af, tag);
    } else {
      var init, v := ops[..|ops| - 1], OnBranch(w, r, ref);
      StageRel(mode, sem, r, w, ref, af, tag, init);
      StageMore(mode, sem, r, PStart(v.imgs, v.torn), Stage(ref, af, tag, init), ops[|ops| - 1], tag);
    }
  }

  lemma OpenedState(w: World, ref: Name, af: Vars, tag: Name, b: Core)
    requires b.vars + DEFAULTS + af == b.vars
    ensures POpened(PStart(w.imgs[ref := b], w.torn), ref, af, tag, b)
         == PState(af, w.imgs[ref := b], w.torn, map[], tag, Some(b))
  {
    assert map[] + af == af;
  }

  lemma OpenedRel(mode: Mode, sem: Semantics, r: Repo, w: World, ref: Name, af: Vars, tag: Name)
    requires InStep(sem, r, w) && ref in r.ready && ref != tag && Opens(sem, r, ref, Branch(r, ref), af)
    requires Branch(r, ref).vars + DEFAULTS + af == Branch(r, ref).vars
    ensures var v, b := OnBranch(w, r, ref), Branch(r, ref);
            Rel(mode, sem, r, AtBranch(sem, r, ref, af, tag), POpened(PStart(v.imgs, v.torn), ref, af, tag, b))
  {
    var v, b := OnBranch(w, r, ref), Branch(r, ref);
    OpenedState(v, ref, af, tag, b);
    assert v.imgs[ref := b] == v.imgs;
    OpenedIn(mode, sem, r, w, ref, af, tag, PState(af, v.imgs, v.torn, map[], tag, Some(b)));
  }

  lemma OpenedIn(mode: Mode, sem: Semantics, r: Repo, w: World, ref: Name, af: Vars, tag: Name, p: PState)
    requires InStep(sem, r, w) && ref in r.ready && Opens(sem, r, ref, Branch(r, ref), af)
    requires var v := OnBranch(w, r, ref); p == PState(af, v.imgs, v.torn, map[], tag, Some(Branch(r, ref)))
    ensures Rel(mode, sem, r, AtBranch(sem, r, ref, af, tag), p)
  {
    ReadyFindable(r, ref);
    AtBranchIn(mode, sem, r, ref, af, tag);
    OthersOnBranch(sem, r, w, ref, p);
  }

  lemma AtBranchIn(mode: Mode, sem: Semantics, r: Repo, ref: Name, af: Vars, tag: Name)
    requires Inv(r) && ref in r.ready && Findable(r, r.ready[ref]) && Opens(sem, r, ref, Branch(r, ref), af)
    ensures InStage(mode, r, AtBranch(sem, r, ref, af, tag), Branch(r, ref))
    ensures AtBranch(sem, r, ref, af, tag).done == {} && AtBranch(sem, r, ref, af, tag).argfrom == af
  {
  }

  lemma OthersOnBranch(sem: Semantics, r: Repo, w: World, ref: Name, p: PState)
    requires InStep(sem, r, w) && p.torn == w.torn + {ref} && ref in p.imgs && p.imgs == w.imgs[ref := p.imgs[ref]]
    ensures OthersSynced(sem, r, p)
  {
    forall n | n !in p.torn ensures Synced(sem, r, p.imgs, n) { assert Synced(sem, r, w.imgs, n); }
  }

  lemma OpensAgrees(mode: Mode, sem: Semantics, r: Repo, w: World, ref: Name, af: Vars, tag: Name, ops: seq<string>)
    requires InStep(sem, r, w) && ref in r.ready && ref != tag && Opens(sem, r, ref, Branch(r, ref), af)
    requires Branch(r, ref).vars + DEFAULTS + af == Branch(r, ref).vars
    ensures Agrees(mode, sem, r, OnBranch(w, r, ref), Stage(ref, af, tag, ops), tag)
  {
    var v, prog := OnBranch(w, r, ref), Stage(ref, af, tag, ops);
    StageRel(mode, sem, r, w, ref, af, tag, ops);
    var o, q := VisitAll(mode, sem, r, prog), PVisitAll(sem, PStart(v.imgs, v.torn), prog);
    if q.ok {
      CloseRel(mode, sem, o.repo, o.loop, q.state);
      assert Synced(sem, Closed(o.repo, o.loop), PClose(q.state).imgs, tag);
    }
  }

  // Two caches in step with storage that show what goes wrong.

  /** A cache with one image, whose directory has the metadata `vd`. */
  function OneImage(sem: Semantics, n: Name, vd: Vars): Repo {
    var s := AddBase(sem, FRESH, n, "m", Image(sem.pulled("m"), []));
    s.(dirs := s.dirs[n := Bare(Image(Core(0, vd), []))])
  }

  lemma OneImageAt(sem: Semantics, n: Name, vd: Vars) returns (r: Repo)
    ensures InStep(sem, r, World(map[], {n})) && n in r.ready && r.ready[n] == 1 && r.next == 2
    ensures r.commits.Keys == {0, 1} && r.commits[0].sid == Root && r.commits[1].sid == Chain(Root, "m")
    ensures Branch(r, n) == sem.pulled("m") && LoadVars(sem.initial, r, n) == vd + DEFAULTS
  {
    r := OneImage(sem, n, vd);
    var image := Image(sem.pulled("m"), []);
    OneCommit(sem, n, image);
    OneAdded(sem, n, image);
    WithDir(sem, AddBase(sem, FRESH, n, "m", image), map[n := image.core], n, Bare(Image(Core(0, vd), [])));
  }

  lemma OneAdded(sem: Semantics, n: Name, image: Image)
    requires image == Image(sem.pulled("m"), [])
    ensures var s := AddBase(sem, FRESH, n, "m", image); Sound(sem, s) && AllSynced(sem, s, map[n := image.core], {})
  {
    assert InStep(sem, FRESH, World(map[], {})) by { HistoryInStep(sem, []); }
    AddBaseRel(sem, FRESH, map[], {}, n, "m", image);
    assert map[][n := image.core] == map[n := image.core];
  }

  lemma OneCommit(sem: Semantics, n: Name, image: Image)
    ensures var s := AddBase(sem, FRESH, n, "m", image);
            && n in s.ready && s.ready[n] == 1 && s.next == 2 && s.commits.Keys == {0, 1}
            && s.commits[0] == FRESH.commits[0] && s.commits[1].sid == Chain(Root, "m") && s.commits[1].image == image
  {
    var c, larges := Checkout(FRESH, n, 0), sem.larges(image.core.files);
    CheckoutAt(FRESH, n, 0);
    CommitAt(c, n, Chain(Root, "m"), image, larges);
    ReadyAt(CommitTo(c, n, Chain(Root, "m"), image, larges), n);
  }

  /** An image's directory may be anything once nothing is claimed about it. */
  lemma WithDir(sem: Semantics, r: Repo, imgs: map<Name, Core>, n: Name, d: Dir)
    requires Sound(sem, r) && AllSynced(sem, r, imgs, {}) && imgs.Keys == {n} && d.Bare?
    ensures InStep(sem, r.(dirs := r.dirs[n := d]), World(map[], {n}))
  {
    var s := r.(dirs := r.dirs[n := d]);
    WithDirSound(sem, r, n, d);
    forall m | m !in {n} ensures Synced(sem, s, map[], m) { assert Synced(sem, r, imgs, m); }
  }

  lemma WithDirSound(sem: Semantics, r: Repo, n: Name, d: Dir)
    requires Sound(sem, r) && d.Bare?
    ensures Sound(sem, r.(dirs := r.dirs[n := d]))
  {
    var s := r.(dirs := r.dirs[n := d]);
    forall m | m in s.dirs ensures DirOk(s, m) { if m != n { assert DirOk(r, m); } }
    forall x | x in s.commits ensures CoherentAt(sem, s, x) { assert CoherentAt(sem, r, x); }
  }

  lemma NoSuchState(r: Repo, sid: Sid, tag: Name)
    requires Inv(r) && forall h :: h in r.commits ==> r.commits[h].sid != sid
    ensures FindSid(r, sid, tag).None?
  {
    FindSidExact(r, sid, tag);
  }

  /** Metadata of another image: everything is executed, and sees it. */
  lemma OtherVars(vb: Vars, vd: Vars, af: Vars, n: Name, t: Name) returns (sem: Semantics, r: Repo)
    requires vd + DEFAULTS + af != vb + DEFAULTS + af && n != t
    ensures Situation(sem, r, World(map[], {n}), n, vb, vd)
    ensures !Agrees(Enabled, sem, r, OnBranch(World(map[], {n}), r, n), Stage(n, af, t, ["x"]), t)
  {
    sem := Observer(vb + DEFAULTS + af, map[], Core(0, vb));
    r := OneImageAt(sem, n, vd);
    NoSuchState(r, Chain(Chain(Root, "m"), "x"), t);
    SeesOther(sem, r, World(map[], {n}), vb, vd, af, n, t);
  }

  lemma SeesOther(sem: Semantics, r: Repo, w: World, vb: Vars, vd: Vars, af: Vars, n: Name, t: Name)
    requires Inv(r) && n in r.ready && n != t && vd + DEFAULTS + af != vb + DEFAULTS + af
    requires Branch(r, n) == Core(0, vb) && LoadVars(sem.initial, r, n) == vd + DEFAULTS
    requires sem == Observer(vb + DEFAULTS + af, map[], Core(0, vb))
    requires FindSid(r, Chain(r.commits[r.ready[n]].sid, "x"), t).None?
    ensures !Agrees(Enabled, sem, r, OnBranch(w, r, n), Stage(n, af, t, ["x"]), t)
  {
    MixedBase(Enabled, sem, r, n, af, t, "x", "x");
    PlainOnce(sem, r, w, n, af, t, "x", "x");
  }

  /** Merged variables that make a difference: a hit does not see them. */
  lemma MergedVars(vb: Vars, vd: Vars, af: Vars, n: Name, t: Name, u: Name) returns (sem: Semantics, r: Repo)
    requires vb + DEFAULTS + af != vb && n != t && u != n
    ensures Situation(sem, r, World(map[], {n} + {u}), n, vb, vd)
    ensures !Agrees(Enabled, sem, r, OnBranch(World(map[], {n} + {u}), r, n), Stage(n, af, t, ["x"]), t)
  {
    sem := Observer(vb, map[], Core(0, vb));
    var q := OneImageAt(sem, n, vd);
    r := WithChild(sem, q, n, u, vb);
    HitMissesIt(sem, r, World(map[], {n} + {u}), vb, af, n, t);
  }

  lemma HitMissesIt(sem: Semantics, r: Repo, w: World, vb: Vars, af: Vars, n: Name, t: Name)
    requires Sound(sem, r) && n in r.ready && n != t && vb + DEFAULTS + af != vb
    requires Branch(r, n) == Core(0, vb) && sem == Observer(vb, map[], Core(0, vb))
    requires exists h :: Findable(r, h) && r.commits[h].sid == Chain(r.commits[r.ready[n]].sid, "x")
    ensures !Agrees(Enabled, sem, r, OnBranch(w, r, n), Stage(n, af, t, ["x"]), t)
  {
    FindSidExact(r, Chain(r.commits[r.ready[n]].sid, "x"), t);
    PreFromVariables(sem, r, w, n, af, t, "x", "x", Core(0, vb));
  }

  /** `s` is `r` with more commits and another directory; branch and directory of `n` are
      as they were. */
  ghost predicate Beside(r: Repo, n: Name, s: Repo) {
    && n in r.ready && n in s.ready && s.ready[n] == r.ready[n] && r.ready[n] in r.commits && r.ready[n] in s.commits
    && s.commits[s.ready[n]] == r.commits[r.ready[n]]
    && (n in s.dirs <==> n in r.dirs) && (n in r.dirs ==> s.dirs[n] == r.dirs[n])
  }

  lemma ChildCheckout(sem: Semantics, r: Repo, p: PState, n: Name, h: Hash)
    requires Sound(sem, r) && OthersSynced(sem, r, p) && p.cur.Some? && n in r.ready && p.tag != n && h in r.commits
    ensures var c := Checkout(r, p.tag, h);
            && Sound(sem, c) && OthersSynced(sem, c, p) && Beside(r, n, c) && c.commits == r.commits
            && p.tag in c.dirs && c.dirs[p.tag].Linked? && c.dirs[p.tag].head == h
  {
    CheckoutRel(sem, r, p, h);
    CheckoutAt(r, p.tag, h);
  }

  lemma ChildCommit(sem: Semantics, c: Repo, p: PState, n: Name, o: Commit, s: Repo)
    requires n in c.ready && c.ready[n] in c.commits && p.tag != n && Committed(c, p.tag, o, s) && c.next !in c.commits
    ensures Beside(c, n, s)
  {
  }

  /** The same cache when the instruction has been executed on the branch's own image. */
  lemma WithChild(sem: Semantics, r: Repo, n: Name, u: Name, vb: Vars) returns (s: Repo)
    requires InStep(sem, r, World(map[], {n})) && n in r.ready && u != n && Branch(r, n) == Core(0, vb)
    requires sem == Observer(vb, map[], Core(0, vb))
    ensures InStep(sem, s, World(map[], {n} + {u})) && Beside(r, n, s)
    ensures exists h :: Findable(s, h) && s.commits[h].sid == Chain(s.commits[s.ready[n]].sid, "x")
  {
    var h, p := r.ready[n], PState(map[], map[], {n}, map[], u, Some(Branch(r, n)));
    ChildCheckout(sem, r, p, n, h);
    var c := Checkout(r, u, h);
    assert CoherentAt(sem, c, h) && c.commits[h].sid.Chain?;
    s := ChildOf(sem, c, p, n, h, vb);
  }

  lemma ChildOf(sem: Semantics, c: Repo, p: PState, n: Name, h: Hash, vb: Vars) returns (s: Repo)
    requires Sound(sem, c) && OthersSynced(sem, c, p) && p.cur.Some? && p.tag != n
    requires n in c.ready && c.ready[n] == h && h in c.commits && c.commits[h].sid.Chain?
    requires p.tag in c.dirs && c.dirs[p.tag].Linked? && c.dirs[p.tag].head == h
    requires sem == Observer(vb, map[], Core(0, vb)) && Eval(sem, c.commits[h].sid) == Some(Core(0, vb))
    ensures InStep(sem, s, World(p.imgs, p.torn + {p.tag})) && Beside(c, n, s)
    ensures exists x :: Findable(s, x) && s.commits[x].sid == Chain(s.commits[s.ready[n]].sid, "x")
  {
    var o := Commit(Chain(c.commits[h].sid, "x"), Image(Core(1, vb), ["x"]), {}, Some(h));
    s := CommitTo(c, p.tag, o.sid, o.image, {});
    CommitAt(c, p.tag, o.sid, o.image, {});
    ObservedEval(sem, vb, c.commits[h].sid);
    ChildCommitted(sem, c, p, o, s);
    ChildCommit(sem, c, p, n, o, s);
  }

  lemma ObservedEval(sem: Semantics, vb: Vars, sid: Sid)
    requires sem == Observer(vb, map[], Core(0, vb)) && sid.Chain? && Eval(sem, sid) == Some(Core(0, vb))
    ensures Eval(sem, Chain(sid, "x")) == Some(Core(1, vb))
  {
  }

  lemma ChildCommitted(sem: Semantics, c: Repo, p: PState, o: Commit, s: Repo)
    requires Sound(sem, c) && OthersSynced(sem, c, p) && p.cur.Some? && Committed(c, p.tag, o, s)
    requires o.sid.Chain? && o.parent == Some(c.dirs[p.tag].head) && o.sid.parent == c.commits[c.dirs[p.tag].head].sid
    requires Eval(sem, o.sid) == Some(o.image.core)
    ensures InStep(sem, s, World(p.imgs, p.torn + {p.tag}))
    ensures Findable(s, c.next) && s.commits[c.next] == o
  {
    CommitCoherent(sem, c, p.tag, o, s);
    CommitOthers(sem, c, p, o, s);
    HeadFindable(s, p.tag);
  }

  /** A sound cache in step with storage but for the base image, whose branch has the
      variables `vb` and whose directory, or the initial metadata, has `vd`. */
  ghost predicate Situation(sem: Semantics, r: Repo, w: World, ref: Name, vb: Vars, vd: Vars) {
    && InStep(sem, r, w) && ref in r.ready && Branch(r, ref).vars == vb
    && LoadVars(sem.initial, r, ref) == vd + DEFAULTS
  }

  /** For every sound cache, every program of a stage with instructions, and every
      meaning of these: the build agrees with plain execution on the base image's branch
      exactly if the variables that FROM loads and merges are the branch's own. */
  lemma BaseExactly(vb: Vars, vd: Vars, af: Vars)
    ensures (forall sem: Semantics, r: Repo, w: World, n: Name, t: Name, ops: seq<string>
               {:trigger Agrees(Enabled, sem, r, OnBranch(w, r, n), Stage(n, af, t, ops), t)} ::
               Situation(sem, r, w, n, vb, vd) && n != t && ops != [] ==>
                 Agrees(Enabled, sem, r, OnBranch(w, r, n), Stage(n, af, t, ops), t))
       <==> vd + DEFAULTS + af == vb && vb + DEFAULTS + af == vb
  {
    if vb + DEFAULTS + af != vb {
      var sem, r := MergedVars(vb, vd, af, "n", "t", "u");
    } else if vd + DEFAULTS + af != vb {
      var sem, r := OtherVars(vb, vd, af, "n", "t");
    } else {
      forall sem: Semantics, r: Repo, w: World, n: Name, t: Name, ops: seq<string>
        | Situation(sem, r, w, n, vb, vd) && n != t && ops != []
        ensures Agrees(Enabled, sem, r, OnBranch(w, r, n), Stage(n, af, t, ops), t)
      {
        SituationOpens(sem, r, w, n, vb, vd, af);
        OpensAgrees(Enabled, sem, r, w, n, af, t, ops);
      }
    }
  }

  lemma SituationOpens(sem: Semantics, r: Repo, w: World, n: Name, vb: Vars, vd: Vars, af: Vars)
    requires Situation(sem, r, w, n, vb, vd) && vd + DEFAULTS + af == vb
    ensures Opens(sem, r, n, Branch(r, n), af)
  {
  }
}
