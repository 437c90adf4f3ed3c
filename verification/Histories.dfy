/**
  Histories from an empty cache in which the code does not do what one expects: a base
  image whose metadata is no longer its own, and a deletion that loses a commit.
 */
module Histories {
  import opened BuildCache
  import opened MainLoop
  import opened Builds
  import opened BaseImages

  /** Every instruction sets the variable it is called, "bad" fails, and every image
      can be pulled. */
  const DEMO: Semantics := Semantics(
    (op, vars, built) => Some(op), (input, vars) => vars[input := "1"],
    (input, c: Core) => if input == "bad" then Failed(0) else Done(0),
    n => Some(n), m => Core(0, DEFAULTS), DEFAULTS, f => {})

  function Set(vars: Vars, op: string): Vars { vars[op := "1"] }

  /** One instruction executed on branch `ref` in the directory of `tag`. */
  function Stepped(r: Repo, ref: Name, tag: Name, op: string): Repo
    requires ref in r.ready && r.ready[ref] in r.commits
  {
    var h := r.ready[ref];
    CommitTo(Checkout(r, tag, h), tag, Chain(r.commits[h].sid, op), MadeOf(r, ref, op), {})
  }

  function MadeOf(r: Repo, ref: Name, op: string): Image {
    Image(Core(0, Set(LoadVars(DEFAULTS, r, ref) + map[], op)), LoadHistory(r, ref) + [op])
  }

  ghost predicate LogsBut(a: map<Name, set<Hash>>, b: map<Name, set<Hash>>, n: Name) {
    forall m :: m != n ==> (m in a <==> m in b) && (m in a && m in b ==> b[m] == a[m])
  }

  /** The work tree of `tag` has been elsewhere: its unready branch moves. */
  ghost predicate SteppedOk(r: Repo, ref: Name, tag: Name, op: string, s: Repo)
    requires ref in r.ready && r.ready[ref] in r.commits
  {
    var h, k := r.ready[ref], r.next;
    && s.next == k + 1 && s.commits == r.commits[k := Commit(Chain(r.commits[h].sid, op), MadeOf(r, ref, op), {}, Some(h))]
    && s.ready == r.ready && s.tags == r.tags && s.kept == r.kept && s.readyLog == r.readyLog
    && s.unready == r.unready[tag := k]
    && LogsBut(r.unreadyLog, s.unreadyLog, tag)
    && s.dirs.Keys == r.dirs.Keys + {tag}
    && (forall n :: n in r.dirs && n != tag ==> s.dirs[n] == r.dirs[n])
    && s.dirs[tag].Linked? && s.dirs[tag].head == k && s.dirs[tag].on == OnUnready && s.dirs[tag].image == MadeOf(r, ref, op)
    && k in s.dirs[tag].log
    && (tag in r.dirs && r.dirs[tag].Linked? ==> r.dirs[tag].log <= s.dirs[tag].log)
  }

  /** A checkout that moves the unready branch. */
  ghost predicate Moved(r: Repo, n: Name, h: Hash, c: Repo) {
    && c.commits == r.commits && c.next == r.next && c.ready == r.ready && c.tags == r.tags && c.kept == r.kept
    && c.readyLog == r.readyLog && c.unready == r.unready[n := h]
    && LogsBut(r.unreadyLog, c.unreadyLog, n)
    && c.dirs.Keys == r.dirs.Keys + {n} && (forall m :: m in r.dirs && m != n ==> c.dirs[m] == r.dirs[m])
    && c.dirs[n].Linked? && c.dirs[n].head == h && c.dirs[n].on == OnUnready
    && (n in r.dirs && r.dirs[n].Linked? ==> r.dirs[n].log <= c.dirs[n].log)
  }

  lemma MovedAt(r: Repo, n: Name, h: Hash)
    requires !CheckedOut(r, n, h)
    ensures Moved(r, n, h, Checkout(r, n, h))
  {
  }

  lemma SteppedAt(r: Repo, ref: Name, tag: Name, op: string)
    requires ref in r.ready && r.ready[ref] in r.commits && !CheckedOut(r, tag, r.ready[ref])
    ensures SteppedOk(r, ref, tag, op, Stepped(r, ref, tag, op))
  {
    MovedAt(r, tag, r.ready[ref]);
    SteppedFrom(r, Checkout(r, tag, r.ready[ref]), ref, tag, op);
  }

  lemma SteppedFrom(r: Repo, c: Repo, ref: Name, tag: Name, op: string)
    requires ref in r.ready && r.ready[ref] in r.commits && Moved(r, tag, r.ready[ref], c)
    ensures SteppedOk(r, ref, tag, op, CommitTo(c, tag, Chain(r.commits[r.ready[ref]].sid, op), MadeOf(r, ref, op), {}))
  {
    MovedCommit(c, tag, Chain(r.commits[r.ready[ref]].sid, op), MadeOf(r, ref, op));
    SteppedJoin(r, c, ref, tag, op, CommitTo(c, tag, Chain(r.commits[r.ready[ref]].sid, op), MadeOf(r, ref, op), {}));
  }

  /** The branch moved, and then the commit. */
  lemma SteppedJoin(r: Repo, c: Repo, ref: Name, tag: Name, op: string, s: Repo)
    requires ref in r.ready && r.ready[ref] in r.commits && Moved(r, tag, r.ready[ref], c)
    requires s.next == c.next + 1
    requires s.commits == c.commits[c.next := Commit(Chain(r.commits[r.ready[ref]].sid, op), MadeOf(r, ref, op), {}, Some(c.dirs[tag].head))]
    requires s.ready == c.ready && s.tags == c.tags && s.kept == c.kept && s.readyLog == c.readyLog
    requires s.unready == c.unready[tag := c.next]
    requires LogsBut(c.unreadyLog, s.unreadyLog, tag)
    requires s.dirs == c.dirs[tag := Linked(MadeOf(r, ref, op), c.next, OnUnready, c.dirs[tag].log + {c.dirs[tag].head} + {c.next})]
    ensures SteppedOk(r, ref, tag, op, s)
  {
    var h, k := r.ready[ref], r.next;
    TwiceSet(r.unready, tag, h, k);
  }

  lemma TwiceSet<V>(m: map<Name, V>, n: Name, a: V, b: V)
    ensures m[n := a][n := b] == m[n := b]
  {
  }

  lemma MovedCommit(c: Repo, tag: Name, sid: Sid, image: Image)
    requires tag in c.dirs && c.dirs[tag].Linked? && c.dirs[tag].on == OnUnready
    ensures var s := CommitTo(c, tag, sid, image, {});
            && s.next == c.next + 1 && s.commits == c.commits[c.next := Commit(sid, image, {}, Some(c.dirs[tag].head))]
            && s.ready == c.ready && s.tags == c.tags && s.kept == c.kept && s.readyLog == c.readyLog
            && s.unready == c.unready[tag := c.next]
            && LogsBut(c.unreadyLog, s.unreadyLog, tag)
            && s.dirs == c.dirs[tag := Linked(image, c.next, OnUnready, c.dirs[tag].log + {c.dirs[tag].head} + {c.next})]
  {
  }

  lemma SteppedInv(r: Repo, ref: Name, tag: Name, op: string)
    requires Inv(r) && ref in r.ready
    ensures Inv(Stepped(r, ref, tag, op))
  {
    var h := r.ready[ref];
    var c := Checkout(r, tag, h);
    var o := Commit(Chain(r.commits[h].sid, op), MadeOf(r, ref, op), {}, Some(h));
    CheckoutAt(r, tag, h);
    CheckoutInv(r, tag, h);
    CommitAt(c, tag, o.sid, o.image, {});
    CommitInv(c, tag, o, Stepped(r, ref, tag, op));
  }

  lemma FirstMiss(r: Repo, lp: Loop, op: string, h: Hash, sid: Sid)
    requires lp.prev == InImage(Some(sid), Some(h)) && lp.missCt == 0 && lp.done == {} && op != "bad"
    ensures var image := Image(Core(0, Set(lp.vars, op)), lp.history + [op]);
            var o := VisitStep(Rebuild, DEMO, r, lp, op);
            && o.ok && o.repo == CommitTo(Checkout(r, lp.tag, h), lp.tag, Chain(sid, op), image, {})
            && InLoop(o.loop, lp.tag)
  {
    assert Built(r, {}) == map[];
    CheckoutAt(r, lp.tag, h);
  }

  /** After the first miss of a stage. */
  ghost predicate InLoop(lp: Loop, tag: Name) {
    && lp.tag == tag && lp.missCt == 1 && lp.done == {}
    && lp.prev.InImage? && lp.prev.sid.Some? && lp.prev.hash.Some?
  }

  /** A stage with one instruction, executed. */
  lemma OneStep(r: Repo, ref: Name, tag: Name, op: string)
    requires Inv(r) && ref in r.ready && ref != tag && op != "bad"
    ensures var o := VisitAll(Rebuild, DEMO, r, Stage(ref, map[], tag, [op]));
            o.ok && o.repo == Stepped(r, ref, tag, op) && InLoop(o.loop, tag)
  {
    OnceIs(Rebuild, DEMO, r, ref, map[], tag, op);
    FirstMiss(r, AtBranch(DEMO, r, ref, map[], tag), op, r.ready[ref], r.commits[r.ready[ref]].sid);
  }

  lemma TwoOps(ref: Name, tag: Name, a: string, b: string)
    ensures Stage(ref, map[], tag, [a, b]) == Stage(ref, map[], tag, [a]) + [Step(b)]
  {
    assert [a, b][..1] == [a];
  }

  /** What a failure after it leaves: just that. */
  lemma ThenBad(r: Repo, ref: Name, tag: Name, op: string)
    requires Inv(r) && ref in r.ready && ref != tag && op != "bad"
    ensures var o := Build(Rebuild, DEMO, r, Stage(ref, map[], tag, [op, "bad"]));
            !o.ok && o.repo == Stepped(r, ref, tag, op)
  {
    var prog := Stage(ref, map[], tag, [op]);
    var o := VisitAll(Rebuild, DEMO, r, prog);
    OneStep(r, ref, tag, op);
    SteppedInv(r, ref, tag, op);
    TwoOps(ref, tag, op, "bad");
    MoreInsts(Rebuild, DEMO, r, PStart(map[], {}), prog, Step("bad"));
    BadFails(o.repo, o.loop);
  }

  lemma BadFails(s: Repo, lp: Loop)
    requires Inv(s) && lp.missCt > 0 && lp.prev.InImage? && lp.prev.sid.Some? && lp.prev.hash.Some?
    ensures Visit(Rebuild, DEMO, s, lp, Step("bad")).repo == s && !Visit(Rebuild, DEMO, s, lp, Step("bad")).ok
  {
    if lp.tag in s.dirs && s.dirs[lp.tag].Linked? { BackAgain(s, lp.tag, s.dirs[lp.tag].image); }
  }

  /** Whatever was in the directory, rollback puts back what is committed. */
  lemma BackAgain(s: Repo, n: Name, image: Image)
    requires Inv(s) && n in s.dirs && s.dirs[n].Linked?
    ensures Rollback(s.(dirs := s.dirs[n := s.dirs[n].(image := image.(core := Core(0, image.core.vars)))]), n, {}) == s
  {
    assert DirOk(s, n);
    assert s.dirs == s.dirs[n := s.dirs[n]] && s.store + {} == s.store;
  }

  // ---------------------------------------------------------------------------
  // The first build: pull `b`, execute "x" on it, call the result `t`

  /** Everything that holds commits, but for what belongs to `t` alone, is in `k`. */
  ghost predicate Others(r: Repo, t: Name, k: set<Hash>) {
    && r.kept <= k
    && (forall n :: n in r.ready ==> r.ready[n] in k)
    && (forall n :: n in r.unready && n != t ==> r.unready[n] in k)
    && (forall n :: n in r.tags && n != t ==> r.tags[n] in k)
    && (forall n :: n in r.readyLog && n != t ==> r.readyLog[n] <= k)
    && (forall n :: n in r.unreadyLog && n != t ==> r.unreadyLog[n] <= k)
    && (forall n :: n in r.dirs && n != t && r.dirs[n].Linked? ==> r.dirs[n].head in k && r.dirs[n].log <= k)
  }

  lemma SteppedOthers(r: Repo, ref: Name, t: Name, op: string, s: Repo, k: set<Hash>)
    requires ref in r.ready && r.ready[ref] in r.commits && SteppedOk(r, ref, t, op, s) && Others(r, t, k)
    ensures Others(s, t, k)
  {
  }

  lemma ReadyOthers(r: Repo, t: Name, k: set<Hash>)
    requires Others(r, t, k) && t in r.dirs && r.dirs[t].Linked? && r.dirs[t].head in k
    requires t in r.unready ==> r.unready[t] in k
    ensures Others(Ready(r, t), t, k)
  {
  }

  function Pulled(b: Name): Repo { Pull(DEMO, FRESH, b, b) }

  ghost predicate PulledOk(r: Repo, b: Name, t: Name) {
    && Inv(r) && r.next == 2 && r.commits.Keys == {0, 1} && r.ready == map[b := 1] && r.dirs.Keys == {b}
    && r.commits[0] == FRESH.commits[0]
    && r.commits[1] == Commit(Chain(Root, b), Image(Core(0, DEFAULTS), []), {}, Some(0))
    && r.dirs[b].image == Image(Core(0, DEFAULTS), []) && Others(r, t, {0, 1}) && t !in r.unready
  }

  lemma PulledAt(b: Name, t: Name)
    requires b != t
    ensures PulledOk(Pulled(b), b, t)
  {
    var c := Checkout(FRESH.(dirs := FRESH.dirs - {b}), b, 0);
    assert FRESH.dirs - {b} == map[];
    assert c.dirs.Keys == {b} && c.dirs[b].Linked? && c.dirs[b].head == 0 && c.dirs[b].on == OnUnready && c.dirs[b].log <= {0};
    PulledFrom(c, b, t);
  }

  lemma PulledFrom(c: Repo, b: Name, t: Name)
    requires b != t && c == Checkout(FRESH.(dirs := map[]), b, 0)
    requires c.dirs.Keys == {b} && c.dirs[b].Linked? && c.dirs[b].head == 0 && c.dirs[b].on == OnUnready && c.dirs[b].log <= {0}
    ensures PulledOk(Ready(CommitTo(c, b, Chain(Root, b), Image(Core(0, DEFAULTS), []), {}), b), b, t)
  {
    var s := CommitTo(c, b, Chain(Root, b), Image(Core(0, DEFAULTS), []), {});
    MovedCommit(c, b, Chain(Root, b), Image(Core(0, DEFAULTS), []));
    ReadyAt(s, b);
    PulledInv(b, Ready(s, b));
  }

  lemma PulledInv(b: Name, r: Repo)
    requires r.next == 2 && r.commits.Keys == {0, 1} && r.commits[0] == FRESH.commits[0]
    requires r.commits[1] == Commit(Chain(Root, b), Image(Core(0, DEFAULTS), []), {}, Some(0))
    requires r.ready == map[b := 1] && r.unready == map[] && r.tags == map[] && r.dirs.Keys == {b}
    requires r.dirs[b].Linked? && r.dirs[b].head == 1 && r.dirs[b].image == Image(Core(0, DEFAULTS), [])
    ensures Inv(r)
  {
    assert CommitOk(r.commits, 0) && CommitOk(r.commits, 1);
  }

  function FirstBuild(b: Name, t: Name): Cmd { BuildCmd(Rebuild, Stage(b, map[], t, ["x"])) }

  function First(b: Name, t: Name): Repo { Do(DEMO, FRESH, FirstBuild(b, t)) }

  lemma FromPulled(mode: Mode, b: Name, t: Name, p: PState)
    requires b != t
    ensures VisitAll(mode, DEMO, FRESH, [From(b, map[], t)]) == VisitAll(mode, DEMO, Pulled(b), [From(b, map[], t)])
  {
    PulledAt(b, t);
    assert FindBase(DEMO, FRESH, b) == Some(Pulled(b));
    FromFound(mode, Pulled(b), b, t, p);
  }

  lemma FromFound(mode: Mode, r: Repo, b: Name, t: Name, p: PState)
    requires b != t && FindBase(DEMO, FRESH, b) == Some(r) && b in r.ready && r.ready[b] in r.commits
    ensures VisitAll(mode, DEMO, FRESH, [From(b, map[], t)]) == VisitAll(mode, DEMO, r, [From(b, map[], t)])
  {
    OneInst(mode, DEMO, FRESH, p, From(b, map[], t));
    OneInst(mode, DEMO, r, p, From(b, map[], t));
  }

  lemma FirstIsFrom(r: Repo, b: Name, t: Name)
    requires Inv(r) && b in r.ready && b != t && t !in r.dirs
    requires VisitAll(Rebuild, DEMO, FRESH, [From(b, map[], t)]) == VisitAll(Rebuild, DEMO, r, [From(b, map[], t)])
    ensures t in Stepped(r, b, t, "x").dirs && Stepped(r, b, t, "x").dirs[t].Linked?
    ensures First(b, t) == Ready(Stepped(r, b, t, "x"), t)
  {
    TwoStage(b, map[], t, "x");
    MoreInsts(Rebuild, DEMO, FRESH, PStart(map[], {}), [From(b, map[], t)], Step("x"));
    MoreInsts(Rebuild, DEMO, r, PStart(map[], {}), [From(b, map[], t)], Step("x"));
    OneStep(r, b, t, "x");
    SteppedAt(r, b, t, "x");
  }

  /** The image with "x" set, ready, with its base below it. */
  ghost predicate FirstOk(r: Repo, b: Name, t: Name) {
    && Inv(r) && r.next == 3 && r.commits.Keys == {0, 1, 2} && r.ready == map[b := 1, t := 2] && r.dirs.Keys == {b, t}
    && r.commits[0] == FRESH.commits[0]
    && r.commits[1] == Commit(Chain(Root, b), Image(Core(0, DEFAULTS), []), {}, Some(0))
    && r.commits[2].sid == Chain(Chain(Root, b), "x") && r.commits[2].parent == Some(1)
    && r.commits[2].image.core == Core(0, Set(DEFAULTS, "x"))
    && r.dirs[b].image == Image(Core(0, DEFAULTS), [])
    && r.dirs[t].Linked? && r.dirs[t].head == 2 && t !in r.unready && Others(r, t, {0, 1, 2})
  }

  lemma FirstAt(b: Name, t: Name)
    requires b != t
    ensures FirstOk(First(b, t), b, t)
  {
    PulledAt(b, t);
    FromPulled(Rebuild, b, t, PStart(map[], {}));
    FirstThrough(Pulled(b), b, t);
  }

  lemma FirstThrough(r: Repo, b: Name, t: Name)
    requires PulledOk(r, b, t) && b != t
    requires VisitAll(Rebuild, DEMO, FRESH, [From(b, map[], t)]) == VisitAll(Rebuild, DEMO, r, [From(b, map[], t)])
    ensures FirstOk(First(b, t), b, t)
  {
    FirstIsFrom(r, b, t);
    FirstFrom(r, b, t);
  }

  lemma FirstFrom(r: Repo, b: Name, t: Name)
    requires PulledOk(r, b, t) && b != t
    ensures t in Stepped(r, b, t, "x").dirs && Stepped(r, b, t, "x").dirs[t].Linked?
    ensures FirstOk(Ready(Stepped(r, b, t, "x"), t), b, t)
  {
    var s := Stepped(r, b, t, "x");
    SteppedAt(r, b, t, "x");
    SteppedInv(r, b, t, "x");
    FirstReady(s, t);
    FirstOthers(r, s, b, t);
    FirstFacts(r, s, Ready(s, t), b, t);
  }

  lemma FirstReady(s: Repo, t: Name)
    requires Inv(s) && t in s.dirs && s.dirs[t].Linked?
    ensures Readied(s, t, Ready(s, t)) && t !in Ready(s, t).unready && Inv(Ready(s, t))
  {
    ReadyAt(s, t);
    ReadyInv(s, t, Ready(s, t));
    ReadyCleans(s, t);
  }

  lemma FirstOthers(r: Repo, s: Repo, b: Name, t: Name)
    requires b in r.ready && r.ready[b] in r.commits && r.next == 2 && SteppedOk(r, b, t, "x", s) && Others(r, t, {0, 1})
    ensures Others(Ready(s, t), t, {0, 1, 2})
  {
    OthersGrow(r, t, {0, 1}, {0, 1, 2});
    SteppedOthers(r, b, t, "x", s, {0, 1, 2});
    ReadyOthers(s, t, {0, 1, 2});
  }

  lemma FirstFacts(r: Repo, s: Repo, f: Repo, b: Name, t: Name)
    requires b != t && r.next == 2 && r.commits.Keys == {0, 1} && r.ready == map[b := 1] && r.dirs.Keys == {b}
    requires r.commits[0] == FRESH.commits[0]
    requires r.commits[1] == Commit(Chain(Root, b), Image(Core(0, DEFAULTS), []), {}, Some(0))
    requires r.dirs[b].image == Image(Core(0, DEFAULTS), [])
    requires SteppedOk(r, b, t, "x", s) && Readied(s, t, f) && t !in f.unready && Inv(f) && Others(f, t, {0, 1, 2})
    ensures FirstOk(f, b, t)
  {
    MergedTwice();
    assert s.ready[t := 2] == map[b := 1, t := 2];
  }

  lemma MergedTwice()
    ensures DEFAULTS + DEFAULTS + map[] == DEFAULTS
  {
  }

  lemma OthersGrow(r: Repo, t: Name, k: set<Hash>, l: set<Hash>)
    requires Others(r, t, k) && k <= l
    ensures Others(r, t, l)
  {
  }

  // ---------------------------------------------------------------------------
  // Metadata that is not the image's own

  /** Building on `t` sees metadata in which "x" is not set. */
  lemma MissesX(mode: Mode, r: Repo, w: World, t: Name, u: Name)
    requires Inv(r) && t in r.ready && t != u && "x" in Branch(r, t).vars && "x" !in LoadVars(DEFAULTS, r, t)
    requires Seek(mode, r, Chain(r.commits[r.ready[t]].sid, "z"), u).None?
    ensures Build(mode, DEMO, r, Stage(t, map[], u, ["z"])).ok
    ensures !Agrees(mode, DEMO, r, OnBranch(w, r, t), Stage(t, map[], u, ["z"]), u)
  {
    MixedBase(mode, DEMO, r, t, map[], u, "z", "z");
    PlainOnce(DEMO, r, w, t, map[], u, "z", "z");
    var made, plain := Set(LoadVars(DEFAULTS, r, t) + map[], "z"), Set(Branch(r, t).vars + DEFAULTS + map[], "z");
    assert "z" != "x" by { assert "z"[0] != "x"[0]; }
    assert "x" in plain && "x" !in made;
  }

  lemma ShortKeys()
    ensures "x" !in DEFAULTS && "x" != "y" && "x" != "z" && "x" != "bad" && "y" != "bad" && "z" != "bad"
  {
    assert |"x"| == 1 && |"y"| == 1 && |"z"| == 1 && |"bad"| == 3;
    assert |"arg FAKEROOTDONTTRYCHOWN"| > 1 && |"arg PATH"| > 1 && |"arg TAR_OPTIONS"| > 1;
    assert "x"[0] != "y"[0] && "x"[0] != "z"[0];
  }

  lemma MoreCmds(cmds: seq<Cmd>, c: Cmd)
    ensures DoAll(DEMO, cmds + [c]).0 == Do(DEMO, DoAll(DEMO, cmds).0, c)
  {
    assert (cmds + [c])[..|cmds + [c]| - 1] == cmds;
    var (r, w) := DoAll(DEMO, cmds);
  }

  /** FROM of an image on itself deletes the image's directory and leaves the branch. The
      next build on the image then starts from the initial metadata, and succeeds. */
  lemma AfterFailedFrom(mode: Mode, w: World, b: Name, t: Name, u: Name) returns (cmds: seq<Cmd>, r: Repo)
    requires b != t && t != u
    ensures r == DoAll(DEMO, cmds).0 && Inv(r) && t in r.ready && t !in r.dirs
    ensures Build(mode, DEMO, r, Stage(t, map[], u, ["z"])).ok
    ensures !Agrees(mode, DEMO, r, OnBranch(w, r, t), Stage(t, map[], u, ["z"]), u)
  {
    cmds := [] + [FirstBuild(b, t)] + [BuildCmd(Rebuild, [From(t, map[], t)])];
    MoreCmds([], FirstBuild(b, t));
    MoreCmds([] + [FirstBuild(b, t)], BuildCmd(Rebuild, [From(t, map[], t)]));
    r := Do(DEMO, First(b, t), BuildCmd(Rebuild, [From(t, map[], t)]));
    FirstAt(b, t);
    SelfFrom(First(b, t), t);
    GoneMissesX(mode, First(b, t), r, w, b, t, u);
  }

  lemma SelfFrom(s: Repo, t: Name)
    ensures Do(DEMO, s, BuildCmd(Rebuild, [From(t, map[], t)])) == PrepareRollback(s, {t})
  {
    OneInst(Rebuild, DEMO, s, PStart(map[], {}), From(t, map[], t));
  }

  lemma GoneMissesX(mode: Mode, s: Repo, r: Repo, w: World, b: Name, t: Name, u: Name)
    requires FirstOk(s, b, t) && t != u && r == PrepareRollback(s, {t})
    ensures Inv(r) && t in r.ready && t !in r.dirs && Build(mode, DEMO, r, Stage(t, map[], u, ["z"])).ok
    ensures !Agrees(mode, DEMO, r, OnBranch(w, r, t), Stage(t, map[], u, ["z"]), u)
  {
    forall n | n in r.dirs ensures DirOk(r, n) { assert DirOk(s, n); }
    ShortKeys();
    NoZ(r, b, u);
    MissesX(mode, r, w, t, u);
  }

  /** "z" has not been executed on `t`. */
  lemma NoZ(r: Repo, b: Name, u: Name)
    requires Inv(r) && r.commits.Keys <= {0, 1, 2, 3} && {0, 1, 2} <= r.commits.Keys
    requires r.commits[0].sid == Root && r.commits[1].sid == Chain(Root, b) && r.commits[2].sid == Chain(Chain(Root, b), "x")
    requires 3 in r.commits ==> r.commits[3].sid == Chain(Chain(Root, b), "y")
    ensures FindSid(r, Chain(r.commits[2].sid, "z"), u).None?
  {
    NoSuchState(r, Chain(r.commits[2].sid, "z"), u);
  }

  /** A build that fails in the middle leaves the directory at its last instruction and
      the ready branch where it was. */
  lemma AfterFailedBuild(mode: Mode, w: World, b: Name, t: Name, u: Name) returns (cmds: seq<Cmd>, r: Repo)
    requires b != t && t != u
    ensures r == DoAll(DEMO, cmds).0 && Inv(r) && t in r.ready && t in r.dirs
    ensures Build(mode, DEMO, r, Stage(t, map[], u, ["z"])).ok
    ensures !Agrees(mode, DEMO, r, OnBranch(w, r, t), Stage(t, map[], u, ["z"]), u)
  {
    cmds := [] + [FirstBuild(b, t)] + [FailAfter(b, t, "y")];
    MoreCmds([], FirstBuild(b, t));
    MoreCmds([] + [FirstBuild(b, t)], FailAfter(b, t, "y"));
    FirstAt(b, t);
    r := FailedAfter(First(b, t), b, t, "y");
    ElsewhereMissesX(mode, First(b, t), r, w, b, t, u);
  }

  function FailAfter(b: Name, t: Name, op: string): Cmd { BuildCmd(Rebuild, Stage(b, map[], t, [op, "bad"])) }

  lemma FailedAfter(s: Repo, b: Name, t: Name, op: string) returns (r: Repo)
    requires Inv(s) && b in s.ready && b != t && op in ["y", "z"] && !CheckedOut(s, t, s.ready[b])
    ensures r == Do(DEMO, s, FailAfter(b, t, op)) && Inv(r) && SteppedOk(s, b, t, op, r)
  {
    ShortKeys();
    ThenBad(s, b, t, op);
    r := Do(DEMO, s, FailAfter(b, t, op));
    SteppedAt(s, b, t, op);
    SteppedInv(s, b, t, op);
  }

  lemma ElsewhereMissesX(mode: Mode, s: Repo, r: Repo, w: World, b: Name, t: Name, u: Name)
    requires FirstOk(s, b, t) && b != t && t != u && SteppedOk(s, b, t, "y", r) && Inv(r)
    ensures t in r.ready && t in r.dirs && Build(mode, DEMO, r, Stage(t, map[], u, ["z"])).ok
    ensures !Agrees(mode, DEMO, r, OnBranch(w, r, t), Stage(t, map[], u, ["z"]), u)
  {
    ShortKeys();
    NoZ(r, b, u);
    MissesX(mode, r, w, t, u);
  }

  // ---------------------------------------------------------------------------
  // A deletion that loses a commit

  lemma DeleteTips(r: Repo, t: Name, k: set<Hash>)
    requires Others(r, t, k) && t in r.ready && t in r.unready
    ensures forall h :: Tip(Delete(r, t), h) ==> h in k + {r.unready[t]}
  {
    var q := r.(dirs := r.dirs - {t});
    BranchDeleteAt(q, t);
    forall h | Tip(Delete(r, t), h) ensures h in k + {r.unready[t]} {
      TipsSurvive(q, t, Delete(r, t), h);
    }
  }

  /** Two builds of `t` fail after an instruction each. The first one's commit is then only
      in reflogs that deleting `t` removes: it can be found before and not after. */
  lemma DeleteLoses(b: Name, t: Name) returns (cmds: seq<Cmd>, r: Repo, h: Hash)
    requires b != t
    ensures r == DoAll(DEMO, cmds).0 && t in r.dirs && t in r.ready
    ensures Findable(r, h) && !Findable(Do(DEMO, r, DeleteCmd(t)), h)
  {
    cmds, h := [] + [FirstBuild(b, t)] + [FailAfter(b, t, "y")] + [FailAfter(b, t, "z")], 3;
    MoreCmds([], FirstBuild(b, t));
    MoreCmds([] + [FirstBuild(b, t)], FailAfter(b, t, "y"));
    MoreCmds([] + [FirstBuild(b, t)] + [FailAfter(b, t, "y")], FailAfter(b, t, "z"));
    FirstAt(b, t);
    r := FailedTwice(First(b, t), b, t);
  }

  lemma FailedTwice(s0: Repo, b: Name, t: Name) returns (r: Repo)
    requires FirstOk(s0, b, t) && b != t
    ensures r == Do(DEMO, Do(DEMO, s0, FailAfter(b, t, "y")), FailAfter(b, t, "z"))
    ensures t in r.dirs && t in r.ready && Findable(r, 3) && !Findable(Delete(r, t), 3)
  {
    var s1 := FailedAfter(s0, b, t, "y");
    SteppedOthers(s0, b, t, "y", s1, {0, 1, 2});
    r := FailedAfter(s1, b, t, "z");
    SteppedOthers(s1, b, t, "z", r, {0, 1, 2});
    OnlyByReflog(s0, s1, r, b, t);
  }

  lemma OnlyByReflog(s0: Repo, s1: Repo, r: Repo, b: Name, t: Name)
    requires FirstOk(s0, b, t) && b != t && SteppedOk(s0, b, t, "y", s1) && SteppedOk(s1, b, t, "z", r)
    requires Others(r, t, {0, 1, 2})
    ensures Findable(r, 3) && !Findable(Delete(r, t), 3) && t in r.dirs && t in r.ready
  {
    TwoMore(s0, s1, r, b, t);
    assert Tip(r, 3) && Anc(r.commits, 3, 3);
    DeleteTips(r, t, {0, 1, 2});
    DeleteAt(r, t);
    NotBelow(r.commits);
  }

  lemma OneMore(s0: Repo, s1: Repo, b: Name, t: Name)
    requires FirstOk(s0, b, t) && b != t && SteppedOk(s0, b, t, "y", s1)
    ensures s1.next == 4 && s1.ready == s0.ready && t in s1.dirs && s1.dirs[t].Linked? && 3 in s1.dirs[t].log
    ensures var c := s1.commits;
            c.Keys == {0, 1, 2, 3} && c[0].parent == None && c[1].parent == Some(0) && c[2].parent == Some(1)
  {
  }

  lemma TwoMore(s0: Repo, s1: Repo, r: Repo, b: Name, t: Name)
    requires FirstOk(s0, b, t) && b != t && SteppedOk(s0, b, t, "y", s1) && SteppedOk(s1, b, t, "z", r)
    ensures t in r.dirs && DirTip(r.dirs[t], 3) && t in r.ready && t in r.unready && r.unready[t] == 4
    ensures var c := r.commits;
            && c.Keys == {0, 1, 2, 3, 4}
            && c[0].parent == None && c[1].parent == Some(0) && c[2].parent == Some(1) && c[4].parent == Some(1)
  {
    OneMore(s0, s1, b, t);
    LastOne(s1, r, b, t);
  }

  lemma LastOne(s: Repo, r: Repo, b: Name, t: Name)
    requires s.next == 4 && s.ready == map[b := 1, t := 2] && b != t && t in s.dirs && s.dirs[t].Linked? && 3 in s.dirs[t].log
    requires s.commits.Keys == {0, 1, 2, 3} && SteppedOk(s, b, t, "z", r)
    ensures t in r.dirs && DirTip(r.dirs[t], 3) && t in r.ready && t in r.unready && r.unready[t] == 4
    ensures r.commits.Keys == {0, 1, 2, 3, 4} && r.commits[4].parent == Some(1)
    ensures forall h :: 0 <= h < 3 ==> r.commits[h] == s.commits[h]
  {
  }

  lemma NotBelow(c: map<Hash, Commit>)
    requires c.Keys == {0, 1, 2, 3, 4}
    requires c[0].parent == None && c[1].parent == Some(0) && c[2].parent == Some(1) && c[4].parent == Some(1)
    ensures forall k :: k in {0, 1, 2} + {4} ==> !Anc(c, 3, k)
  {
    assert !Anc(c, 3, 0) && !Anc(c, 3, 1) && !Anc(c, 3, 2) && !Anc(c, 3, 4);
  }
}
