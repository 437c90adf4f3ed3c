/**
  What the cache is for: a program that has been built is not executed again. The second
  build follows the first instruction by instruction, finds every state on the branch that
  the first has left, and commits nothing.
 */
module Again {
  import opened BuildCache
  import opened MainLoop

  function V(mode: Mode, sem: Semantics, r: Repo, prog: seq<Inst>, k: nat): Out
    requires k <= |prog|
  {
    VisitAll(mode, sem, r, prog[..k])
  }

  function P(sem: Semantics, p: PState, prog: seq<Inst>, k: nat): POut
    requires k <= |prog|
  {
    PVisitAll(sem, p, prog[..k])
  }

  lemma VNext(mode: Mode, sem: Semantics, r: Repo, prog: seq<Inst>, k: nat)
    requires k < |prog|
    ensures var o := V(mode, sem, r, prog, k);
            V(mode, sem, r, prog, k + 1) == if o.ok then Visit(mode, sem, o.repo, o.loop, prog[k]) else o
  {
    assert prog[..k + 1][..k] == prog[..k];
  }

  lemma PNext(sem: Semantics, p: PState, prog: seq<Inst>, k: nat)
    requires k < |prog|
    ensures var o := P(sem, p, prog, k);
            P(sem, p, prog, k + 1) ==
              if !o.ok then o
              else match PVisit(sem, o.state, prog[k])
                   case None => POut(false, o.state, prog[k])
                   case Some(q) => POut(true, q, Ignored)
  {
    assert prog[..k + 1][..k] == prog[..k];
  }

  lemma {:induction false} OkBefore(sem: Semantics, p: PState, prog: seq<Inst>, k: nat, m: nat)
    requires k <= m <= |prog| && P(sem, p, prog, m).ok
    ensures P(sem, p, prog, k).ok
  {
    if k < m {
      PNext(sem, p, prog, m - 1);
      OkBefore(sem, p, prog, k, m - 1);
    }
  }

  /** No image is built after it has been a base or a result. */
  ghost predicate Forward(prog: seq<Inst>) {
    forall i, j :: 0 <= i < j < |prog| && prog[i].From? && prog[j].From? ==>
      prog[j].tag != prog[i].ref && prog[j].tag != prog[i].tag
  }

  /** No stage of these builds `x`. */
  ghost predicate NotBuilt(prog: seq<Inst>, k: nat, m: nat, x: Name)
    requires k <= m <= |prog|
  {
    forall j :: k <= j < m && prog[j].From? ==> prog[j].tag != x
  }

  // ---------------------------------------------------------------------------
  // The reference runs the same again

  ghost predicate PKeeps(p: PState, q: PState, x: Name) {
    && (x in p.imgs && !(p.cur.Some? && p.tag == x) ==>
          x in q.imgs && q.imgs[x] == p.imgs[x] && !(q.cur.Some? && q.tag == x))
    && q.torn <= p.torn
  }

  lemma PStepKeeps(sem: Semantics, p: PState, inst: Inst, x: Name)
    requires PVisit(sem, p, inst).Some? && (inst.From? ==> inst.tag != x)
    ensures PKeeps(p, PVisit(sem, p, inst).value, x)
  {
  }

  lemma {:induction false} PStable(sem: Semantics, p: PState, prog: seq<Inst>, k: nat, m: nat, x: Name)
    requires k <= m <= |prog| && P(sem, p, prog, m).ok && NotBuilt(prog, k, m, x)
    ensures P(sem, p, prog, k).ok && PKeeps(P(sem, p, prog, k).state, P(sem, p, prog, m).state, x)
  {
    if k < m {
      OkBefore(sem, p, prog, m - 1, m);
      PStable(sem, p, prog, k, m - 1, x);
      PNext(sem, p, prog, m - 1);
      PStepKeeps(sem, P(sem, p, prog, m - 1).state, prog[m - 1], x);
    }
  }

  /** The stage in progress was opened by an earlier FROM. */
  lemma {:induction false} OpenedBy(sem: Semantics, p: PState, prog: seq<Inst>, k: nat) returns (i: nat)
    requires k <= |prog| && P(sem, p, prog, k).ok && P(sem, p, prog, k).state.cur.Some? && p.cur.None?
    ensures i < k && prog[i].From? && prog[i].tag == P(sem, p, prog, k).state.tag
  {
    assert prog[..0] == [];
    PNext(sem, p, prog, k - 1);
    i := k - 1;
    if !prog[k - 1].From? { i := OpenedBy(sem, p, prog, k - 1); }
  }

  /** What storage holds in the end. */
  function End(sem: Semantics, p: PState, prog: seq<Inst>): PState { PClose(PVisitAll(sem, p, prog).state) }

  /** The second run's state: the first one's, in the storage of the end. */
  function Later(s: PState, e: PState): PState { s.(imgs := e.imgs, torn := e.torn) }

  lemma InEnd(sem: Semantics, p: PState, prog: seq<Inst>, k: nat, x: Name, e: PState)
    requires k <= |prog| && P(sem, p, prog, |prog|).ok && NotBuilt(prog, k, |prog|, x) && e == End(sem, p, prog)
    ensures P(sem, p, prog, k).ok && PKeeps(P(sem, p, prog, k).state, e, x)
  {
    assert prog[..|prog|] == prog;
    PStable(sem, p, prog, k, |prog|, x);
  }

  /** FROM finds the same base, and closing the stage before it changes nothing. */
  lemma FromAgain(sem: Semantics, p: PState, prog: seq<Inst>, k: nat, e: PState, s: PState, t: PState)
    requires k < |prog| && P(sem, p, prog, |prog|).ok && p.cur.None? && Forward(prog) && prog[k].From?
    requires e == End(sem, p, prog) && s == P(sem, p, prog, k).state && P(sem, p, prog, k).ok
    requires PVisit(sem, s, prog[k]) == Some(t)
    ensures PClose(Later(s, e)) == Later(PClose(s), e)
    ensures PBase(sem, e.imgs, prog[k].ref) == PBase(sem, PClose(s).imgs, prog[k].ref)
    ensures PVisit(sem, Later(s, e), prog[k]) == Some(Later(t, e))
  {
    var ref := prog[k].ref;
    PNext(sem, p, prog, k);
    InEnd(sem, p, prog, k + 1, ref, e);
    if s.cur.Some? {
      var i := OpenedBy(sem, p, prog, k);
      InEnd(sem, p, prog, k + 1, s.tag, e);
      assert s.tag !in t.torn && t.imgs[s.tag] == s.cur.value;
      assert e.imgs[s.tag := s.cur.value] == e.imgs && e.torn - {s.tag} == e.torn;
    }
    assert e.imgs[ref := e.imgs[ref]] == e.imgs;
  }

  lemma StepAgain(sem: Semantics, s: PState, t: PState, inst: Inst, e: PState)
    requires !inst.From? && PVisit(sem, s, inst) == Some(t)
    ensures PVisit(sem, Later(s, e), inst) == Some(Later(t, e))
  {
  }

  lemma {:induction false} PAgain(sem: Semantics, p: PState, prog: seq<Inst>, k: nat, e: PState)
    requires k <= |prog| && P(sem, p, prog, |prog|).ok && p.cur.None? && p.built == map[] && p.argfrom == map[] && p.tag == ""
    requires Forward(prog) && e == End(sem, p, prog)
    ensures P(sem, p, prog, k).ok
    ensures var o := P(sem, PStart(e.imgs, e.torn), prog, k); o.ok && o.state == Later(P(sem, p, prog, k).state, e)
  {
    OkBefore(sem, p, prog, k, |prog|);
    if k == 0 {
      assert prog[..0] == [];
    } else {
      PAgain(sem, p, prog, k - 1, e);
      PNext(sem, p, prog, k - 1);
      PNext(sem, PStart(e.imgs, e.torn), prog, k - 1);
      var s, t := P(sem, p, prog, k - 1).state, P(sem, p, prog, k).state;
      if prog[k - 1].From? {
        FromAgain(sem, p, prog, k - 1, e, s, t);
      } else {
        StepAgain(sem, s, t, prog[k - 1], e);
      }
    }
  }

  lemma {:induction false} SettledPrefix(sem: Semantics, p: PState, prog: seq<Inst>, k: nat)
    requires SettledAll(sem, p, prog) && k <= |prog|
    ensures SettledAll(sem, p, prog[..k])
    ensures k < |prog| && P(sem, p, prog, k).ok ==> Settled(sem, P(sem, p, prog, k).state, prog[k])
    decreases |prog| - k
  {
    if k == |prog| {
      assert prog[..k] == prog;
    } else {
      SettledPrefix(sem, p, prog, k + 1);
      assert prog[..k + 1][..k] == prog[..k];
    }
  }

  /** So it is settled again. */
  lemma {:induction false} SettledAgain(sem: Semantics, p: PState, prog: seq<Inst>, k: nat, e: PState)
    requires k <= |prog| && P(sem, p, prog, |prog|).ok && p.cur.None? && p.built == map[] && p.argfrom == map[] && p.tag == ""
    requires Forward(prog) && e == End(sem, p, prog) && SettledAll(sem, p, prog)
    ensures SettledAll(sem, PStart(e.imgs, e.torn), prog[..k])
  {
    if k > 0 {
      SettledAgain(sem, p, prog, k - 1, e);
      PAgain(sem, p, prog, k - 1, e);
      PAgain(sem, p, prog, k, e);
      PNext(sem, p, prog, k - 1);
      SettledPrefix(sem, p, prog, k - 1);
      var s, t := P(sem, p, prog, k - 1).state, P(sem, p, prog, k).state;
      if prog[k - 1].From? { SettledFrom(sem, p, prog, k - 1, e, s, t); }
      assert prog[..k][..k - 1] == prog[..k - 1] && prog[..k][k - 1] == prog[k - 1];
    }
  }

  lemma SettledFrom(sem: Semantics, p: PState, prog: seq<Inst>, k: nat, e: PState, s: PState, t: PState)
    requires k < |prog| && P(sem, p, prog, |prog|).ok && p.cur.None? && Forward(prog) && prog[k].From?
    requires e == End(sem, p, prog) && s == P(sem, p, prog, k).state && P(sem, p, prog, k).ok
    requires PVisit(sem, s, prog[k]) == Some(t) && Settled(sem, s, prog[k])
    ensures Settled(sem, Later(s, e), prog[k])
  {
    FromAgain(sem, p, prog, k, e, s, t);
    PNext(sem, p, prog, k);
    InEnd(sem, p, prog, k + 1, prog[k].ref, e);
  }

  // ---------------------------------------------------------------------------
  // What the first run leaves on branches

  /** Commits stay, and so does the branch of `x` unless it is in `d`. */
  ghost predicate Keeps(r: Repo, s: Repo, d: set<Name>) {
    && (forall h :: h in r.commits ==> h in s.commits && s.commits[h] == r.commits[h])
    && (forall n :: n in r.ready && n !in d ==> n in s.ready && s.ready[n] == r.ready[n])
  }

  lemma CheckoutKeeps(r: Repo, n: Name, h: Hash)
    ensures Keeps(r, Checkout(r, n, h), {})
  {
    CheckoutAt(r, n, h);
  }

  lemma CommitKeeps(r: Repo, n: Name, sid: Sid, image: Image, larges: set<string>)
    requires Inv(r) && n in r.dirs && r.dirs[n].Linked?
    ensures Keeps(r, CommitTo(r, n, sid, image, larges), {n})
  {
    CommitAt(r, n, sid, image, larges);
  }

  lemma ReadyKeeps(r: Repo, n: Name)
    requires n in r.dirs && r.dirs[n].Linked?
    ensures Keeps(r, Ready(r, n), {n})
  {
    ReadyAt(r, n);
  }

  lemma AddBaseKeeps(sem: Semantics, r: Repo, n: Name, input: string, image: Image)
    requires Inv(r)
    ensures Keeps(r, AddBase(sem, r, n, input, image), {n})
  {
    var c := Checkout(r, n, 0);
    CheckoutAt(r, n, 0);
    CheckoutInv(r, n, 0);
    CheckoutKeeps(r, n, 0);
    var s := CommitTo(c, n, Chain(Root, input), image, sem.larges(image.core.files));
    CommitKeeps(c, n, Chain(Root, input), image, sem.larges(image.core.files));
    CommitAt(c, n, Chain(Root, input), image, sem.larges(image.core.files));
    ReadyKeeps(s, n);
  }

  lemma PullKeeps(sem: Semantics, r: Repo, ref: Name, m: string)
    requires Inv(r)
    ensures Keeps(r, Pull(sem, r, ref, m), {ref})
  {
    var q := r.(dirs := r.dirs - {ref});
    forall n | n in q.dirs ensures DirOk(q, n) { assert DirOk(r, n); }
    AddBaseKeeps(sem, q, ref, m, Image(sem.pulled(m), []));
  }

  lemma KeepsAll(r: Repo, s: Repo, ref: Name)
    requires Keeps(r, s, {ref}) && ref !in r.ready
    ensures Keeps(r, s, {})
  {
  }

  lemma FindBaseKeeps(sem: Semantics, r: Repo, ref: Name)
    requires Inv(r) && FindBase(sem, r, ref).Some?
    ensures Keeps(r, FindBase(sem, r, ref).value, {})
  {
    if ref in r.ready {
    } else if ref in r.dirs && r.dirs[ref].Bare? {
      var i := r.dirs[ref].image;
      AddBaseKeeps(sem, r, ref, "IMPORT " + ref, i.(core := i.core.(vars := i.core.vars + DEFAULTS)));
      KeepsAll(r, FindBase(sem, r, ref).value, ref);
    } else {
      PullKeeps(sem, r, ref, sem.manifest(ref).value);
      KeepsAll(r, FindBase(sem, r, ref).value, ref);
    }
  }

  lemma StepKeeps(mode: Mode, sem: Semantics, r: Repo, lp: Loop, input: string)
    requires Inv(r) && lp.prev.InImage? && lp.prev.sid.Some? && lp.prev.hash.Some? && lp.prev.hash.value in r.commits
    ensures Keeps(r, Prepared(mode, sem, r, lp, input).repo, {lp.tag})
  {
    var vars, sid := sem.effect(input, lp.vars), Chain(lp.prev.sid.value, input);
    if Seek(mode, r, sid, lp.tag).None? {
      var s := if lp.missCt == 0 then Checkout(r, lp.tag, lp.prev.hash.value) else r;
      if lp.missCt == 0 {
        CheckoutKeeps(r, lp.tag, lp.prev.hash.value);
        CheckoutInv(r, lp.tag, lp.prev.hash.value);
      }
      ExecuteKeeps(sem, s, lp, input, vars, sid);
    }
  }

  lemma ExecuteKeeps(sem: Semantics, r: Repo, lp: Loop, input: string, vars: Vars, sid: Sid)
    requires Inv(r)
    ensures Keeps(r, Execute(sem, r, lp, input, vars, sid).repo, {lp.tag})
  {
    if lp.tag in r.dirs && r.dirs[lp.tag].Linked? {
      match sem.run(input, Core(r.dirs[lp.tag].image.core.files, vars))
      case Failed(_) =>
      case Done(files) =>
        CommitKeeps(r, lp.tag, sid, Image(Core(files, vars), lp.history + [input]), sem.larges(files));
    }
  }

  /** `s` is what `t` is, or what it was built from. */
  predicate Under(s: Sid, t: Sid) { s == t || (t.Chain? && Under(s, t.parent)) }

  /** Closing a stage makes its branch stand for its last state. */
  lemma ClosedReady(r: Repo, lp: Loop, cur: Core, mode: Mode)
    requires Inv(r) && InStage(mode, r, lp, cur)
    ensures var c := Closed(r, lp);
            && Inv(c) && Keeps(r, c, {lp.tag}) && c.commits == r.commits && c.next == r.next
            && lp.tag in c.ready && c.ready[lp.tag] == lp.prev.hash.value
            && c.ready[lp.tag] in c.commits && Some(c.commits[c.ready[lp.tag]].sid) == lp.prev.sid
  {
    var h := lp.prev.hash.value;
    if lp.missCt == 0 {
      CheckoutAt(r, lp.tag, h);
      CheckoutInv(r, lp.tag, h);
      var s := Checkout(r, lp.tag, h);
      ReadyAt(s, lp.tag);
      ReadyInv(s, lp.tag, Ready(s, lp.tag));
    } else {
      ReadyAt(r, lp.tag);
      ReadyInv(r, lp.tag, Ready(r, lp.tag));
    }
  }

  /** The branch `t` stands for a state at or above `s`. */
  ghost predicate StandsFor(r: Repo, t: Name, s: Sid) {
    t in r.ready && r.ready[t] in r.commits && Under(s, r.commits[r.ready[t]].sid)
  }

  ghost predicate Current(lp: Loop, t: Name) { lp.prev.InImage? && lp.tag == t }

  /** The state `s` of the stage that builds `t` is still there: in the stage, or on its
      branch once the stage is closed. */
  ghost predicate Reached(r: Repo, lp: Loop, t: Name, s: Sid) {
    if Current(lp, t) then lp.prev.sid.Some? && Under(s, lp.prev.sid.value) else StandsFor(r, t, s)
  }

  lemma KeepsBranch(r: Repo, s: Repo, d: set<Name>, t: Name, sid: Sid)
    requires Keeps(r, s, d) && t !in d && StandsFor(r, t, sid)
    ensures StandsFor(s, t, sid)
  {
  }

  lemma PreparedReaches(mode: Mode, sem: Semantics, r: Repo, lp: Loop, cur: Core, input: string, t: Name, s: Sid)
    requires Inv(r) && InStage(mode, r, lp, cur) && Reached(r, lp, t, s)
    ensures var o := Prepared(mode, sem, r, lp, input); o.ok ==> Reached(o.repo, o.loop, t, s)
  {
    var o := Prepared(mode, sem, r, lp, input);
    StepKeeps(mode, sem, r, lp, input);
    PreparedSid(mode, sem, r, lp, input);
    if o.ok { ReachedStep(r, lp, input, o, t, s); }
  }

  lemma ReachedStep(r: Repo, lp: Loop, input: string, o: Out, t: Name, s: Sid)
    requires lp.prev.InImage? && lp.prev.sid.Some? && Reached(r, lp, t, s) && Keeps(r, o.repo, {lp.tag})
    requires Current(o.loop, lp.tag) && o.loop.prev.sid == Some(Chain(lp.prev.sid.value, input))
    ensures Reached(o.repo, o.loop, t, s)
  {
    if t != lp.tag { KeepsBranch(r, o.repo, {lp.tag}, t, s); }
  }

  /** Hit or miss, the state is the same. */
  lemma PreparedSid(mode: Mode, sem: Semantics, r: Repo, lp: Loop, input: string)
    requires lp.prev.InImage? && lp.prev.sid.Some? && lp.prev.hash.Some?
    ensures var o := Prepared(mode, sem, r, lp, input);
            o.ok ==> Current(o.loop, lp.tag) && o.loop.prev.sid == Some(Chain(lp.prev.sid.value, input))
  {
  }

  lemma StepReaches(mode: Mode, sem: Semantics, r: Repo, lp: Loop, p: PState, op: string, t: Name, s: Sid)
    requires Rel(mode, sem, r, lp, p) && Reached(r, lp, t, s) && VisitStep(mode, sem, r, lp, op).ok
    ensures var o := VisitStep(mode, sem, r, lp, op); Reached(o.repo, o.loop, t, s)
  {
    var input := sem.input(op, lp.vars, Built(r, lp.done)).value;
    PreparedReaches(mode, sem, r, lp, p.cur.value, input, t, s);
  }

  lemma ReachedClosed(r: Repo, lp: Loop, c: Repo, t: Name, s: Sid)
    requires Keeps(r, c, {lp.tag}) && lp.tag in c.ready && c.ready[lp.tag] in c.commits
    requires lp.prev.InImage? && Some(c.commits[c.ready[lp.tag]].sid) == lp.prev.sid && Reached(r, lp, t, s)
    ensures StandsFor(c, t, s)
  {
    if t != lp.tag { KeepsBranch(r, c, {lp.tag}, t, s); }
  }

  lemma ClosedReaches(mode: Mode, r: Repo, lp: Loop, p: PState, t: Name, s: Sid)
    requires Inv(r) && Alike(lp, p) && (p.cur.Some? ==> InStage(mode, r, lp, p.cur.value)) && Reached(r, lp, t, s)
    ensures Inv(Closed(r, lp)) && StandsFor(Closed(r, lp), t, s)
  {
    if p.cur.Some? {
      ClosedReady(r, lp, p.cur.value, mode);
      var c := Closed(r, lp);
      ReachedClosed(r, lp, c, t, s);
    }
  }

  lemma FromOnReaches(sem: Semantics, c: Repo, lp: Loop, ref: Name, args: Vars, tag: Name, t: Name, s: Sid)
    requires Inv(c) && StandsFor(c, t, s) && tag != t
    ensures var o := FromOn(sem, c, lp, ref, args, tag); o.ok ==> Reached(o.repo, o.loop, t, s)
  {
    if FindBase(sem, c, ref).Some? {
      FindBaseKeeps(sem, c, ref);
      KeepsBranch(c, FindBase(sem, c, ref).value, {}, t, s);
    }
  }

  lemma FromReaches(mode: Mode, sem: Semantics, r: Repo, lp: Loop, p: PState, ref: Name, args: Vars, tag: Name, t: Name, s: Sid)
    requires Rel(mode, sem, r, lp, p) && Reached(r, lp, t, s) && VisitFrom(sem, r, lp, ref, args, tag).ok && tag != t
    ensures var o := VisitFrom(sem, r, lp, ref, args, tag); Reached(o.repo, o.loop, t, s)
  {
    ClosedReaches(mode, r, lp, p, t, s);
    FromOnReaches(sem, Closed(r, lp), lp, ref, args, tag, t, s);
  }

  lemma VisitReaches(mode: Mode, sem: Semantics, r: Repo, lp: Loop, p: PState, inst: Inst, t: Name, s: Sid)
    requires Rel(mode, sem, r, lp, p) && Reached(r, lp, t, s)
    requires Visit(mode, sem, r, lp, inst).ok && (inst.From? ==> inst.tag != t)
    ensures var o := Visit(mode, sem, r, lp, inst); Reached(o.repo, o.loop, t, s)
  {
    match inst
    case Step(op) => StepReaches(mode, sem, r, lp, p, op, t, s);
    case From(ref, args, tag) => FromReaches(mode, sem, r, lp, p, ref, args, tag, t, s);
    case _ =>
  }

  /** Except for the current stage's, branches stay; and only FROM begins a stage. */
  ghost predicate Goes(r: Repo, lp: Loop, inst: Inst, s: Repo, lp': Loop) {
    && Keeps(r, s, if lp.prev.InImage? then {lp.tag} else {})
    && forall x :: Current(lp', x) ==> Current(lp, x) || (inst.From? && inst.tag == x)
  }

  lemma StepGoes(mode: Mode, sem: Semantics, r: Repo, lp: Loop, p: PState, op: string)
    requires Rel(mode, sem, r, lp, p) && VisitStep(mode, sem, r, lp, op).ok
    ensures var o := VisitStep(mode, sem, r, lp, op); Goes(r, lp, Step(op), o.repo, o.loop)
  {
    var input := sem.input(op, lp.vars, Built(r, lp.done)).value;
    StepKeeps(mode, sem, r, lp, input);
    PreparedSid(mode, sem, r, lp, input);
  }

  lemma KeepsMore(r: Repo, c: Repo, s: Repo, d: set<Name>)
    requires Keeps(r, c, d) && Keeps(c, s, {})
    ensures Keeps(r, s, d)
  {
  }

  lemma ClosedKeepsOthers(mode: Mode, sem: Semantics, r: Repo, lp: Loop, p: PState)
    requires Rel(mode, sem, r, lp, p)
    ensures Inv(Closed(r, lp)) && Keeps(r, Closed(r, lp), if lp.prev.InImage? then {lp.tag} else {})
  {
    if p.cur.Some? { ClosedReady(r, lp, p.cur.value, mode); }
  }

  lemma FromGoes(mode: Mode, sem: Semantics, r: Repo, lp: Loop, p: PState, ref: Name, args: Vars, tag: Name)
    requires Rel(mode, sem, r, lp, p) && VisitFrom(sem, r, lp, ref, args, tag).ok
    ensures var o := VisitFrom(sem, r, lp, ref, args, tag); Goes(r, lp, From(ref, args, tag), o.repo, o.loop)
  {
    var c := Closed(r, lp);
    ClosedKeepsOthers(mode, sem, r, lp, p);
    FindBaseKeeps(sem, c, ref);
    KeepsMore(r, c, FindBase(sem, c, ref).value, if lp.prev.InImage? then {lp.tag} else {});
  }

  lemma VisitGoes(mode: Mode, sem: Semantics, r: Repo, lp: Loop, p: PState, inst: Inst)
    requires Rel(mode, sem, r, lp, p) && Visit(mode, sem, r, lp, inst).ok
    ensures var o := Visit(mode, sem, r, lp, inst); Goes(r, lp, inst, o.repo, o.loop)
  {
    match inst
    case Step(op) => StepGoes(mode, sem, r, lp, p, op);
    case From(ref, args, tag) => FromGoes(mode, sem, r, lp, p, ref, args, tag);
    case _ =>
  }

  /** The branch of `x`, which no stage is building, stands for exactly `s`. */
  ghost predicate Pinned(r: Repo, lp: Loop, x: Name, s: Sid) {
    !Current(lp, x) && x in r.ready && r.ready[x] in r.commits && r.commits[r.ready[x]].sid == s
  }

  // ---------------------------------------------------------------------------
  // The whole first run

  /** A build that succeeds, of a program that is settled. */
  ghost predicate Succeeds(mode: Mode, sem: Semantics, r: Repo, p: PState, prog: seq<Inst>) {
    && Rel(mode, sem, r, START, p) && p.cur.None? && SettledAll(sem, p, prog) && Forward(prog)
    && P(sem, p, prog, |prog|).ok
  }

  lemma RunRel(mode: Mode, sem: Semantics, r: Repo, p: PState, prog: seq<Inst>, k: nat)
    requires Succeeds(mode, sem, r, p, prog) && k <= |prog|
    ensures V(mode, sem, r, prog, k).ok && P(sem, p, prog, k).ok
    ensures Rel(mode, sem, V(mode, sem, r, prog, k).repo, V(mode, sem, r, prog, k).loop, P(sem, p, prog, k).state)
  {
    SettledPrefix(sem, p, prog, k);
    VisitAllRel(mode, sem, r, p, prog[..k]);
    OkBefore(sem, p, prog, k, |prog|);
  }

  lemma {:induction false} ReachedOn(mode: Mode, sem: Semantics, r: Repo, p: PState, prog: seq<Inst>, k: nat, m: nat, t: Name, s: Sid)
    requires Succeeds(mode, sem, r, p, prog) && k <= m <= |prog| && NotBuilt(prog, k, m, t)
    requires Reached(V(mode, sem, r, prog, k).repo, V(mode, sem, r, prog, k).loop, t, s)
    ensures Reached(V(mode, sem, r, prog, m).repo, V(mode, sem, r, prog, m).loop, t, s)
  {
    if k < m {
      ReachedOn(mode, sem, r, p, prog, k, m - 1, t, s);
      RunRel(mode, sem, r, p, prog, m - 1);
      RunRel(mode, sem, r, p, prog, m);
      VNext(mode, sem, r, prog, m - 1);
      var o := V(mode, sem, r, prog, m - 1);
      VisitReaches(mode, sem, o.repo, o.loop, P(sem, p, prog, m - 1).state, prog[m - 1], t, s);
    }
  }

  lemma {:induction false} PinnedOn(mode: Mode, sem: Semantics, r: Repo, p: PState, prog: seq<Inst>, k: nat, m: nat, x: Name, s: Sid)
    requires Succeeds(mode, sem, r, p, prog) && k <= m <= |prog| && NotBuilt(prog, k, m, x)
    requires Pinned(V(mode, sem, r, prog, k).repo, V(mode, sem, r, prog, k).loop, x, s)
    ensures Pinned(V(mode, sem, r, prog, m).repo, V(mode, sem, r, prog, m).loop, x, s)
  {
    if k < m {
      PinnedOn(mode, sem, r, p, prog, k, m - 1, x, s);
      RunRel(mode, sem, r, p, prog, m - 1);
      RunRel(mode, sem, r, p, prog, m);
      VNext(mode, sem, r, prog, m - 1);
      var o := V(mode, sem, r, prog, m - 1);
      VisitGoes(mode, sem, o.repo, o.loop, P(sem, p, prog, m - 1).state, prog[m - 1]);
    }
  }

  /** At the end. */
  function Final(mode: Mode, sem: Semantics, r: Repo, prog: seq<Inst>): Repo { Build(mode, sem, r, prog).repo }

  lemma FinalIs(mode: Mode, sem: Semantics, r: Repo, p: PState, prog: seq<Inst>)
    requires Succeeds(mode, sem, r, p, prog)
    ensures var o := V(mode, sem, r, prog, |prog|);
            o.ok && Build(mode, sem, r, prog) == Out(true, Closed(o.repo, o.loop), o.loop)
  {
    RunRel(mode, sem, r, p, prog, |prog|);
    assert prog[..|prog|] == prog;
  }

  lemma ReachedEnd(mode: Mode, sem: Semantics, r: Repo, p: PState, prog: seq<Inst>, k: nat, t: Name, s: Sid)
    requires Succeeds(mode, sem, r, p, prog) && k <= |prog| && NotBuilt(prog, k, |prog|, t)
    requires Reached(V(mode, sem, r, prog, k).repo, V(mode, sem, r, prog, k).loop, t, s)
    ensures StandsFor(Final(mode, sem, r, prog), t, s)
  {
    ReachedOn(mode, sem, r, p, prog, k, |prog|, t, s);
    RunRel(mode, sem, r, p, prog, |prog|);
    FinalIs(mode, sem, r, p, prog);
    var o := V(mode, sem, r, prog, |prog|);
    ClosedReaches(mode, o.repo, o.loop, P(sem, p, prog, |prog|).state, t, s);
  }

  lemma PinnedEnd(mode: Mode, sem: Semantics, r: Repo, p: PState, prog: seq<Inst>, k: nat, x: Name, s: Sid)
    requires Succeeds(mode, sem, r, p, prog) && k <= |prog| && NotBuilt(prog, k, |prog|, x)
    requires Pinned(V(mode, sem, r, prog, k).repo, V(mode, sem, r, prog, k).loop, x, s)
    ensures var f := Final(mode, sem, r, prog); x in f.ready && f.ready[x] in f.commits && f.commits[f.ready[x]].sid == s
  {
    PinnedOn(mode, sem, r, p, prog, k, |prog|, x, s);
    RunRel(mode, sem, r, p, prog, |prog|);
    FinalIs(mode, sem, r, p, prog);
    var o := V(mode, sem, r, prog, |prog|);
    ClosedKeepsOthers(mode, sem, o.repo, o.loop, P(sem, p, prog, |prog|).state);
    var c := Closed(o.repo, o.loop);
    PinnedKept(o.repo, o.loop, c, x, s);
  }

  lemma PinnedKept(r: Repo, lp: Loop, c: Repo, x: Name, s: Sid)
    requires Pinned(r, lp, x, s) && Keeps(r, c, if lp.prev.InImage? then {lp.tag} else {})
    ensures x in c.ready && c.ready[x] in c.commits && c.commits[c.ready[x]].sid == s
  {
  }

  // ---------------------------------------------------------------------------
  // The second run

  /** Branches stand for the states that they stood for. */
  ghost predicate SameSids(r: Repo, s: Repo) {
    s.commits == r.commits && s.next == r.next &&
    forall x :: x in r.ready && r.ready[x] in r.commits ==>
      x in s.ready && s.ready[x] in s.commits && s.commits[s.ready[x]].sid == r.commits[r.ready[x]].sid
  }

  lemma {:induction false} UnderFound(r: Repo, h: Hash, s: Sid) returns (a: Hash)
    requires Inv(r) && h in r.commits && Under(s, r.commits[h].sid)
    ensures a in r.commits && r.commits[a].sid == s && Anc(r.commits, a, h)
  {
    assert CommitOk(r.commits, h);
    if r.commits[h].sid == s { a := h; } else { a := UnderFound(r, r.commits[h].parent.value, s); }
  }

  /** What is on the branch is found. */
  lemma FoundAgain(r: Repo, tag: Name, s: Sid)
    requires Inv(r) && StandsFor(r, tag, s)
    ensures FindSid(r, s, tag).Some?
  {
    var a := UnderFound(r, r.ready[tag], s);
    assert BranchHas(r, s, tag, a);
    FindSidExact(r, s, tag);
  }

  /** The second run, `r` and `lp`, is where the first one was, `lp1`, in a cache that has
      what the first run has left, `f`. */
  ghost predicate Follows(f: Repo, r: Repo, lp: Loop, lp1: Loop) {
    && SameSids(f, r) && (lp.prev.InImage? <==> lp1.prev.InImage?)
    && (lp.prev.InImage? ==> lp.missCt == 0 && lp.prev.sid == lp1.prev.sid && lp.tag == lp1.tag)
  }

  lemma StandsStill(f: Repo, r: Repo, t: Name, s: Sid)
    requires SameSids(f, r) && StandsFor(f, t, s)
    ensures StandsFor(r, t, s)
  {
  }

  /** An instruction hits. */
  lemma HitsAgain(sem: Semantics, f: Repo, r: Repo, lp: Loop, cur: Core, input: string)
    requires Inv(r) && InStage(Enabled, r, lp, cur) && SameSids(f, r)
    requires StandsFor(f, lp.tag, Chain(lp.prev.sid.value, input))
    ensures var o := Prepared(Enabled, sem, r, lp, input);
            o.ok && o.repo == r && o.loop.prev.InImage? && o.loop.missCt == lp.missCt && o.loop.tag == lp.tag
            && o.loop.prev.sid == Some(Chain(lp.prev.sid.value, input))
  {
    StandsStill(f, r, lp.tag, Chain(lp.prev.sid.value, input));
    FoundAgain(r, lp.tag, Chain(lp.prev.sid.value, input));
  }

  lemma StepFollows(
      mode: Mode, sem: Semantics, f: Repo, r1: Repo, lp1: Loop, p1: PState, r: Repo, lp: Loop, p: PState, op: string)
    requires Rel(mode, sem, r1, lp1, p1) && Rel(Enabled, sem, r, lp, p) && Follows(f, r, lp, lp1)
    requires p.cur == p1.cur && p.built == p1.built && VisitStep(mode, sem, r1, lp1, op).ok
    requires var o1 := VisitStep(mode, sem, r1, lp1, op).loop;
             o1.prev.InImage? && o1.prev.sid.Some? ==> StandsFor(f, lp1.tag, o1.prev.sid.value)
    ensures var o, o1 := VisitStep(Enabled, sem, r, lp, op), VisitStep(mode, sem, r1, lp1, op);
            o.ok && o.repo == r && Follows(f, o.repo, o.loop, o1.loop)
  {
    BuiltSame(sem, r1, p1);
    BuiltSame(sem, r, p);
    var input := sem.input(op, lp1.vars, Built(r1, lp1.done)).value;
    PreparedSid(mode, sem, r1, lp1, input);
    HitsAgain(sem, f, r, lp, p.cur.value, input);
  }

  /** Closing a stage that has hit puts its branch where the first run has put it. */
  lemma CloseFollows(f: Repo, r: Repo, lp: Loop, cur: Core)
    requires Inv(r) && InStage(Enabled, r, lp, cur) && SameSids(f, r)
    requires lp.tag in f.ready && f.ready[lp.tag] in f.commits && Some(f.commits[f.ready[lp.tag]].sid) == lp.prev.sid
    ensures SameSids(f, Closed(r, lp)) && Inv(Closed(r, lp))
  {
    ClosedReady(r, lp, cur, Enabled);
    SameAfter(f, r, Closed(r, lp), lp.tag);
  }

  lemma SameAfter(f: Repo, r: Repo, c: Repo, tag: Name)
    requires SameSids(f, r) && Keeps(r, c, {tag}) && c.commits == r.commits && c.next == r.next
    requires tag in f.ready && f.ready[tag] in f.commits && tag in c.ready && c.ready[tag] in c.commits
    requires c.commits[c.ready[tag]].sid == f.commits[f.ready[tag]].sid
    ensures SameSids(f, c)
  {
  }

  /** FROM finds the base on its branch. */
  lemma OpenFollows(sem: Semantics, f: Repo, c: Repo, lp: Loop, ref: Name, args: Vars, tag: Name, o1: Loop)
    requires Inv(c) && SameSids(f, c) && ref in f.ready && f.ready[ref] in f.commits
    requires o1.prev.InImage? && o1.prev.sid == Some(f.commits[f.ready[ref]].sid) && o1.tag == tag
    ensures var o := FromOn(sem, c, lp, ref, args, tag); o.ok && o.repo == c && Follows(f, o.repo, o.loop, o1)
  {
  }

  /** What FROM of the first run shows at once, and what is then on branches. */
  lemma FromOpens(mode: Mode, sem: Semantics, r: Repo, lp: Loop, p: PState, ref: Name, args: Vars, tag: Name)
    requires Rel(mode, sem, r, lp, p) && VisitFrom(sem, r, lp, ref, args, tag).ok
    ensures var o := VisitFrom(sem, r, lp, ref, args, tag);
            && ref != tag && o.loop.tag == tag && o.loop.prev.InImage? && o.loop.prev.sid.Some?
            && Pinned(o.repo, o.loop, ref, o.loop.prev.sid.value)
            && (lp.prev.InImage? && lp.tag != tag ==> lp.prev.sid.Some? && Pinned(o.repo, o.loop, lp.tag, lp.prev.sid.value))
  {
    var c := Closed(r, lp);
    if p.cur.Some? { ClosedReady(r, lp, p.cur.value, mode); }
    FindBaseKeeps(sem, c, ref);
  }

  /** The two runs of a program. */
  ghost predicate Twice(mode: Mode, sem: Semantics, r: Repo, p: PState, prog: seq<Inst>, f: Repo, q: PState) {
    && Succeeds(mode, sem, r, p, prog) && f == Final(mode, sem, r, prog)
    && Succeeds(Enabled, sem, f, q, prog)
    && forall k: nat :: k <= |prog| ==> SameAt(sem, p, q, prog, k)
  }

  ghost predicate SameAt(sem: Semantics, p: PState, q: PState, prog: seq<Inst>, k: nat)
    requires k <= |prog|
  {
    var s, t := P(sem, p, prog, k).state, P(sem, q, prog, k).state;
    t.cur == s.cur && t.built == s.built && t.tag == s.tag
  }

  /** The image of the stage in progress is not built again later. */
  lemma CurrentOnce(mode: Mode, sem: Semantics, r: Repo, p: PState, prog: seq<Inst>, k: nat)
    requires Succeeds(mode, sem, r, p, prog) && k <= |prog| && V(mode, sem, r, prog, k).loop.prev.InImage?
    ensures NotBuilt(prog, k, |prog|, V(mode, sem, r, prog, k).loop.tag)
  {
    RunRel(mode, sem, r, p, prog, k);
    var i := OpenedBy(sem, p, prog, k);
  }

  /** The state that an instruction reaches is on its branch in the end. */
  lemma StepStands(mode: Mode, sem: Semantics, r: Repo, p: PState, prog: seq<Inst>, k: nat)
    requires Succeeds(mode, sem, r, p, prog) && k < |prog| && prog[k].Step?
    ensures var o, n := V(mode, sem, r, prog, k).loop, V(mode, sem, r, prog, k + 1).loop;
            n.prev.InImage? && n.prev.sid.Some? && StandsFor(Final(mode, sem, r, prog), o.tag, n.prev.sid.value)
  {
    RunRel(mode, sem, r, p, prog, k);
    RunRel(mode, sem, r, p, prog, k + 1);
    VNext(mode, sem, r, prog, k);
    var o, n := V(mode, sem, r, prog, k), V(mode, sem, r, prog, k + 1);
    StepReached(mode, sem, o.repo, o.loop, P(sem, p, prog, k).state, prog[k].op);
    CurrentOnce(mode, sem, r, p, prog, k + 1);
    ReachedEnd(mode, sem, r, p, prog, k + 1, n.loop.tag, n.loop.prev.sid.value);
  }

  /** One instruction of a run, as values. */
  lemma StepRan(mode: Mode, sem: Semantics, r: Repo, p: PState, prog: seq<Inst>, k: nat)
    requires Succeeds(mode, sem, r, p, prog) && k < |prog| && prog[k].Step?
    ensures var o := V(mode, sem, r, prog, k);
            && V(mode, sem, r, prog, k + 1) == VisitStep(mode, sem, o.repo, o.loop, prog[k].op)
            && V(mode, sem, r, prog, k + 1).ok && Rel(mode, sem, o.repo, o.loop, P(sem, p, prog, k).state)
  {
    RunRel(mode, sem, r, p, prog, k);
    RunRel(mode, sem, r, p, prog, k + 1);
    VNext(mode, sem, r, prog, k);
  }

  lemma StepSecond(mode: Mode, sem: Semantics, r: Repo, p: PState, prog: seq<Inst>, f: Repo, q: PState, k: nat)
    requires Twice(mode, sem, r, p, prog, f, q) && k < |prog| && prog[k].Step?
    requires Follows(f, V(Enabled, sem, f, prog, k).repo, V(Enabled, sem, f, prog, k).loop, V(mode, sem, r, prog, k).loop)
    ensures Follows(f, V(Enabled, sem, f, prog, k + 1).repo, V(Enabled, sem, f, prog, k + 1).loop, V(mode, sem, r, prog, k + 1).loop)
  {
    StepRan(mode, sem, r, p, prog, k);
    StepRan(Enabled, sem, f, q, prog, k);
    StepStands(mode, sem, r, p, prog, k);
    assert SameAt(sem, p, q, prog, k);
    var o1, o2 := V(mode, sem, r, prog, k), V(Enabled, sem, f, prog, k);
    var s1, s2 := P(sem, p, prog, k).state, P(sem, q, prog, k).state;
    StepJoin(mode, sem, f, o1, s1, o2, s2, prog[k].op, V(mode, sem, r, prog, k + 1), V(Enabled, sem, f, prog, k + 1));
  }

  lemma StepJoin(mode: Mode, sem: Semantics, f: Repo, o1: Out, s1: PState, o2: Out, s2: PState, op: string, n1: Out, n2: Out)
    requires Rel(mode, sem, o1.repo, o1.loop, s1) && Rel(Enabled, sem, o2.repo, o2.loop, s2)
    requires Follows(f, o2.repo, o2.loop, o1.loop) && s2.cur == s1.cur && s2.built == s1.built
    requires n1 == VisitStep(mode, sem, o1.repo, o1.loop, op) && n2 == VisitStep(Enabled, sem, o2.repo, o2.loop, op) && n1.ok
    requires n1.loop.prev.InImage? && n1.loop.prev.sid.Some? && StandsFor(f, o1.loop.tag, n1.loop.prev.sid.value)
    ensures Follows(f, n2.repo, n2.loop, n1.loop)
  {
    StepFollows(mode, sem, f, o1.repo, o1.loop, s1, o2.repo, o2.loop, s2, op);
  }

  lemma StepReached(mode: Mode, sem: Semantics, r: Repo, lp: Loop, p: PState, op: string)
    requires Rel(mode, sem, r, lp, p) && VisitStep(mode, sem, r, lp, op).ok
    ensures var o := VisitStep(mode, sem, r, lp, op);
            && Current(o.loop, lp.tag) && o.loop.prev.sid.Some? && Reached(o.repo, o.loop, lp.tag, o.loop.prev.sid.value)
  {
    var input := sem.input(op, lp.vars, Built(r, lp.done)).value;
    PreparedSid(mode, sem, r, lp, input);
  }

  /** What the end has on the branches that a FROM leaves. */
  lemma FromPinned(mode: Mode, sem: Semantics, r: Repo, p: PState, prog: seq<Inst>, k: nat)
    requires Succeeds(mode, sem, r, p, prog) && k < |prog| && prog[k].From?
    ensures var f, o, n := Final(mode, sem, r, prog), V(mode, sem, r, prog, k), V(mode, sem, r, prog, k + 1);
            && n.loop.tag == prog[k].tag && n.loop.prev.InImage? && prog[k].ref != prog[k].tag
            && prog[k].ref in f.ready && f.ready[prog[k].ref] in f.commits
            && n.loop.prev.sid == Some(f.commits[f.ready[prog[k].ref]].sid)
            && (o.loop.prev.InImage? ==>
                  && o.loop.tag in f.ready && f.ready[o.loop.tag] in f.commits
                  && o.loop.prev.sid == Some(f.commits[f.ready[o.loop.tag]].sid))
  {
    RunRel(mode, sem, r, p, prog, k);
    RunRel(mode, sem, r, p, prog, k + 1);
    VNext(mode, sem, r, prog, k);
    var o, n := V(mode, sem, r, prog, k), V(mode, sem, r, prog, k + 1);
    FromOpens(mode, sem, o.repo, o.loop, P(sem, p, prog, k).state, prog[k].ref, prog[k].args, prog[k].tag);
    PinnedEnd(mode, sem, r, p, prog, k + 1, prog[k].ref, n.loop.prev.sid.value);
    if o.loop.prev.InImage? {
      CurrentOnce(mode, sem, r, p, prog, k);
      PinnedEnd(mode, sem, r, p, prog, k + 1, o.loop.tag, o.loop.prev.sid.value);
    }
  }

  lemma FromSecond(mode: Mode, sem: Semantics, r: Repo, p: PState, prog: seq<Inst>, f: Repo, q: PState, k: nat)
    requires Twice(mode, sem, r, p, prog, f, q) && k < |prog| && prog[k].From?
    requires Follows(f, V(Enabled, sem, f, prog, k).repo, V(Enabled, sem, f, prog, k).loop, V(mode, sem, r, prog, k).loop)
    ensures Follows(f, V(Enabled, sem, f, prog, k + 1).repo, V(Enabled, sem, f, prog, k + 1).loop, V(mode, sem, r, prog, k + 1).loop)
  {
    RunRel(Enabled, sem, f, q, prog, k);
    RunRel(Enabled, sem, f, q, prog, k + 1);
    VNext(Enabled, sem, f, prog, k);
    FromPinned(mode, sem, r, p, prog, k);
    var o := V(Enabled, sem, f, prog, k);
    var s := P(sem, q, prog, k).state;
    if s.cur.Some? { CloseFollows(f, o.repo, o.loop, s.cur.value); }
    OpenFollows(sem, f, Closed(o.repo, o.loop), o.loop, prog[k].ref, prog[k].args, prog[k].tag, V(mode, sem, r, prog, k + 1).loop);
  }

  lemma OtherSecond(mode: Mode, sem: Semantics, r: Repo, p: PState, prog: seq<Inst>, f: Repo, q: PState, k: nat)
    requires Twice(mode, sem, r, p, prog, f, q) && k < |prog| && !prog[k].From? && !prog[k].Step?
    requires Follows(f, V(Enabled, sem, f, prog, k).repo, V(Enabled, sem, f, prog, k).loop, V(mode, sem, r, prog, k).loop)
    ensures Follows(f, V(Enabled, sem, f, prog, k + 1).repo, V(Enabled, sem, f, prog, k + 1).loop, V(mode, sem, r, prog, k + 1).loop)
  {
    OtherNext(mode, sem, r, p, prog, k);
    OtherNext(Enabled, sem, f, q, prog, k);
  }

  /** Nothing happens in the cache, nor to a stage. */
  lemma OtherNext(mode: Mode, sem: Semantics, r: Repo, p: PState, prog: seq<Inst>, k: nat)
    requires Succeeds(mode, sem, r, p, prog) && k < |prog| && !prog[k].From? && !prog[k].Step?
    ensures var o, n := V(mode, sem, r, prog, k), V(mode, sem, r, prog, k + 1);
            n.repo == o.repo && (n.loop == o.loop || (!n.loop.prev.InImage? && !o.loop.prev.InImage?))
  {
    RunRel(mode, sem, r, p, prog, k);
    RunRel(mode, sem, r, p, prog, k + 1);
    VNext(mode, sem, r, prog, k);
  }

  lemma {:induction false} Second(mode: Mode, sem: Semantics, r: Repo, p: PState, prog: seq<Inst>, f: Repo, q: PState, k: nat)
    requires Twice(mode, sem, r, p, prog, f, q) && k <= |prog|
    ensures Follows(f, V(Enabled, sem, f, prog, k).repo, V(Enabled, sem, f, prog, k).loop, V(mode, sem, r, prog, k).loop)
  {
    if k == 0 {
      assert prog[..0] == [];
      RunRel(mode, sem, r, p, prog, 0);
    } else {
      Second(mode, sem, r, p, prog, f, q, k - 1);
      if prog[k - 1].Step? {
        StepSecond(mode, sem, r, p, prog, f, q, k - 1);
      } else if prog[k - 1].From? {
        FromSecond(mode, sem, r, p, prog, f, q, k - 1);
      } else {
        OtherSecond(mode, sem, r, p, prog, f, q, k - 1);
      }
    }
  }

  lemma TwiceIs(mode: Mode, sem: Semantics, r: Repo, imgs: map<Name, Core>, torn: set<Name>, prog: seq<Inst>, e: PState)
    requires Sound(sem, r) && AllSynced(sem, r, imgs, torn) && SettledAll(sem, PStart(imgs, torn), prog) && Forward(prog)
    requires Build(mode, sem, r, prog).ok && e == End(sem, PStart(imgs, torn), prog)
    ensures Twice(mode, sem, r, PStart(imgs, torn), prog, Final(mode, sem, r, prog), PStart(e.imgs, e.torn))
    ensures AllSynced(sem, Final(mode, sem, r, prog), e.imgs, e.torn)
  {
    var p, q, n, f := PStart(imgs, torn), PStart(e.imgs, e.torn), |prog|, Final(mode, sem, r, prog);
    FirstSucceeds(mode, sem, r, imgs, torn, prog, e, f);
    assert prog[..n] == prog;
    SettledAgain(sem, p, prog, n, e);
    PAgain(sem, p, prog, n, e);
    StartRel(Enabled, sem, f, e.imgs, e.torn);
    forall k: nat | k <= n ensures SameAt(sem, p, q, prog, k) { PAgain(sem, p, prog, k, e); }
  }

  lemma StartRel(mode: Mode, sem: Semantics, r: Repo, imgs: map<Name, Core>, torn: set<Name>)
    requires Sound(sem, r) && AllSynced(sem, r, imgs, torn)
    ensures Rel(mode, sem, r, START, PStart(imgs, torn))
  {
    assert OthersSynced(sem, r, PStart(imgs, torn));
  }

  lemma FirstSucceeds(
      mode: Mode, sem: Semantics, r: Repo, imgs: map<Name, Core>, torn: set<Name>, prog: seq<Inst>, e: PState, f: Repo)
    requires Sound(sem, r) && AllSynced(sem, r, imgs, torn) && SettledAll(sem, PStart(imgs, torn), prog) && Forward(prog)
    requires Build(mode, sem, r, prog).ok && e == End(sem, PStart(imgs, torn), prog) && f == Final(mode, sem, r, prog)
    ensures Succeeds(mode, sem, r, PStart(imgs, torn), prog) && Sound(sem, f) && AllSynced(sem, f, e.imgs, e.torn)
  {
    assert prog[..|prog|] == prog;
    Transparency(mode, sem, r, imgs, torn, prog);
    StartRel(mode, sem, r, imgs, torn);
  }

  /** The second build of a program executes nothing: whatever the cache held before the
      first one, in whichever mode that ran, if it has succeeded then building again
      succeeds, makes no commit, ends its last stage without a miss, and leaves the same
      images in storage. */
  lemma NothingAgain(mode: Mode, sem: Semantics, r: Repo, imgs: map<Name, Core>, torn: set<Name>, prog: seq<Inst>)
    requires Sound(sem, r) && AllSynced(sem, r, imgs, torn) && SettledAll(sem, PStart(imgs, torn), prog) && Forward(prog)
    requires Build(mode, sem, r, prog).ok
    ensures var first := Build(mode, sem, r, prog).repo;
            var again := Build(Enabled, sem, first, prog);
            && again.ok && again.repo.commits == first.commits && again.repo.next == first.next
            && (again.loop.prev.InImage? ==> again.loop.missCt == 0)
            && var e := End(sem, PStart(imgs, torn), prog);
               AllSynced(sem, first, e.imgs, e.torn) && AllSynced(sem, again.repo, e.imgs, e.torn)
  {
    var p, n := PStart(imgs, torn), |prog|;
    var e, f := End(sem, p, prog), Final(mode, sem, r, prog);
    TwiceIs(mode, sem, r, imgs, torn, prog, e);
    var q := PStart(e.imgs, e.torn);
    Second(mode, sem, r, p, prog, f, q, n);
    FinalIs(Enabled, sem, f, q, prog);
    RunRel(Enabled, sem, f, q, prog, n);
    var o, s := V(Enabled, sem, f, prog, n), P(sem, q, prog, n).state;
    if s.cur.Some? { ClosedReady(o.repo, o.loop, s.cur.value, Enabled); }
    ImagesAgain(mode, sem, r, p, prog, e, q);
    CloseRel(Enabled, sem, o.repo, o.loop, s);
  }

  lemma ImagesAgain(mode: Mode, sem: Semantics, r: Repo, p: PState, prog: seq<Inst>, e: PState, q: PState)
    requires P(sem, p, prog, |prog|).ok && p.cur.None? && p.built == map[] && p.argfrom == map[] && p.tag == ""
    requires Forward(prog) && e == End(sem, p, prog) && q == PStart(e.imgs, e.torn)
    ensures var s := PClose(P(sem, q, prog, |prog|).state); s.imgs == e.imgs && s.torn == e.torn
  {
    var n := |prog|;
    PAgain(sem, p, prog, n, e);
    assert prog[..n] == prog;
    var s := P(sem, p, prog, n).state;
    if s.cur.Some? { assert e.imgs[s.tag := s.cur.value] == e.imgs && e.torn - {s.tag} == e.torn; }
  }
}
