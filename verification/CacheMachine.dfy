/**
  The build cache and the main loop as the objects that they are in ch-image: the
  cache's methods change refs, work trees and the large file store in place, the
  loop counts misses and remembers the previous instruction. Each method is proved
  to do what the functions of `BuildCache` and `MainLoop` say.
 */
module CacheMachine {
  import B = BuildCache
  import L = MainLoop

  class EnabledCache {
    var commits: map<B.Hash, B.Commit>
    var next: B.Hash
    var ready: map<B.Name, B.Hash>
    var unready: map<B.Name, B.Hash>
    var tags: map<B.Name, B.Hash>
    var kept: set<B.Hash>
    var readyLog: map<B.Name, set<B.Hash>>
    var unreadyLog: map<B.Name, set<B.Hash>>
    var dirs: map<B.Name, B.Dir>
    var store: set<string>

    function State(): B.Repo
      reads this
    {
      B.Repo(commits, next, ready, unready, tags, kept, readyLog, unreadyLog, dirs, store)
    }

    constructor ()
      ensures State() == B.FRESH
    {
      commits, next := map[0 := B.Commit(B.Root, B.EMPTY, {}, B.None)], 1;
      ready, unready, tags, kept := map[], map[], map[], {0};
      readyLog, unreadyLog, dirs, store := map[], map[], map[], {};
    }

    method FindSidIn(sid: B.Sid, tip: B.Hash) returns (found: B.Option<B.Hash>)
      ensures found == B.FindIn(commits, sid, tip)
    {
      var h := tip;
      while h in commits && commits[h].sid != sid && commits[h].parent.Some? && commits[h].parent.value < h
        invariant B.FindIn(commits, sid, tip) == B.FindIn(commits, sid, h)
        decreases h
      {
        h := commits[h].parent.value;
      }
      found := if h in commits && commits[h].sid == sid then B.Some(h) else B.None;
    }

    /** find_sid: first the branch, then everything findable. */
    method FindSid(sid: B.Sid, image: B.Name) returns (found: B.Option<B.Hash>)
      ensures found == B.FindSid(State(), sid, image)
      ensures B.Inv(State()) ==> B.FoundFirst(State(), sid, image, found)
    {
      if B.Inv(State()) { B.FindSidExact(State(), sid, image); }
      if image in ready {
        found := FindSidIn(sid, ready[image]);
        if found.Some? { return; }
      }
      var n := next;
      while n > 0
        invariant 0 <= n
        invariant B.FindAll(State(), sid, next) == B.FindAll(State(), sid, n)
      {
        if B.Findable(State(), n - 1) && commits[n - 1].sid == sid { return B.Some(n - 1); }
        n := n - 1;
      }
      found := B.None;
    }

    /** worktree_add and git_restore. */
    method Checkout(n: B.Name, h: B.Hash)
      modifies this
      ensures State() == B.Checkout(old(State()), n, h)
    {
      var image := B.ImageAt(State(), h);
      if n in dirs && dirs[n].Linked? {
        if dirs[n].head == h {
          dirs := dirs[n := dirs[n].(image := image)];
          return;
        }
        dirs := dirs[n := B.Linked(image, h, B.OnUnready, dirs[n].log + {dirs[n].head} + {h})];
      } else {
        assert {} + {h} == {h};
        dirs := dirs[n := B.Linked(image, h, B.OnUnready, {h})];
      }
      unreadyLog := unreadyLog[n := B.LogOf(unreadyLog, n) + B.Was(unready, n) + {h}];
      unready := unready[n := h];
    }

    /** commit: the branch that HEAD is on follows. */
    method Commit(n: B.Name, sid: B.Sid, image: B.Image, larges: set<string>) returns (h: B.Hash)
      requires n in dirs && dirs[n].Linked?
      modifies this
      ensures State() == B.CommitTo(old(State()), n, sid, image, larges) && h == old(next)
    {
      var d := dirs[n];
      h := next;
      store := store + larges;
      commits := commits[h := B.Commit(sid, image, larges, B.Some(d.head))];
      next := next + 1;
      dirs := dirs[n := B.Linked(image, h, d.on, d.log + {d.head} + {h})];
      Follow(n, d.on, h);
    }

    /** The branch that HEAD is on moves to the new commit. */
    method Follow(n: B.Name, on: B.Head, h: B.Hash)
      modifies `ready, `readyLog, `unready, `unreadyLog
      ensures ready == if on.OnReady? then old(ready)[n := h] else old(ready)
      ensures unready == if on.OnUnready? then old(unready)[n := h] else old(unready)
      ensures readyLog == if on.OnReady? then old(readyLog)[n := B.LogOf(old(readyLog), n) + B.Was(old(ready), n) + {h}] else old(readyLog)
      ensures unreadyLog == if on.OnUnready? then old(unreadyLog)[n := B.LogOf(old(unreadyLog), n) + B.Was(old(unready), n) + {h}] else old(unreadyLog)
    {
      match on {
        case OnReady =>
          readyLog := readyLog[n := B.LogOf(readyLog, n) + B.Was(ready, n) + {h}];
          ready := ready[n := h];
        case OnUnready =>
          unreadyLog := unreadyLog[n := B.LogOf(unreadyLog, n) + B.Was(unready, n) + {h}];
          unready := unready[n := h];
        case Detached =>
      }
    }

    /** ready: the tag and the unready branch go. */
    method Ready(n: B.Name)
      requires n in dirs && dirs[n].Linked?
      modifies this
      ensures State() == B.Ready(old(State()), n)
    {
      var d := dirs[n];
      if n in tags {
        tags := tags - {n};
      } else {
        assert tags == tags - {n};
      }
      readyLog := readyLog[n := B.LogOf(readyLog, n) + B.Was(ready, n) + {d.head}];
      ready := ready[n := d.head];
      dirs := dirs[n := d.(on := B.OnReady, log := d.log + {d.head})];
      DropUnready(n);
    }

    /** One round of branch_delete's loop, for the unready branch: HEAD's reflog
        remembers the tip. */
    method DropUnready(n: B.Name)
      modifies this
      ensures State() == B.DeleteUnready(old(State()), n)
    {
      if n in unready {
        kept := kept + {unready[n]};
        unready, unreadyLog := unready - {n}, unreadyLog - {n};
      }
    }

    method BranchDelete(n: B.Name)
      modifies this
      ensures State() == B.BranchDelete(old(State()), n)
    {
      if n in ready {
        tags := tags[n := ready[n]];
        kept := kept + {ready[n]};
        ready, readyLog := ready - {n}, readyLog - {n};
        DropUnready(n);
      }
    }

    /** ch-image delete, for one existing image. */
    method Delete(n: B.Name)
      modifies this
      ensures State() == B.Delete(old(State()), n)
    {
      dirs := dirs - {n};
      BranchDelete(n);
    }

    /** ch-image undelete; fails when the image exists or is not in the cache. */
    method Undelete(n: B.Name) returns (ok: bool)
      modifies this
      ensures var u := B.Undelete(old(State()), n);
              ok == u.Some? && State() == if ok then u.value else old(State())
    {
      if n in dirs || n !in tags { return false; }
      Checkout(n, tags[n]);
      Ready(n);
      ok := true;
    }

    /** rollback after an execution that may have changed anything in the directory:
        preparing it moves its large files to the store. */
    method Rollback(n: B.Name, larges: set<string>)
      requires n in dirs && dirs[n].Linked?
      modifies this
      ensures State() == B.Rollback(old(State()), n, larges)
    {
      store := store + larges;
      dirs := dirs[n := dirs[n].(image := B.ImageAt(State(), dirs[n].head))];
    }

    /** unpack_delete: HEAD is detached first, so the branch stays. */
    method UnpackDelete(n: B.Name)
      modifies this
      ensures State() == old(State()).(dirs := old(dirs) - {n})
    {
      if n in dirs {
        dirs := dirs - {n};
      } else {
        assert dirs == dirs - {n};
      }
    }

    /** git gc, with reflogs expiring now. */
    method CollectGarbage()
      modifies this
      ensures State() == B.Prune(B.Expire(old(State())))
    {
      var p := B.Prune(B.Expire(State()));
      commits, kept, readyLog, unreadyLog, dirs := p.commits, p.kept, p.readyLog, p.unreadyLog, p.dirs;
    }

    /** Enumerate the large files that commits name. */
    method EnumerateLarges() returns (used: set<string>)
      ensures used == B.LargesUsed(State())
    {
      var digests := commits.Keys;
      used := {};
      while digests != {}
        invariant digests <= commits.Keys
        invariant forall l :: l in used <==> exists h :: h in commits && h !in digests && l in commits[h].larges
        decreases |digests|
      {
        var d :| d in digests;
        used := used + commits[d].larges;
        digests := digests - {d};
      }
    }

    /** garbageinate: after Git's own collection, delete the large files that no
        remaining commit names. */
    method Garbageinate()
      modifies this
      ensures State() == B.Gc(old(State()))
      ensures B.Inv(old(State())) ==> B.Collected(old(State()), State())
    {
      if B.Inv(State()) { B.GcExact(State()); }
      CollectGarbage();
      var used := EnumerateLarges();
      DeleteUnused(used);
    }

    method DeleteUnused(used: set<string>)
      modifies this`store
      ensures store == old(store) * used
    {
      var listing := store;
      while listing != {}
        invariant listing <= old(store)
        invariant forall l :: l in store <==> l in old(store) && (l in listing || l in used)
        decreases |listing|
      {
        var l :| l in listing;
        if l !in used { store := store - {l}; }
        listing := listing - {l};
      }
    }
  }

  class MainLoop {
    const cache: EnabledCache
    const mode: L.Mode
    const sem: L.Semantics
    var missCt: nat
    var prev: L.Prev
    var total: nat
    var argfrom: B.Vars
    var vars: B.Vars
    var history: seq<string>
    var tag: B.Name
    var done: set<B.Name>

    function Loop(): L.Loop
      reads this
    {
      L.Loop(missCt, prev, total, argfrom, vars, history, tag, done)
    }

    constructor (cache: EnabledCache, mode: L.Mode, sem: L.Semantics)
      ensures this.cache == cache && this.mode == mode && this.sem == sem && Loop() == L.START
    {
      this.cache, this.mode, this.sem := cache, mode, sem;
      missCt, prev, total, argfrom, vars, history, tag, done := 0, L.NoInst, 0, map[], map[], [], "", {};
    }

    /** Close the stage: check its image out if nothing missed, and make it ready. */
    method Close()
      requires prev.InImage? && prev.hash.Some?
      modifies cache
      ensures cache.State() == L.Close(old(cache.State()), Loop())
    {
      if missCt == 0 { cache.Checkout(tag, prev.hash.value); }
      if tag in cache.dirs && cache.dirs[tag].Linked? { cache.Ready(tag); }
    }

    /** worktree_adopt at the root commit, commit and ready. */
    method AddBase(n: B.Name, input: string, image: B.Image)
      modifies cache
      ensures cache.State() == L.AddBase(sem, old(cache.State()), n, input, image)
    {
      cache.Checkout(n, 0);
      var h := cache.Commit(n, B.Chain(B.Root, input), image, sem.larges(image.core.files));
      cache.Ready(n);
    }

    /** find_image; on a miss adopt or pull. */
    method FindBase(ref: B.Name) returns (ok: bool)
      modifies cache
      ensures var b := L.FindBase(sem, old(cache.State()), ref);
              ok == b.Some? && cache.State() == if ok then b.value else old(cache.State())
    {
      if ref in cache.ready { return true; }
      if ref in cache.dirs && cache.dirs[ref].Bare? {
        var i := cache.dirs[ref].image;
        AddBase(ref, "IMPORT " + ref, i.(core := i.core.(vars := i.core.vars + L.DEFAULTS)));
        return true;
      }
      match sem.manifest(ref) {
        case None => return false;
        case Some(m) =>
          cache.dirs := cache.dirs - {ref};
          AddBase(ref, m, B.Image(sem.pulled(m), []));
          return true;
      }
    }

    method VisitFrom(ref: B.Name, args: B.Vars, newTag: B.Name) returns (ok: bool)
      modifies this, cache
      ensures var o := L.VisitFrom(sem, old(cache.State()), old(Loop()), ref, args, newTag);
              ok == o.ok && cache.State() == o.repo && (ok ==> Loop() == o.loop)
    {
      if ref == newTag { return false; }
      if prev.InImage? && prev.hash.Some? { Close(); }
      ok := FindBase(ref);
      if !ok { return; }
      if !(ref in cache.ready && cache.ready[ref] in cache.commits) { return false; }
      var h := cache.ready[ref];
      Open(ref, args, newTag, L.InImage(B.Some(cache.commits[h].sid), B.Some(h)));
    }

    /** The new stage's context, from the base image's directory. */
    method Open(ref: B.Name, args: B.Vars, newTag: B.Name, base: L.Prev)
      modifies this
      ensures Loop() == L.Opened(sem, old(Loop()), cache.State(), ref, old(argfrom) + args, newTag, 0, base)
    {
      if prev.InImage? { done := done + {tag}; }
      else { assert done == done + {}; }
      argfrom := argfrom + args;
      vars := L.LoadVars(sem.initial, cache.State(), ref) + argfrom;
      history := L.LoadHistory(cache.State(), ref);
      missCt, prev, tag, total := 0, base, newTag, total + 1;
    }

    /** execute; then metadata_update and commit, or rollback. */
    method Execute(input: string, newVars: B.Vars, sid: B.Sid) returns (ok: bool)
      requires missCt > 0
      modifies this, cache
      ensures var o := L.Execute(sem, old(cache.State()), old(Loop()).(missCt := old(missCt) - 1), input, newVars, sid);
              ok == o.ok && cache.State() == o.repo && (ok ==> Loop() == o.loop)
    {
      if !(tag in cache.dirs && cache.dirs[tag].Linked?) { return false; }
      var d := cache.dirs[tag];
      match sem.run(input, B.Core(d.image.core.files, newVars)) {
        case Failed(partial) =>
          cache.dirs := cache.dirs[tag := d.(image := B.Image(B.Core(partial, d.image.core.vars), d.image.history))];
          cache.Rollback(tag, sem.larges(partial));
          ok := false;
        case Done(files) =>
          vars, history := newVars, history + [input];
          var h := cache.Commit(tag, sid, B.Image(B.Core(files, vars), history), sem.larges(files));
          prev, total := L.InImage(B.Some(sid), B.Some(h)), total + 1;
          ok := true;
      }
    }

    /** From__G.prepare_rollback */
    method PrepareRollback(base: B.Option<B.Name>, image: B.Option<B.Name>)
      modifies cache
      ensures cache.State() == L.PrepareRollback(old(cache.State()),
                (if base.Some? then {base.value} else {}) + (if image.Some? then {image.value} else {}))
    {
      ghost var was := cache.State();
      if base.Some? { cache.UnpackDelete(base.value); }
      if image.Some? { cache.UnpackDelete(image.value); }
      ghost var d := (if base.Some? then {base.value} else {}) + (if image.Some? then {image.value} else {});
      assert cache.dirs == was.dirs - d;
    }

    method VisitStep(op: string) returns (ok: bool)
      modifies this, cache
      ensures var o := L.VisitStep(mode, sem, old(cache.State()), old(Loop()), op);
              ok == o.ok && cache.State() == o.repo && (ok ==> Loop() == o.loop)
    {
      if !(prev.InImage? && prev.sid.Some? && prev.hash.Some?) { return false; }
      match sem.input(op, vars, L.Built(cache.State(), done)) {
        case None => return false;
        case Some(input) =>
          var sid, newVars := B.Chain(prev.sid.value, input), sem.effect(input, vars);
          var hash := B.None;
          if mode.Enabled? { hash := cache.FindSid(sid, tag); }
          if hash.Some? {
            prev, vars, total := L.InImage(B.Some(sid), hash), newVars, total + 1;
            return true;
          }
          missCt := missCt + 1;
          if missCt == 1 { cache.Checkout(tag, prev.hash.value); }
          ok := Execute(input, newVars, sid);
      }
    }

    /** __default__ */
    method Visit(inst: L.Inst) returns (ok: bool)
      modifies this, cache
      ensures var o := L.Visit(mode, sem, old(cache.State()), old(Loop()), inst);
              ok == o.ok && cache.State() == o.repo && (ok ==> Loop() == o.loop)
    {
      match inst {
        case Ignored => ok := true;
        case ArgFirst(k, v) =>
          if prev.InImage? { return false; }
          if v.Some? { argfrom := argfrom["arg " + k := v.value]; }
          missCt, prev, total := missCt + 1, L.NoImage, total + 1;
          ok := true;
        case Refused(base) =>
          PrepareRollback(base, if prev.InImage? then B.Some(tag) else B.None);
          ok := false;
        case From(ref, args, t) =>
          ok := VisitFrom(ref, args, t);
          if !ok { PrepareRollback(B.Some(ref), B.Some(t)); }
        case Step(op) => ok := VisitStep(op);
      }
    }

    /** parse_tree_traverse: a whole build. */
    method Traverse(prog: seq<L.Inst>) returns (ok: bool)
      requires Loop() == L.START
      modifies this, cache
      ensures var o := L.Build(mode, sem, old(cache.State()), prog);
              ok == o.ok && cache.State() == o.repo
    {
      var i := 0;
      ghost var r := cache.State();
      while i < |prog|
        invariant 0 <= i <= |prog|
        invariant L.VisitAll(mode, sem, r, prog[..i]) == L.Out(true, cache.State(), Loop())
      {
        assert prog[..i + 1][..i] == prog[..i];
        ghost var lp := Loop();
        ok := Visit(prog[i]);
        if !ok {
          StopsAt(mode, sem, r, prog, i + 1);
          return;
        }
        i := i + 1;
      }
      assert prog[..|prog|] == prog;
      if prev.InImage? && prev.hash.Some? { Close(); }
      ok := true;
    }
  }

  /** Nothing is visited after a failure. */
  lemma {:induction false} StopsAt(mode: L.Mode, sem: L.Semantics, r: B.Repo, prog: seq<L.Inst>, i: nat)
    requires i <= |prog| && !L.VisitAll(mode, sem, r, prog[..i]).ok
    ensures L.VisitAll(mode, sem, r, prog) == L.VisitAll(mode, sem, r, prog[..i])
  {
    if i == |prog| {
      assert prog[..i] == prog;
    } else {
      var init := prog[..|prog| - 1];
      assert init[..i] == prog[..i];
      StopsAt(mode, sem, r, init, i);
    }
  }
}
