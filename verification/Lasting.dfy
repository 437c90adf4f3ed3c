/**
  What can still be found after each operation of the build cache. `git log --all --reflog`
  searches references and both sides of every reflog entry, so moving a branch loses
  nothing; deleting one does, and so does making an image ready.
 */
module Lasting {
  import opened BuildCache
  import opened MainLoop

  lemma TipsFind(r: Repo, s: Repo, x: Hash)
    requires Inv(r) && Findable(r, x) && forall t: Hash :: Tip(r, t) ==> Tip(s, t)
    requires forall h :: h in r.commits ==> h in s.commits && s.commits[h] == r.commits[h]
    ensures Findable(s, x)
  {
    var t :| t in r.commits && Tip(r, t) && Anc(r.commits, x, t);
    AncGrow(r.commits, s.commits, x, t);
  }

  lemma FollowKeeps(b0: map<Name, Hash>, l0: map<Name, set<Hash>>, b1: map<Name, Hash>, l1: map<Name, set<Hash>>, n: Name, h: Hash, m: Name)
    requires BranchFollows(b0, l0, b1, l1, n, h)
    ensures m in b0 ==> (m in b1 && b1[m] == b0[m]) || (m in l1 && b0[m] in l1[m])
    ensures m in l0 ==> m in l1 && l0[m] <= l1[m]
  {
  }

  lemma CheckoutKeepsTip(r: Repo, n: Name, h: Hash, t: Hash)
    requires Tip(r, t)
    ensures Tip(Checkout(r, n, h), t)
  {
    var s := Checkout(r, n, h);
    CheckoutMoves(r, n, h);
    if t in r.unready.Values {
      var m :| m in r.unready && r.unready[m] == t;
      FollowKeeps(r.unready, r.unreadyLog, s.unready, s.unreadyLog, n, h, m);
    }
    if m :| m in r.unreadyLog && t in r.unreadyLog[m] {
      FollowKeeps(r.unready, r.unreadyLog, s.unready, s.unreadyLog, n, h, m);
    }
    if m :| m in r.dirs && DirTip(r.dirs[m], t) { assert m in s.dirs && DirTip(s.dirs[m], t); }
  }

  /** Checking a findable commit out makes nothing findable or unfindable. */
  lemma CheckoutExactly(r: Repo, n: Name, h: Hash, x: Hash)
    requires Inv(r) && Findable(r, h)
    ensures Findable(Checkout(r, n, h), x) <==> Findable(r, x)
  {
    var s := Checkout(r, n, h);
    CheckoutAt(r, n, h);
    if Findable(s, x) { CheckoutFindsNoMore(r, n, h, x); }
    if Findable(r, x) {
      forall t: Hash | Tip(r, t) ensures Tip(s, t) { CheckoutKeepsTip(r, n, h, t); }
      TipsFind(r, s, x);
    }
  }

  lemma CommitKeepsTip(r: Repo, n: Name, c: Commit, s: Repo, t: Hash)
    requires Committed(r, n, c, s) && Tip(r, t)
    ensures Tip(s, t)
  {
    if t in r.ready.Values {
      var m :| m in r.ready && r.ready[m] == t;
      FollowKeeps(r.ready, r.readyLog, s.ready, s.readyLog, n, r.next, m);
    }
    if t in r.unready.Values {
      var m :| m in r.unready && r.unready[m] == t;
      FollowKeeps(r.unready, r.unreadyLog, s.unready, s.unreadyLog, n, r.next, m);
    }
    if m :| m in r.readyLog && t in r.readyLog[m] { FollowKeeps(r.ready, r.readyLog, s.ready, s.readyLog, n, r.next, m); }
    if m :| m in r.unreadyLog && t in r.unreadyLog[m] {
      FollowKeeps(r.unready, r.unreadyLog, s.unready, s.unreadyLog, n, r.next, m);
    }
    if m :| m in r.dirs && DirTip(r.dirs[m], t) { assert m in s.dirs && DirTip(s.dirs[m], t); }
  }

  /** A commit makes itself findable, and loses nothing. */
  lemma CommitExactly(r: Repo, n: Name, sid: Sid, image: Image, larges: set<string>, x: Hash)
    requires Inv(r) && n in r.dirs && r.dirs[n].Linked?
    ensures Findable(CommitTo(r, n, sid, image, larges), x) <==> x == r.next || Findable(r, x)
  {
    var c, s := Commit(sid, image, larges, Some(r.dirs[n].head)), CommitTo(r, n, sid, image, larges);
    CommitAt(r, n, sid, image, larges);
    if Findable(s, x) && x != r.next { CommitFindsOne(r, n, c, s, x); }
    if x == r.next { assert n in s.dirs && DirTip(s.dirs[n], x) && Anc(s.commits, x, x); }
    if Findable(r, x) {
      forall t: Hash | Tip(r, t) ensures Tip(s, t) { CommitKeepsTip(r, n, c, s, t); }
      TipsFind(r, s, x);
    }
  }

  /** What ready() does not take away: anything but the image's tag and the reflog of its
      unready branch. */
  predicate Stays(r: Repo, n: Name, t: Hash) {
    t in r.kept || t in r.ready.Values || t in r.unready.Values ||
    (exists m :: m in r.tags && m != n && t == r.tags[m]) ||
    (exists m :: m in r.readyLog && t in r.readyLog[m]) ||
    (exists m :: m in r.unreadyLog && (m != n || n !in r.unready) && t in r.unreadyLog[m]) ||
    (exists m :: m in r.dirs && DirTip(r.dirs[m], t))
  }

  /** All of a repository that ready() touches. */
  ghost predicate ReadyParts(r: Repo, n: Name, s: Repo) {
    && n in r.dirs && r.dirs[n].Linked?
    && s.commits == r.commits && s.ready == r.ready[n := r.dirs[n].head] && s.tags == r.tags - {n}
    && s.readyLog == r.readyLog[n := LogOf(r.readyLog, n) + Was(r.ready, n) + {r.dirs[n].head}]
    && s.unready == r.unready - {n} && s.kept == r.kept + Was(r.unready, n)
    && s.unreadyLog == (if n in r.unready then r.unreadyLog - {n} else r.unreadyLog)
    && s.dirs == r.dirs[n := Linked(r.dirs[n].image, r.dirs[n].head, OnReady, r.dirs[n].log + {r.dirs[n].head})]
  }

  lemma ReadyIs(r: Repo, n: Name)
    requires n in r.dirs && r.dirs[n].Linked?
    ensures ReadyParts(r, n, Ready(r, n))
  {
    if n !in r.unready { assert r.unready - {n} == r.unready; }
  }

  lemma ReadyTips(r: Repo, n: Name, s: Repo, t: Hash)
    requires ReadyParts(r, n, s) && Tip(s, t)
    ensures Stays(r, n, t)
  {
    var h := r.dirs[n].head;
    assert DirTip(r.dirs[n], h);
    if t != h {
      if t in s.ready.Values || InLogs(s.readyLog, t) {
        FollowTips(r.ready, r.readyLog, s.ready, s.readyLog, n, h, t);
      }
      if t in s.unready.Values { var m :| m in s.unready && s.unready[m] == t; assert r.unready[m] == t; }
      if t in s.kept && t !in r.kept { assert n in r.unready && r.unready[n] == t; }
      if t in s.tags.Values { var m :| m in s.tags && s.tags[m] == t; assert m in r.tags && m != n && t == r.tags[m]; }
      assert HeadsMoved(r, n, h, s);
    }
  }

  lemma ReadyKeepsTip(r: Repo, n: Name, s: Repo, t: Hash)
    requires ReadyParts(r, n, s) && Stays(r, n, t)
    ensures Tip(s, t)
  {
    if t in r.ready.Values {
      var m :| m in r.ready && r.ready[m] == t;
      if !(m in s.ready && s.ready[m] == t) { assert t in s.readyLog[m]; }
    }
    if t in r.unready.Values { var m :| m in r.unready && r.unready[m] == t; assert m != n ==> s.unready[m] == t; }
    if m :| m in r.tags && m != n && t == r.tags[m] { assert s.tags[m] == t; }
    if m :| m in r.readyLog && t in r.readyLog[m] { assert m in s.readyLog && t in s.readyLog[m]; }
    if m :| m in r.unreadyLog && (m != n || n !in r.unready) && t in r.unreadyLog[m] { assert t in s.unreadyLog[m]; }
    if m :| m in r.dirs && DirTip(r.dirs[m], t) { assert m in s.dirs && DirTip(s.dirs[m], t); }
  }

  /** Exactly which commits stay findable when an image becomes ready. In particular those
      that the ready branch has ever been at: its reflog has them. */
  lemma ReadyExactly(r: Repo, n: Name, x: Hash)
    requires n in r.dirs && r.dirs[n].Linked?
    ensures Findable(Ready(r, n), x) <==> x in r.commits && exists t :: t in r.commits && Stays(r, n, t) && Anc(r.commits, x, t)
  {
    var s := Ready(r, n);
    ReadyIs(r, n);
    if Findable(s, x) {
      var t :| t in s.commits && Tip(s, t) && Anc(s.commits, x, t);
      ReadyTips(r, n, s, t);
    }
    if t :| t in r.commits && Stays(r, n, t) && Anc(r.commits, x, t) { ReadyKeepsTip(r, n, s, t); }
  }
}
