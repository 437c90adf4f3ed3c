/**
  The --join protocol of ch-run: peers on one node elect a winner with a named
  semaphore and exclusively created shared memory, the losers join the winner's
  namespaces, everyone counts down, and the last one removes both names.

  Each peer is a small program, one step for every call or access that other
  peers can observe. Steps interleave arbitrarily. A peer may stop before any
  step (crash, failed call, 30-second timeout), keeping whatever it holds. A peer
  that is done runs its command, and when that ends its PID is gone.
  Named objects are kernel objects: opening by name finds or creates one, and
  unlinking removes the name only.
 */
module Join {

  datatype Option<T> = None | Some(value: T)

  /** What a peer does next. */
  datatype Pc =
    | OpenSem     // sem_open(O_CREAT), value 1 if created
    | Lock        // sem_timedwait
    | Probe       // shm_open(O_CREAT|O_EXCL): am I the winner?
    | Truncate    // winner: ftruncate, which zero-fills, and mmap
    | OpenShm     // loser: shm_open of the existing object and mmap
    | Unlock      // loser: sem_post
    | Setup       // winner: create the namespaces, still holding the lock
    | ReadPid     // loser: read winner_pid, without the lock
    | JoinNs      // loser: setns into the namespaces of that PID
    | WritePid    // winner: winner_pid = getpid()
    | WriteCt     // winner: proc_left_ct = join_ct
    | Relock      // loser: sem_timedwait
    | Load        // proc_left_ct--, the read
    | Store       // proc_left_ct--, the write
    | Check       // proc_left_ct <= 0? and if so, the assertion that it is 0
    | UnlinkSem
    | UnlinkShm
    | Post        // sem_post
    | Done
    | Orphaned    // loser: there is no such PID any more
    | Failed      // an assertion or unlink failed

  /** `inside` is the PID whose namespaces the peer is in. */
  datatype Peer = Peer(
    pc: Pc, pid: int, winner: bool, sem: nat, shm: nat, target: int, reg: int, inside: Option<int>)

  datatype Shared = Shared(winnerPid: int, left: int)

  /** The kernel's objects and names, and the PIDs that have created namespaces and are
      there to be joined. The unlink counters are history. */
  datatype Kernel = Kernel(
    semName: Option<nat>, sems: seq<nat>, shmName: Option<nat>, shms: seq<Shared>,
    spaces: set<int>, semUnlinks: nat, shmUnlinks: nat)

  /** A group's constants: --join-ct, and how many objects existed before. */
  datatype Group = Group(joinCt: nat, semBase: nat, shmBase: nat)

  datatype State = State(group: Group, peers: seq<Peer>, stopped: set<nat>, exited: set<nat>, k: Kernel)

  // ---------------------------------------------------------------------------
  // Steps

  /** Has the peer nothing more to do? */
  predicate Over(pc: Pc) { pc.Done? || pc.Orphaned? }

  /** Can the peer take its next step? Only waiting for the semaphore blocks. */
  predicate Ready(p: Peer, k: Kernel) {
    && !Over(p.pc) && !p.pc.Failed?
    && (p.pc.Lock? || p.pc.Relock? ==> p.sem < |k.sems| && k.sems[p.sem] > 0)
    && (p.pc.Unlock? || p.pc.Post? ==> p.sem < |k.sems|)
    && (p.pc.Truncate? || p.pc.ReadPid? || p.pc.WritePid? || p.pc.WriteCt? ==> p.shm < |k.shms|)
    && (p.pc.Load? || p.pc.Store? || p.pc.Check? ==> p.shm < |k.shms|)
  }

  function Wait(k: Kernel, h: nat): Kernel
    requires h < |k.sems| && k.sems[h] > 0
  {
    k.(sems := k.sems[h := k.sems[h] - 1])
  }

  function SemPost(k: Kernel, h: nat): Kernel
    requires h < |k.sems|
  {
    k.(sems := k.sems[h := k.sems[h] + 1])
  }

  function Write(k: Kernel, h: nat, m: Shared): Kernel
    requires h < |k.shms|
  {
    k.(shms := k.shms[h := m])
  }

  /** One step of one peer. */
  function StepPeer(joinCt: nat, p: Peer, k: Kernel): (Peer, Kernel)
    requires Ready(p, k)
  {
    match p.pc
    case OpenSem =>
      if k.semName.Some? then (p.(pc := Lock, sem := k.semName.value), k)
      else (p.(pc := Lock, sem := |k.sems|), k.(semName := Some(|k.sems|), sems := k.sems + [1]))
    case Lock => (p.(pc := Probe), Wait(k, p.sem))
    case Probe =>
      if k.shmName.Some? then (p.(pc := OpenShm, winner := false), k)
      else (p.(pc := Truncate, winner := true, shm := |k.shms|),
            k.(shmName := Some(|k.shms|), shms := k.shms + [Shared(0, 0)]))
    case Truncate => (p.(pc := Setup), Write(k, p.shm, Shared(0, 0)))
    case OpenShm =>
      (if k.shmName.Some? then p.(pc := Unlock, shm := k.shmName.value) else p.(pc := Failed), k)
    case Unlock => (p.(pc := ReadPid), SemPost(k, p.sem))
    case Setup => (p.(pc := WritePid, inside := Some(p.pid)), k.(spaces := k.spaces + {p.pid}))
    case ReadPid => (p.(pc := JoinNs, target := k.shms[p.shm].winnerPid), k)
    case JoinNs =>
      (if p.target in k.spaces then p.(pc := Relock, inside := Some(p.target)) else p.(pc := Orphaned), k)
    case WritePid => (p.(pc := WriteCt), Write(k, p.shm, k.shms[p.shm].(winnerPid := p.pid)))
    case WriteCt => (p.(pc := Load), Write(k, p.shm, k.shms[p.shm].(left := joinCt)))
    case Relock => (p.(pc := Load), Wait(k, p.sem))
    case Load => (p.(pc := Store, reg := k.shms[p.shm].left), k)
    case Store => (p.(pc := Check), Write(k, p.shm, k.shms[p.shm].(left := p.reg - 1)))
    case Check =>
      var left := k.shms[p.shm].left;
      (p.(pc := if left > 0 then Post else if left == 0 then UnlinkSem else Failed), k)
    case UnlinkSem =>
      if k.semName.None? then (p.(pc := Failed), k)
      else (p.(pc := UnlinkShm), k.(semName := None, semUnlinks := k.semUnlinks + 1))
    case UnlinkShm =>
      if k.shmName.None? then (p.(pc := Failed), k)
      else (p.(pc := Post), k.(shmName := None, shmUnlinks := k.shmUnlinks + 1))
    case Post => (p.(pc := Done), SemPost(k, p.sem))
  }

  ghost predicate Enabled(s: State, i: nat) {
    i < |s.peers| && i !in s.stopped && Ready(s.peers[i], s.k)
  }

  ghost function Step(s: State, i: nat): State
    requires Enabled(s, i)
  {
    var (p, k) := StepPeer(s.group.joinCt, s.peers[i], s.k);
    s.(peers := s.peers[i := p], k := k)
  }

  /** Peer i takes a step. */
  ghost predicate Moves(s: State, i: nat, s': State) {
    Enabled(s, i) && s' == Step(s, i)
  }

  /** Peer i stops for good. */
  ghost predicate Stops(s: State, i: nat, s': State) {
    i < |s.peers| && !s.peers[i].pc.Done? && s' == s.(stopped := s.stopped + {i})
  }

  /** The command of peer i, which is done, ends. */
  ghost predicate Exits(s: State, i: nat, s': State) {
    && i < |s.peers| && s.peers[i].pc.Done? && i !in s.exited
    && s' == s.(exited := s.exited + {i}, k := s.k.(spaces := s.k.spaces - {s.peers[i].pid}))
  }

  ghost predicate Next(s: State, s': State) {
    exists i :: Moves(s, i, s') || Stops(s, i, s') || Exits(s, i, s')
  }

  ghost predicate DistinctPids(ps: seq<Peer>) {
    forall i, j :: 0 <= i < j < |ps| ==> ps[i].pid != ps[j].pid
  }

  /** A group about to start under a tag whose names are free. */
  ghost predicate Init(s: State) {
    && 1 <= |s.peers| <= s.group.joinCt
    && (forall i :: 0 <= i < |s.peers| ==> s.peers[i].pc.OpenSem? && !s.peers[i].winner && s.peers[i].pid > 0)
    && (forall i :: 0 <= i < |s.peers| ==> s.peers[i].inside.None?)
    && DistinctPids(s.peers) && s.stopped == {} && s.exited == {}
    && s.k.semName.None? && s.k.shmName.None?
    && s.group.semBase == |s.k.sems| && s.group.shmBase == |s.k.shms|
    && s.k.semUnlinks == 0 && s.k.shmUnlinks == 0
  }

  ghost predicate StepAt(r: seq<State>, n: nat)
    requires n + 1 < |r|
  {
    Next(r[n], r[n + 1])
  }

  /** A run: any interleaving of steps and stops. */
  ghost predicate Run(r: seq<State>) {
    && |r| > 0 && Init(r[0])
    && forall n :: 0 <= n < |r| - 1 ==> StepAt(r, n)
  }

  // ---------------------------------------------------------------------------
  // Invariant

  /** Steps at which a peer holds the semaphore. */
  predicate Holds(pc: Pc) {
    !pc.OpenSem? && !pc.Lock? && !pc.ReadPid? && !pc.JoinNs? && !pc.Relock? && !Over(pc) && !pc.Failed?
  }

  predicate Decremented(pc: Pc) { pc.Check? || pc.UnlinkSem? || pc.UnlinkShm? || pc.Post? || pc.Done? }

  predicate Counting(pc: Pc) { pc.Load? || pc.Store? || Decremented(pc) }

  /** A peer that has lost the election. */
  predicate Lost(p: Peer) {
    && !p.winner
    && (p.pc.OpenShm? || p.pc.Unlock? || p.pc.ReadPid? || Informed(p))
  }

  /** A loser that has read winner_pid. */
  predicate Informed(p: Peer) { !p.winner && (p.pc.JoinNs? || p.pc.Orphaned? || Joined(p)) }

  /** A loser that has joined somebody's namespaces. */
  predicate Joined(p: Peer) { !p.winner && (p.pc.Relock? || Counting(p.pc)) }

  /** A winner that has created its namespaces. */
  predicate SetUp(p: Peer) { p.winner && !p.pc.Truncate? && !p.pc.Setup? }

  /** How far the winner is: 0 no winner yet, 1 setting up, 2 its PID is
      written, 3 so is the count, 4 it has released the lock. */
  function Phase(pc: Pc): nat {
    if pc.Truncate? || pc.Setup? || pc.WritePid? then 1
    else if pc.WriteCt? then 2
    else if pc.Done? then 4
    else if Counting(pc) then 3
    else 0
  }

  /** Who has what: the invariant's witness. */
  datatype Summary = Summary(holder: Option<nat>, winner: Option<nat>, winnerPid: int, phase: nat, gone: bool, counted: set<nat>)

  ghost predicate PeerOk(c: Group, k: Kernel, g: Summary, i: nat, p: Peer) {
    && !p.pc.Failed? && p.pid > 0
    && (Holds(p.pc) <==> g.holder == Some(i))
    && (Decremented(p.pc) <==> i in g.counted)
    && (!p.pc.OpenSem? ==> |k.sems| > c.semBase && p.sem == c.semBase)
    && (p.winner <==> g.winner == Some(i))
    && (p.winner ==> g.winnerPid == p.pid && g.phase == Phase(p.pc) > 0)
    && (p.winner && !p.pc.Done? ==> Holds(p.pc))
    && (p.pc.Truncate? || p.pc.Setup? || p.pc.WritePid? || p.pc.WriteCt? ==> p.winner)
    && (Lost(p) ==> g.phase == 4)
    && (!p.pc.OpenSem? && !p.pc.Lock? && !p.pc.Probe? && !p.pc.OpenShm? ==> p.shm == c.shmBase && |k.shms| > c.shmBase)
    && (p.pc.Store? ==> p.reg == k.shms[c.shmBase].left)
    && (Informed(p) ==> p.target == g.winnerPid)
    && (Joined(p) ==> p.inside == Some(g.winnerPid))
    && (SetUp(p) ==> p.inside == Some(p.pid))
    && (p.pc.WritePid? ==> p.pid in k.spaces)
    && (p.pc.Orphaned? ==> g.gone && !p.winner)
    && (p.pc.Check? || p.pc.UnlinkSem? ==> k.semUnlinks == 0)
    && (p.pc.UnlinkSem? || p.pc.UnlinkShm? ==> |g.counted| == c.joinCt)
    && (p.pc.UnlinkShm? ==> k.semUnlinks == 1 && k.shmUnlinks == 0)
    && (p.pc.Post? && |g.counted| == c.joinCt ==> k.shmUnlinks == 1)
  }

  /** One semaphore object, one shared memory object, and their contents. */
  ghost predicate ObjectsOk(c: Group, k: Kernel, g: Summary) {
    && c.semBase <= |k.sems| <= c.semBase + 1
    && c.shmBase <= |k.shms| <= c.shmBase + 1
    && (|k.sems| > c.semBase ==> k.sems[c.semBase] == if g.holder.None? then 1 else 0)
    && (g.holder.Some? ==> |k.sems| > c.semBase)
    && (g.winner.Some? <==> |k.shms| > c.shmBase)
    && (g.winner.Some? <==> g.phase > 0) && g.phase <= 4
    && (0 < g.phase < 4 ==> g.holder == g.winner)
    && (g.phase >= 2 ==> k.shms[c.shmBase].winnerPid == g.winnerPid)
    && (g.phase >= 3 ==> k.shms[c.shmBase].left == c.joinCt - |g.counted|)
    && (g.phase < 3 ==> g.counted == {})
    && (g.gone ==> g.phase == 4)
    && (g.phase >= 2 ==> (g.winnerPid in k.spaces <==> !g.gone))
  }

  /** The names are bound while in use and removed by whoever brings the count to 0. */
  ghost predicate NamesOk(c: Group, k: Kernel, g: Summary) {
    && c.joinCt > 0
    && k.semName == (if |k.sems| > c.semBase && k.semUnlinks == 0 then Some(c.semBase) else None)
    && k.shmName == (if |k.shms| > c.shmBase && k.shmUnlinks == 0 then Some(c.shmBase) else None)
    && k.shmUnlinks <= k.semUnlinks <= 1
    && |g.counted| <= c.joinCt
    && (k.semUnlinks == 1 ==> |g.counted| == c.joinCt)
    && (|g.counted| == c.joinCt && k.shmUnlinks == 0 ==> g.holder.Some?)
  }

  ghost predicate PeersOk(s: State, g: Summary) {
    forall i {:trigger s.peers[i]} :: 0 <= i < |s.peers| ==> PeerOk(s.group, s.k, g, i, s.peers[i])
  }

  ghost predicate InvWith(s: State, g: Summary) {
    && |s.peers| <= s.group.joinCt
    && ObjectsOk(s.group, s.k, g)
    && NamesOk(s.group, s.k, g)
    && PeersOk(s, g)
    && (g.winner.Some? ==> g.winner.value < |s.peers|)
    && (g.holder.Some? ==> g.holder.value < |s.peers|)
    && (forall i :: i in g.counted ==> i < |s.peers|)
    && DistinctPids(s.peers)
    && ExitedOk(s, g)
  }

  ghost predicate ExitedOk(s: State, g: Summary) {
    && (forall i :: i in s.exited ==> i < |s.peers| && s.peers[i].pc.Done?)
    && (g.gone <==> g.winner.Some? && g.winner.value in s.exited)
  }

  ghost predicate Inv(s: State) { exists g :: InvWith(s, g) }

  lemma InitInv(s: State)
    requires Init(s)
    ensures Inv(s)
  {
    assert InvWith(s, Summary(None, None, 0, 0, false, {}));
  }

  // ---------------------------------------------------------------------------
  // Every step keeps the invariant

  ghost function NextSummary(g: Summary, i: nat, p: Peer): Summary {
    Summary(if Holds(p.pc) then Some(i) else if g.holder == Some(i) then None else g.holder,
            if p.winner then Some(i) else g.winner,
            if p.winner then p.pid else g.winnerPid,
            if p.winner then Phase(p.pc) else g.phase,
            g.gone,
            if Decremented(p.pc) && i !in g.counted then g.counted + {i} else g.counted)
  }

  /** What peer i may assume before its step. */
  ghost predicate Before(c: Group, k: Kernel, g: Summary, i: nat, p: Peer) {
    && ObjectsOk(c, k, g) && NamesOk(c, k, g) && PeerOk(c, k, g, i, p) && Ready(p, k)
    && (i !in g.counted ==> |g.counted| < c.joinCt)
  }

  /** The steps of join_begin() and of the section between it and join_end(). */
  predicate Begins(pc: Pc) {
    || pc.OpenSem? || pc.Lock? || pc.Probe? || pc.Truncate? || pc.OpenShm? || pc.Unlock?
    || pc.Setup? || pc.ReadPid? || pc.JoinNs?
  }

  /** The ones that look a name up. */
  predicate Opens(pc: Pc) { pc.OpenSem? || pc.Probe? || pc.OpenShm? }

  lemma OpenSemObjects(c: Group, k: Kernel, g: Summary, i: nat, p: Peer)
    requires Before(c, k, g, i, p) && p.pc.OpenSem?
    ensures var (p', k') := StepPeer(c.joinCt, p, k); ObjectsOk(c, k', NextSummary(g, i, p'))
  {
  }

  lemma OpenObjects(c: Group, k: Kernel, g: Summary, i: nat, p: Peer)
    requires Before(c, k, g, i, p) && Opens(p.pc)
    ensures var (p', k') := StepPeer(c.joinCt, p, k); ObjectsOk(c, k', NextSummary(g, i, p'))
  {
    if p.pc.OpenSem? { OpenSemObjects(c, k, g, i, p); } else { OpenShmObjects(c, k, g, i, p); }
  }

  lemma OpenShmObjects(c: Group, k: Kernel, g: Summary, i: nat, p: Peer)
    requires Before(c, k, g, i, p) && (p.pc.Probe? || p.pc.OpenShm?)
    ensures var (p', k') := StepPeer(c.joinCt, p, k); ObjectsOk(c, k', NextSummary(g, i, p'))
  {
  }

  lemma LockObjects(c: Group, k: Kernel, g: Summary, i: nat, p: Peer)
    requires Before(c, k, g, i, p) && (p.pc.Lock? || p.pc.Unlock?)
    ensures var (p', k') := StepPeer(c.joinCt, p, k); ObjectsOk(c, k', NextSummary(g, i, p'))
  {
  }

  lemma WorkObjects(c: Group, k: Kernel, g: Summary, i: nat, p: Peer)
    requires Before(c, k, g, i, p) && (p.pc.Truncate? || p.pc.Setup? || p.pc.ReadPid? || p.pc.JoinNs?)
    ensures var (p', k') := StepPeer(c.joinCt, p, k); ObjectsOk(c, k', NextSummary(g, i, p'))
  {
  }

  lemma BeginObjects(c: Group, k: Kernel, g: Summary, i: nat, p: Peer)
    requires Before(c, k, g, i, p) && Begins(p.pc) && !Opens(p.pc)
    ensures var (p', k') := StepPeer(c.joinCt, p, k); ObjectsOk(c, k', NextSummary(g, i, p'))
  {
    if p.pc.Lock? || p.pc.Unlock? { LockObjects(c, k, g, i, p); } else { WorkObjects(c, k, g, i, p); }
  }

  predicate Writes(pc: Pc) { pc.WritePid? || pc.WriteCt? || pc.Store? }

  lemma WriteObjects(c: Group, k: Kernel, g: Summary, i: nat, p: Peer)
    requires Before(c, k, g, i, p) && Writes(p.pc)
    ensures var (p', k') := StepPeer(c.joinCt, p, k); ObjectsOk(c, k', NextSummary(g, i, p'))
  {
  }

  predicate Unlinks(pc: Pc) { pc.Check? || pc.UnlinkSem? || pc.UnlinkShm? }

  lemma UnlinkObjects(c: Group, k: Kernel, g: Summary, i: nat, p: Peer)
    requires Before(c, k, g, i, p) && Unlinks(p.pc)
    ensures var (p', k') := StepPeer(c.joinCt, p, k); ObjectsOk(c, k', NextSummary(g, i, p'))
  {
  }

  lemma RelockObjects(c: Group, k: Kernel, g: Summary, i: nat, p: Peer)
    requires Before(c, k, g, i, p) && p.pc.Relock?
    ensures var (p', k') := StepPeer(c.joinCt, p, k); ObjectsOk(c, k', NextSummary(g, i, p'))
  {
  }

  lemma PostObjects(c: Group, k: Kernel, g: Summary, i: nat, p: Peer)
    requires Before(c, k, g, i, p) && p.pc.Post?
    ensures var (p', k') := StepPeer(c.joinCt, p, k); ObjectsOk(c, k', NextSummary(g, i, p'))
  {
  }

  lemma LoadObjects(c: Group, k: Kernel, g: Summary, i: nat, p: Peer)
    requires Before(c, k, g, i, p) && !Begins(p.pc) && !Writes(p.pc) && !Unlinks(p.pc) && !p.pc.Relock? && !p.pc.Post?
    ensures var (p', k') := StepPeer(c.joinCt, p, k); ObjectsOk(c, k', NextSummary(g, i, p'))
  {
  }

  lemma EndObjects(c: Group, k: Kernel, g: Summary, i: nat, p: Peer)
    requires Before(c, k, g, i, p) && !Begins(p.pc) && !Writes(p.pc) && !Unlinks(p.pc)
    ensures var (p', k') := StepPeer(c.joinCt, p, k); ObjectsOk(c, k', NextSummary(g, i, p'))
  {
    if p.pc.Relock? {
      RelockObjects(c, k, g, i, p);
    } else if p.pc.Post? {
      PostObjects(c, k, g, i, p);
    } else {
      LoadObjects(c, k, g, i, p);
    }
  }

  lemma OpenNames(c: Group, k: Kernel, g: Summary, i: nat, p: Peer)
    requires Before(c, k, g, i, p) && Opens(p.pc)
    ensures var (p', k') := StepPeer(c.joinCt, p, k); NamesOk(c, k', NextSummary(g, i, p'))
  {
  }

  lemma BeginNames(c: Group, k: Kernel, g: Summary, i: nat, p: Peer)
    requires Before(c, k, g, i, p) && Begins(p.pc) && !Opens(p.pc)
    ensures var (p', k') := StepPeer(c.joinCt, p, k); NamesOk(c, k', NextSummary(g, i, p'))
  {
  }

  lemma EndNames(c: Group, k: Kernel, g: Summary, i: nat, p: Peer)
    requires Before(c, k, g, i, p) && !Begins(p.pc)
    ensures var (p', k') := StepPeer(c.joinCt, p, k); NamesOk(c, k', NextSummary(g, i, p'))
  {
  }

  lemma OpenSemSelf(c: Group, k: Kernel, g: Summary, i: nat, p: Peer)
    requires Before(c, k, g, i, p) && p.pc.OpenSem?
    ensures var (p', k') := StepPeer(c.joinCt, p, k); PeerOk(c, k', NextSummary(g, i, p'), i, p')
  {
  }

  lemma ProbeSelf(c: Group, k: Kernel, g: Summary, i: nat, p: Peer)
    requires Before(c, k, g, i, p) && p.pc.Probe?
    ensures var (p', k') := StepPeer(c.joinCt, p, k); PeerOk(c, k', NextSummary(g, i, p'), i, p')
  {
  }

  lemma OpenShmSelf(c: Group, k: Kernel, g: Summary, i: nat, p: Peer)
    requires Before(c, k, g, i, p) && p.pc.OpenShm?
    ensures var (p', k') := StepPeer(c.joinCt, p, k); PeerOk(c, k', NextSummary(g, i, p'), i, p')
  {
  }

  lemma OpenSelf(c: Group, k: Kernel, g: Summary, i: nat, p: Peer)
    requires Before(c, k, g, i, p) && Opens(p.pc)
    ensures var (p', k') := StepPeer(c.joinCt, p, k); PeerOk(c, k', NextSummary(g, i, p'), i, p')
  {
    if p.pc.OpenSem? {
      OpenSemSelf(c, k, g, i, p);
    } else if p.pc.Probe? {
      ProbeSelf(c, k, g, i, p);
    } else {
      OpenShmSelf(c, k, g, i, p);
    }
  }

  lemma LockSelf(c: Group, k: Kernel, g: Summary, i: nat, p: Peer)
    requires Before(c, k, g, i, p) && (p.pc.Lock? || p.pc.Unlock?)
    ensures var (p', k') := StepPeer(c.joinCt, p, k); PeerOk(c, k', NextSummary(g, i, p'), i, p')
  {
  }

  lemma WorkSelf(c: Group, k: Kernel, g: Summary, i: nat, p: Peer)
    requires Before(c, k, g, i, p) && (p.pc.Truncate? || p.pc.Setup? || p.pc.ReadPid? || p.pc.JoinNs?)
    ensures var (p', k') := StepPeer(c.joinCt, p, k); PeerOk(c, k', NextSummary(g, i, p'), i, p')
  {
  }

  lemma BeginSelf(c: Group, k: Kernel, g: Summary, i: nat, p: Peer)
    requires Before(c, k, g, i, p) && Begins(p.pc) && !Opens(p.pc)
    ensures var (p', k') := StepPeer(c.joinCt, p, k); PeerOk(c, k', NextSummary(g, i, p'), i, p')
  {
    if p.pc.Lock? || p.pc.Unlock? { LockSelf(c, k, g, i, p); } else { WorkSelf(c, k, g, i, p); }
  }

  lemma EndSelf(c: Group, k: Kernel, g: Summary, i: nat, p: Peer)
    requires Before(c, k, g, i, p) && !Begins(p.pc)
    ensures var (p', k') := StepPeer(c.joinCt, p, k); PeerOk(c, k', NextSummary(g, i, p'), i, p')
  {
  }

  lemma StepSelf(c: Group, k: Kernel, g: Summary, i: nat, p: Peer)
    requires Before(c, k, g, i, p)
    ensures var (p', k') := StepPeer(c.joinCt, p, k);
            var g' := NextSummary(g, i, p');
            ObjectsOk(c, k', g') && NamesOk(c, k', g') && PeerOk(c, k', g', i, p')
  {
    if Opens(p.pc) {
      OpenObjects(c, k, g, i, p);
      OpenNames(c, k, g, i, p);
      OpenSelf(c, k, g, i, p);
    } else if Begins(p.pc) {
      BeginObjects(c, k, g, i, p);
      BeginNames(c, k, g, i, p);
      BeginSelf(c, k, g, i, p);
    } else {
      if Writes(p.pc) {
        WriteObjects(c, k, g, i, p);
      } else if Unlinks(p.pc) {
        UnlinkObjects(c, k, g, i, p);
      } else {
        EndObjects(c, k, g, i, p);
      }
      EndNames(c, k, g, i, p);
      EndSelf(c, k, g, i, p);
    }
  }

  // Peer i's step does not disturb peer j.

  lemma BeginOther(c: Group, k: Kernel, g: Summary, i: nat, p: Peer, j: nat, q: Peer)
    requires Before(c, k, g, i, p) && PeerOk(c, k, g, j, q) && i != j && Begins(p.pc)
    ensures var (p', k') := StepPeer(c.joinCt, p, k); PeerOk(c, k', NextSummary(g, i, p'), j, q)
  {
  }

  lemma EndOther(c: Group, k: Kernel, g: Summary, i: nat, p: Peer, j: nat, q: Peer)
    requires Before(c, k, g, i, p) && PeerOk(c, k, g, j, q) && i != j && !Begins(p.pc)
    ensures var (p', k') := StepPeer(c.joinCt, p, k); PeerOk(c, k', NextSummary(g, i, p'), j, q)
  {
  }

  lemma {:induction false} RangeSize(n: nat, c: set<nat>)
    requires forall i :: i in c ==> i < n
    ensures |c| <= n
    ensures |c| == n ==> forall i: nat :: i < n ==> i in c
  {
    if n > 0 {
      var d := c - {n - 1};
      RangeSize(n - 1, d);
      if n - 1 in c { assert c == d + {n - 1}; } else { assert c == d; }
    }
  }

  lemma StepOther(c: Group, k: Kernel, g: Summary, i: nat, p: Peer, j: nat, q: Peer)
    requires Before(c, k, g, i, p) && PeerOk(c, k, g, j, q) && i != j
    ensures var (p', k') := StepPeer(c.joinCt, p, k); PeerOk(c, k', NextSummary(g, i, p'), j, q)
  {
    if Begins(p.pc) { BeginOther(c, k, g, i, p, j, q); } else { EndOther(c, k, g, i, p, j, q); }
  }

  lemma BeforeStep(s: State, i: nat, g: Summary)
    requires InvWith(s, g) && Enabled(s, i)
    ensures Before(s.group, s.k, g, i, s.peers[i])
  {
    RangeSize(|s.peers|, g.counted);
    assert PeerOk(s.group, s.k, g, i, s.peers[i]);
  }

  lemma MoveExited(s: State, i: nat, g: Summary, t: State, g': Summary)
    requires InvWith(s, g) && Enabled(s, i) && t == Step(s, i) && g' == NextSummary(g, i, t.peers[i])
    requires ObjectsOk(s.group, t.k, g')
    ensures DistinctPids(t.peers) && ExitedOk(t, g')
  {
    var p, p' := s.peers[i], t.peers[i];
    assert PeerOk(s.group, s.k, g, i, p);
    assert i !in s.exited && p'.pid == p.pid;
    assert p'.winner && g.gone ==> Phase(p'.pc) == 4;
  }

  lemma MoveInv(s: State, i: nat, g: Summary)
    requires InvWith(s, g) && Enabled(s, i)
    ensures InvWith(Step(s, i), NextSummary(g, i, Step(s, i).peers[i]))
  {
    var c, k, p := s.group, s.k, s.peers[i];
    BeforeStep(s, i, g);
    StepSelf(c, k, g, i, p);
    var t := Step(s, i);
    MoveExited(s, i, g, t, NextSummary(g, i, t.peers[i]));
    forall j {:trigger s.peers[j]} | 0 <= j < |s.peers| && j != i
      ensures var (p', k') := StepPeer(c.joinCt, p, k); PeerOk(c, k', NextSummary(g, i, p'), j, s.peers[j])
    {
      StepOther(c, k, g, i, p, j, s.peers[j]);
    }
  }

  /** The end of a command takes away the PID's namespaces, which matters if it is the winner's. */
  lemma ExitInv(s: State, i: nat, s': State, g: Summary)
    requires InvWith(s, g) && Exits(s, i, s')
    ensures InvWith(s', if g.winner == Some(i) then g.(gone := true) else g)
  {
    var g' := if g.winner == Some(i) then g.(gone := true) else g;
    var p := s.peers[i];
    assert PeerOk(s.group, s.k, g, i, p);
    assert g.phase == 4;
    var w := g.winner.value;
    assert PeerOk(s.group, s.k, g, w, s.peers[w]);
    assert w != i ==> s.peers[w].pid != p.pid;
    forall j {:trigger s.peers[j]} | 0 <= j < |s.peers| ensures PeerOk(s.group, s'.k, g', j, s.peers[j]) {
      assert PeerOk(s.group, s.k, g, j, s.peers[j]);
    }
  }

  lemma NextInv(s: State, s': State)
    requires Inv(s) && Next(s, s')
    ensures Inv(s') && |s'.peers| == |s.peers| && s'.group == s.group
  {
    var g :| InvWith(s, g);
    var i :| Moves(s, i, s') || Stops(s, i, s') || Exits(s, i, s');
    if Moves(s, i, s') {
      MoveInv(s, i, g);
    } else if Exits(s, i, s') {
      ExitInv(s, i, s', g);
    } else {
      assert InvWith(s', g);
    }
  }

  lemma {:induction false} RunInv(r: seq<State>, n: nat)
    requires Run(r) && n < |r|
    ensures Inv(r[n]) && |r[n].peers| == |r[0].peers| && r[n].group == r[0].group
  {
    if n == 0 {
      InitInv(r[0]);
    } else {
      RunInv(r, n - 1);
      assert StepAt(r, n - 1);
      NextInv(r[n - 1], r[n]);
    }
  }

  // ---------------------------------------------------------------------------
  // Safety, in every state of every run, whoever stops wherever

  ghost function Holders(s: State): set<nat> { set i: nat | i < |s.peers| && Holds(s.peers[i].pc) }

  ghost function Winners(s: State): set<nat> { set i: nat | i < |s.peers| && s.peers[i].winner }

  ghost function Counted(s: State): set<nat> { set i: nat | i < |s.peers| && Decremented(s.peers[i].pc) }

  lemma SummarySets(s: State, g: Summary)
    requires InvWith(s, g)
    ensures Holders(s) == if g.holder.Some? then {g.holder.value} else {}
    ensures Counted(s) == g.counted
    ensures forall i :: i in Winners(s) ==> g.winner == Some(i)
  {
    assert forall i :: 0 <= i < |s.peers| ==> PeerOk(s.group, s.k, g, i, s.peers[i]);
  }

  /** Any peer's semaphore handle gives a semaphore whose value plus the number
      of holders is 1, counting as holders those that died with the lock. */
  lemma SemaphoreExcludes(r: seq<State>, n: nat, i: nat)
    requires Run(r) && n < |r| && i < |r[n].peers| && !r[n].peers[i].pc.OpenSem?
    ensures var s := r[n]; s.peers[i].sem < |s.k.sems| && s.k.sems[s.peers[i].sem] + |Holders(s)| == 1
  {
    RunInv(r, n);
    var g :| InvWith(r[n], g);
    SummarySets(r[n], g);
    assert PeerOk(r[n].group, r[n].k, g, i, r[n].peers[i]);
  }

  /** At most one peer ever wins. */
  lemma OneWinner(r: seq<State>, n: nat, i: nat, j: nat)
    requires Run(r) && n < |r| && i in Winners(r[n]) && j in Winners(r[n])
    ensures i == j
  {
    RunInv(r, n);
    var g :| InvWith(r[n], g);
    SummarySets(r[n], g);
  }

  /** The winner from when it is about to write its PID: it is in its own namespaces, and
      they can be joined until its command has ended. */
  lemma WinnerIsSetUp(r: seq<State>, n: nat, w: nat)
    requires Run(r) && n < |r| && w in Winners(r[n]) && SetUp(r[n].peers[w])
    ensures r[n].peers[w].inside == Some(r[n].peers[w].pid)
    ensures r[n].peers[w].pid in r[n].k.spaces <==> w !in r[n].exited
  {
    RunInv(r, n);
    var s := r[n];
    var g :| InvWith(s, g);
    assert PeerOk(s.group, s.k, g, w, s.peers[w]);
  }

  /** A loser that has read winner_pid, which it does without the lock, has read
      the PID of the one winner and not the zeroes of fresh shared memory. From then on it
      is about to join the winner's namespaces, or it is in them, or they are gone with
      the winner. */
  lemma LosersJoinTheWinner(r: seq<State>, n: nat, i: nat)
    requires Run(r) && n < |r| && i < |r[n].peers| && Informed(r[n].peers[i])
    ensures exists w :: w in Winners(r[n]) && JoinsWinner(r[n], i, w)
  {
    RunInv(r, n);
    var s := r[n];
    var g :| InvWith(s, g);
    assert PeerOk(s.group, s.k, g, i, s.peers[i]);
    var w := g.winner.value;
    assert PeerOk(s.group, s.k, g, w, s.peers[w]);
    assert w in Winners(s) && JoinsWinner(s, i, w);
  }

  ghost predicate JoinsWinner(s: State, i: nat, w: nat)
    requires i < |s.peers| && w < |s.peers|
  {
    var p, winner := s.peers[i], s.peers[w];
    && winner.pid == p.target > 0 && winner.pc.Done?
    && (if p.pc.JoinNs? then p.target in s.k.spaces <==> w !in s.exited
        else if p.pc.Orphaned? then w in s.exited
        else p.inside == Some(winner.pid))
  }

  /** Joining: the winner's namespaces are there and the peer is in them afterwards, unless
      the winner's command has ended. */
  lemma JoinStep(r: seq<State>, n: nat, i: nat, w: nat)
    requires Run(r) && n + 1 < |r| && Moves(r[n], i, r[n + 1]) && r[n].peers[i].pc.JoinNs? && w in Winners(r[n])
    ensures w !in r[n].exited ==>
              && r[n].peers[w].pid in r[n].k.spaces
              && r[n + 1].peers[i].pc.Relock? && r[n + 1].peers[i].inside == Some(r[n].peers[w].pid)
    ensures w in r[n].exited ==> r[n].peers[w].pid !in r[n].k.spaces && r[n + 1].peers[i].pc.Orphaned?
  {
    LosersAreInformed(r, n, i);
    LosersJoinTheWinner(r, n, i);
    var v :| v in Winners(r[n]) && JoinsWinner(r[n], i, v);
    OneWinner(r, n, v, w);
  }

  lemma LosersAreInformed(r: seq<State>, n: nat, i: nat)
    requires Run(r) && n < |r| && i < |r[n].peers| && r[n].peers[i].pc.JoinNs?
    ensures Informed(r[n].peers[i])
  {
    RunInv(r, n);
    var g :| InvWith(r[n], g);
    assert PeerOk(r[n].group, r[n].k, g, i, r[n].peers[i]);
  }

  /** Whoever is done is in the winner's namespaces. */
  lemma DoneIsInside(r: seq<State>, n: nat, i: nat)
    requires Run(r) && n < |r| && i < |r[n].peers| && r[n].peers[i].pc.Done?
    ensures exists w :: w in Winners(r[n]) && r[n].peers[i].inside == Some(r[n].peers[w].pid)
  {
    if r[n].peers[i].winner {
      assert i in Winners(r[n]);
      WinnerIsSetUp(r, n, i);
    } else {
      LosersJoinTheWinner(r, n, i);
      var w :| w in Winners(r[n]) && JoinsWinner(r[n], i, w);
    }
  }

  /** No assertion and no unlink ever fails. */
  lemma NothingFails(r: seq<State>, n: nat, i: nat)
    requires Run(r) && n < |r| && i < |r[n].peers|
    ensures !r[n].peers[i].pc.Failed?
  {
    RunInv(r, n);
    var g :| InvWith(r[n], g);
    assert PeerOk(r[n].group, r[n].k, g, i, r[n].peers[i]);
  }

  /** From initialisation on, proc_left_ct is join_ct minus the peers that have
      decremented it. */
  lemma Accounting(r: seq<State>, n: nat, i: nat)
    requires Run(r) && n < |r| && i < |r[n].peers| && Counting(r[n].peers[i].pc)
    ensures var s := r[n];
            s.peers[i].shm < |s.k.shms| && s.k.shms[s.peers[i].shm].left == s.group.joinCt - |Counted(s)|
  {
    RunInv(r, n);
    var g :| InvWith(r[n], g);
    SummarySets(r[n], g);
    assert PeerOk(r[n].group, r[n].k, g, i, r[n].peers[i]);
  }

  /** The names are removed at most once each, and only after join_ct peers have
      decremented. So if one stops before, or join_ct is too high, they leak. */
  lemma OnlyTheLastUnlinks(r: seq<State>, n: nat)
    requires Run(r) && n < |r|
    ensures r[n].k.shmUnlinks <= r[n].k.semUnlinks <= 1
    ensures r[n].k.semUnlinks == 1 ==>
              && |r[n].peers| == r[n].group.joinCt
              && forall i :: 0 <= i < |r[n].peers| ==> Decremented(r[n].peers[i].pc)
  {
    RunInv(r, n);
    var g :| InvWith(r[n], g);
    SummarySets(r[n], g);
    RangeSize(|r[n].peers|, g.counted);
  }

  /** If a peer has come too late to join the winner, both names stay. */
  lemma OrphansLeak(r: seq<State>, n: nat, i: nat)
    requires Run(r) && n < |r| && i < |r[n].peers| && r[n].peers[i].pc.Orphaned?
    ensures r[n].k.semName.Some? && r[n].k.shmName.Some?
  {
    RunInv(r, n);
    OnlyTheLastUnlinks(r, n);
    var s := r[n];
    var g :| InvWith(s, g);
    assert PeerOk(s.group, s.k, g, i, s.peers[i]);
    assert !Decremented(s.peers[i].pc);
  }

  // ---------------------------------------------------------------------------
  // Completion and reuse

  ghost predicate AllDone(s: State) { forall i :: 0 <= i < |s.peers| ==> s.peers[i].pc.Done? }

  /** A group that is done leaves no names behind, exactly if join_ct was right. */
  lemma Cleanup(r: seq<State>, n: nat)
    requires Run(r) && n < |r| && AllDone(r[n])
    ensures var k := r[n].k; k.semName.None? <==> |r[n].peers| == r[n].group.joinCt
    ensures var k := r[n].k; k.shmName.None? <==> |r[n].peers| == r[n].group.joinCt
    ensures |r[n].peers| == r[n].group.joinCt ==> r[n].k.semUnlinks == r[n].k.shmUnlinks == 1
  {
    RunInv(r, n);
    var s := r[n];
    var g :| InvWith(s, g);
    SummarySets(s, g);
    RangeSize(|s.peers|, g.counted);
    assert 0 < |s.peers|;
    assert PeerOk(s.group, s.k, g, 0, s.peers[0]);
    assert Holders(s) == {};
    if |s.peers| == s.group.joinCt {
      RangeIsFull(|s.peers|);
      assert Counted(s) == Range(|s.peers|);
    }
  }

  ghost function Range(n: nat): set<nat> {
    if n == 0 then {} else Range(n - 1) + {n - 1}
  }

  lemma {:induction false} RangeIsFull(n: nat)
    ensures |Range(n)| == n
    ensures forall i: nat :: i in Range(n) <==> i < n
  {
    if n > 0 { RangeIsFull(n - 1); }
  }

  /** So the next group with the same tag starts from a clean slate, whatever
      kernel objects the old group leaves behind without a name. */
  lemma TagReusable(r: seq<State>, n: nat, joinCt: nat, pids: seq<int>)
    requires Run(r) && n < |r| && AllDone(r[n]) && |r[n].peers| == r[n].group.joinCt
    requires 1 <= |pids| <= joinCt && forall i :: 0 <= i < |pids| ==> pids[i] > 0
    requires forall i, j :: 0 <= i < j < |pids| ==> pids[i] != pids[j]
    ensures var k := r[n].k;
            Init(State(Group(joinCt, |k.sems|, |k.shms|),
                       seq(|pids|, i requires 0 <= i < |pids| => Peer(OpenSem, pids[i], false, 0, 0, 0, 0, None)),
                       {}, {}, k.(semUnlinks := 0, shmUnlinks := 0)))
  {
    Cleanup(r, n);
  }

  // ---------------------------------------------------------------------------
  // Progress

  /** Steps a peer still has to take, at most. */
  function Rank(pc: Pc): nat {
    match pc
    case OpenSem => 14  case Lock => 13  case Probe => 12
    case Truncate => 11  case Setup => 10  case WritePid => 9  case WriteCt => 8
    case OpenShm => 11  case Unlock => 10  case ReadPid => 9  case JoinNs => 8  case Relock => 7
    case Load => 6  case Store => 5  case Check => 4  case UnlinkSem => 3  case UnlinkShm => 2  case Post => 1
    case Done => 0  case Orphaned => 0  case Failed => 0
  }

  ghost function TotalRank(ps: seq<Peer>): nat {
    if ps == [] then 0 else TotalRank(ps[..|ps| - 1]) + Rank(ps[|ps| - 1].pc)
  }

  lemma {:induction false} TotalRankDrops(ps: seq<Peer>, i: nat, p: Peer)
    requires i < |ps| && Rank(p.pc) < Rank(ps[i].pc)
    ensures TotalRank(ps[i := p]) < TotalRank(ps)
  {
    var n := |ps| - 1;
    if i < n {
      TotalRankDrops(ps[..n], i, p);
      assert ps[i := p][..n] == ps[..n][i := p];
    } else {
      assert ps[i := p][..n] == ps[..n];
    }
  }

  lemma {:induction false} TotalRankBound(ps: seq<Peer>)
    ensures TotalRank(ps) <= 14 * |ps|
  {
    if ps != [] { TotalRankBound(ps[..|ps| - 1]); }
  }

  ghost predicate Stuck(s: State) { forall i :: !Enabled(s, i) }

  /** Everybody is done, or has found the winner's PID gone. */
  ghost predicate AllOver(s: State) { forall i :: 0 <= i < |s.peers| ==> Over(s.peers[i].pc) }

  /** As long as nobody has stopped and somebody is not done, somebody can step:
      no deadlock. */
  lemma NoDeadlock(r: seq<State>, n: nat)
    requires Run(r) && n < |r| && r[n].stopped == {} && !AllOver(r[n])
    ensures !Stuck(r[n])
  {
    RunInv(r, n);
    var s := r[n];
    var g :| InvWith(s, g);
    var i :| 0 <= i < |s.peers| && !Over(s.peers[i].pc);
    assert PeerOk(s.group, s.k, g, i, s.peers[i]);
    if !Enabled(s, i) {
      var h := g.holder.value;
      assert PeerOk(s.group, s.k, g, h, s.peers[h]);
      assert Enabled(s, h);
    }
  }

  /** Every step of a peer brings the group closer to the end. */
  lemma StepsFinish(s: State, i: nat)
    requires Enabled(s, i)
    ensures TotalRank(Step(s, i).peers) < TotalRank(s.peers)
  {
    TotalRankDrops(s.peers, i, Step(s, i).peers[i]);
  }

  /** A run in which nobody stops takes at most 14 steps per peer and the ends of their
      commands, and if it cannot be continued then everybody is done and in the winner's
      namespaces, except for those that the winner's command has not waited for. */
  lemma EveryoneFinishes(r: seq<State>)
    requires Run(r) && r[|r| - 1].stopped == {}
    ensures |r| - 1 <= 15 * |r[0].peers|
    ensures var s := r[|r| - 1];
            Stuck(s) ==> exists w :: w in Winners(s) && AllFinished(s, w)
  {
    var n := |r| - 1;
    var s := r[n];
    StepsBounded(r, n);
    TotalRankBound(r[0].peers);
    ExitedBound(r, n);
    if Stuck(s) {
      if !AllOver(s) { NoDeadlock(r, n); }
      var w := PeerFinished(r, n, 0);
      forall i | 0 <= i < |s.peers| ensures Finished(s, i, w) {
        var v := PeerFinished(r, n, i);
        OneWinner(r, n, v, w);
      }
    }
  }

  lemma ExitedBound(r: seq<State>, n: nat)
    requires Run(r) && n < |r|
    ensures |r[n].exited| <= |r[0].peers| == |r[n].peers| && |r[n].peers| > 0
  {
    RunInv(r, n);
    var g :| InvWith(r[n], g);
    RangeSize(|r[n].peers|, r[n].exited);
  }

  ghost predicate AllFinished(s: State, w: nat)
    requires w < |s.peers|
  {
    forall i :: 0 <= i < |s.peers| ==> Finished(s, i, w)
  }

  ghost predicate Finished(s: State, i: nat, w: nat)
    requires i < |s.peers| && w < |s.peers|
  {
    var p := s.peers[i];
    (p.pc.Done? && p.inside == Some(s.peers[w].pid)) || (p.pc.Orphaned? && w in s.exited)
  }

  lemma PeerFinished(r: seq<State>, n: nat, i: nat) returns (w: nat)
    requires Run(r) && n < |r| && i < |r[n].peers| && Over(r[n].peers[i].pc)
    ensures w in Winners(r[n]) && Finished(r[n], i, w)
  {
    if r[n].peers[i].pc.Done? {
      DoneIsInside(r, n, i);
      w :| w in Winners(r[n]) && r[n].peers[i].inside == Some(r[n].peers[w].pid);
    } else {
      OrphansAreInformed(r, n, i);
      LosersJoinTheWinner(r, n, i);
      w :| w in Winners(r[n]) && JoinsWinner(r[n], i, w);
    }
  }

  lemma OrphansAreInformed(r: seq<State>, n: nat, i: nat)
    requires Run(r) && n < |r| && i < |r[n].peers| && r[n].peers[i].pc.Orphaned?
    ensures Informed(r[n].peers[i])
  {
    RunInv(r, n);
    var g :| InvWith(r[n], g);
    assert PeerOk(r[n].group, r[n].k, g, i, r[n].peers[i]);
  }

  lemma EventsRecorded(s: State, i: nat, t: State)
    ensures Stops(s, i, t) ==> i in t.stopped
    ensures Moves(s, i, t) ==> t.exited == s.exited
    ensures Exits(s, i, t) ==> t.peers == s.peers && |t.exited| == |s.exited| + 1
  {
  }

  lemma {:induction false} StepsBounded(r: seq<State>, n: nat)
    requires Run(r) && n < |r| && r[n].stopped == {}
    ensures n + TotalRank(r[n].peers) <= TotalRank(r[0].peers) + |r[n].exited|
  {
    if n > 0 {
      assert StepAt(r, n - 1);
      var i :| Moves(r[n - 1], i, r[n]) || Stops(r[n - 1], i, r[n]) || Exits(r[n - 1], i, r[n]);
      EventsRecorded(r[n - 1], i, r[n]);
      if Moves(r[n - 1], i, r[n]) { StepsFinish(r[n - 1], i); }
      StepsBounded(r, n - 1);
    }
  }
}
