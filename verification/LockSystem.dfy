/** The noop, clean and apply loops of hecklerd over the lock files of all
    nodes, as one interleaved state machine. */
module LockSystem {
  import opened Wrappers
  import opened LockFile

  type Pid = nat

  datatype Kind = NoopLoop | CleanLoop | ApplyLoop
  datatype Pc = Idle | WantMutex | Body

  /** `held`: nodes whose lock was granted to this run and not yet given back.
      `busy`: those among them whose PuppetApply has not been answered. */
  datatype Proc = Proc(kind: Kind, pc: Pc, held: set<Host>, busy: set<Host>)

  /** `running`: nodes executing a PuppetApply its client waits for; `orphans`:
      nodes executing one whose client gave up; `tainted`: nodes whose lock
      file somebody took away from root, or whose lock was granted without one. */
  datatype State = State(procs: map<Pid, Proc>, mutex: Option<Pid>, sem: bool, locks: map<Host, Lock>,
                         running: set<Host>, orphans: set<Host>, tainted: set<Host>)

  function LockOf(s: State, h: Host): Option<Lock> {
    LockAt(s.locks, h)
  }

  datatype Label =
    | Start(p: Pid)                                      // the schedule fires; apply also takes the semaphore
    | TakeMutex(p: Pid)
    | LockNode(p: Pid, h: Host, f: Faults, lost: bool)   // `lost`: the reply never arrives
    | SendApply(p: Pid, h: Host, started: bool)
    | Finish(p: Pid, h: Host)
    | Abandon(p: Pid, h: Host)                           // the client's ten minutes are over
    | OrphanEnds(h: Host)
    | UnlockNode(p: Pid, h: Host, f: Faults, delivered: bool)
    | Leave(p: Pid)
    | UserRequest(h: Host, req: LockRequest, f: Faults)  // from anybody outside the loops

  /** A request that takes a lock file away from root. */
  predicate Robs(req: LockRequest, f: Faults) {
    Holder(Handle(Some(Lock(ROOT, "")), req, f).lock) != Some(ROOT)
  }

  /** What that means: an unlock by force or in root's name, or a forced lock by
      somebody else, carried out without a fault. */
  lemma RobsExactly(req: LockRequest, f: Faults, content: string)
    ensures Robs(req, f) <==>
              || (req.kind == UnlockReq && (req.force || req.user == ROOT) && !f.owner && !f.remove)
              || (req.kind == LockReq && req.force && req.user != ROOT && !f.prepare && !f.chown && !f.rename)
    ensures Robs(req, f) <==> Holder(Handle(Some(Lock(ROOT, content)), req, f).lock) != Some(ROOT)
  {
  }

  /** A lock request that is granted although linking the lock file failed. */
  predicate Phantom(f: Faults, lost: bool) {
    f.link && !f.prepare && !lost
  }

  function RootRequest(kind: LockReqType): LockRequest {
    LockRequest(kind, ROOT, "", false)
  }

  predicate Enabled(s: State, l: Label) {
    match l
    case Start(p) => p in s.procs && s.procs[p].pc == Idle && (s.procs[p].kind == ApplyLoop ==> !s.sem)
    case TakeMutex(p) => p in s.procs && s.procs[p].pc == WantMutex && s.mutex == None
    case LockNode(p, h, _, _) => p in s.procs && s.procs[p].pc == Body && h !in s.procs[p].held
    case SendApply(p, h, _) => p in s.procs && s.procs[p].pc == Body && h in s.procs[p].held - s.procs[p].busy
    case Finish(p, h) => p in s.procs && h in s.procs[p].busy
    case Abandon(p, h) => p in s.procs && h in s.procs[p].busy
    case OrphanEnds(h) => h in s.orphans
    case UnlockNode(p, h, _, _) => p in s.procs && s.procs[p].pc == Body && h in s.procs[p].held - s.procs[p].busy
    case Leave(p) => p in s.procs && s.procs[p].pc == Body && s.procs[p].held == {}
    case UserRequest(_, _, _) => true
  }

  function Next(s: State, l: Label): State
    requires Enabled(s, l)
  {
    match l
    case Start(p) =>
      s.(procs := s.procs[p := s.procs[p].(pc := WantMutex)], sem := s.sem || s.procs[p].kind == ApplyLoop)
    case TakeMutex(p) =>
      s.(procs := s.procs[p := s.procs[p].(pc := Body)], mutex := Some(p))
    case LockNode(p, h, f, lost) =>
      var o := Handle(LockOf(s, h), RootRequest(LockReq), f);
      var granted := !lost && StateOf(o.reply).status == LockedByUser;
      s.(procs := if granted then s.procs[p := s.procs[p].(held := s.procs[p].held + {h})] else s.procs,
         locks := WithLock(s.locks, h, o.lock),
         tainted := if Phantom(f, lost) then s.tainted + {h} else s.tainted)
    case SendApply(p, h, started) =>
      s.(procs := s.procs[p := s.procs[p].(busy := s.procs[p].busy + {h})],
         running := if started then s.running + {h} else s.running)
    case Finish(p, h) =>
      s.(procs := s.procs[p := s.procs[p].(busy := s.procs[p].busy - {h})], running := s.running - {h})
    case Abandon(p, h) =>
      s.(procs := s.procs[p := s.procs[p].(busy := s.procs[p].busy - {h})], running := s.running - {h},
         orphans := if h in s.running then s.orphans + {h} else s.orphans)
    case OrphanEnds(h) =>
      s.(orphans := s.orphans - {h})
    case UnlockNode(p, h, f, delivered) =>
      var o := Handle(LockOf(s, h), RootRequest(UnlockReq), f);
      s.(procs := s.procs[p := s.procs[p].(held := s.procs[p].held - {h})],
         locks := if delivered then WithLock(s.locks, h, o.lock) else s.locks)
    case Leave(p) =>
      s.(procs := s.procs[p := s.procs[p].(pc := Idle)], mutex := None,
         sem := s.sem && s.procs[p].kind != ApplyLoop)
    case UserRequest(h, req, f) =>
      s.(locks := WithLock(s.locks, h, Handle(LockOf(s, h), req, f).lock),
         tainted := if Robs(req, f) then s.tainted + {h} else s.tainted)
  }

  predicate Init(s: State) {
    && (forall p :: p in s.procs ==> s.procs[p].pc == Idle && s.procs[p].held == {} && s.procs[p].busy == {})
    && s.mutex == None && !s.sem && s.running == {} && s.orphans == {} && s.tainted == {}
  }

  ghost predicate ValidRun(s: State, run: seq<Label>)
    decreases |run|
  {
    run == [] || (Enabled(s, run[0]) && ValidRun(Next(s, run[0]), run[1..]))
  }

  ghost function After(s: State, run: seq<Label>): State
    requires ValidRun(s, run)
    decreases |run|
  {
    if run == [] then s else After(Next(s, run[0]), run[1..])
  }

  /** The mutex and the semaphore are owned by the loops inside them. */
  ghost predicate Exclusive(s: State) {
    MutexOwned(s) && SemaphoreOwned(s)
  }

  ghost predicate MutexOwned(s: State) {
    && (forall p :: p in s.procs ==> (s.procs[p].pc == Body <==> s.mutex == Some(p)))
    && (s.mutex.Some? ==> s.mutex.value in s.procs)
  }

  ghost predicate SemaphoreOwned(s: State) {
    && (forall p :: p in s.procs && s.procs[p].kind == ApplyLoop && s.procs[p].pc != Idle ==> s.sem)
    && (forall p, q :: p in s.procs && q in s.procs && p != q && s.procs[p].kind == s.procs[q].kind == ApplyLoop ==>
                         s.procs[p].pc == Idle || s.procs[q].pc == Idle)
    && (s.sem ==> exists p :: p in s.procs && PastSemaphore(s.procs[p]))
  }

  ghost predicate Nested(s: State) {
    forall p :: p in s.procs ==>
                  s.procs[p].busy <= s.procs[p].held && (s.procs[p].pc != Body ==> s.procs[p].held == {})
  }

  ghost predicate HeldIsLocked(s: State) {
    forall p, h :: p in s.procs && h in s.procs[p].held && h !in s.tainted ==> Holder(LockOf(s, h)) == Some(ROOT)
  }

  ghost predicate RunningIsAwaited(s: State) {
    forall h :: h in s.running ==> s.mutex.Some? && s.mutex.value in s.procs && h in s.procs[s.mutex.value].busy
  }

  ghost predicate Inv(s: State) {
    Exclusive(s) && Nested(s) && HeldIsLocked(s) && RunningIsAwaited(s)
  }

  lemma InitInv(s: State)
    requires Init(s)
    ensures Inv(s)
  {
  }

  lemma NextExclusive(s: State, l: Label)
    requires Inv(s) && Enabled(s, l)
    ensures Exclusive(Next(s, l))
  {
    NextMutexOwned(s, l);
    NextSemaphoreOwned(s, l);
  }

  /** Only starting, entering and leaving concern the semaphore and the mutex. */
  lemma SamePlaces(s: State, l: Label)
    requires Enabled(s, l) && !l.Start? && !l.TakeMutex? && !l.Leave?
    ensures Next(s, l).sem == s.sem && Next(s, l).mutex == s.mutex && Next(s, l).procs.Keys == s.procs.Keys
    ensures forall p :: p in s.procs ==>
              Next(s, l).procs[p].kind == s.procs[p].kind && Next(s, l).procs[p].pc == s.procs[p].pc
  {
  }

  lemma NextMutexOwned(s: State, l: Label)
    requires MutexOwned(s) && Nested(s) && Enabled(s, l)
    ensures MutexOwned(Next(s, l))
  {
    if !l.Start? && !l.TakeMutex? && !l.Leave? {
      SamePlaces(s, l);
    }
  }

  lemma NextSemaphoreOwned(s: State, l: Label)
    requires Exclusive(s) && Enabled(s, l)
    ensures SemaphoreOwned(Next(s, l))
  {
    var t := Next(s, l);
    if !l.Start? && !l.TakeMutex? && !l.Leave? {
      SamePlaces(s, l);
    }
    if t.sem {
      if s.sem {
        var p :| p in s.procs && PastSemaphore(s.procs[p]);
        assert p in t.procs && PastSemaphore(t.procs[p]);
      } else {
        assert l.Start? && PastSemaphore(t.procs[l.p]);
      }
    }
  }

  lemma NextNested(s: State, l: Label)
    requires Inv(s) && Enabled(s, l)
    ensures Nested(Next(s, l)) && RunningIsAwaited(Next(s, l))
  {
  }

  lemma StaysLocked(s: State, l: Label, p: Pid, h: Host)
    requires Inv(s) && Enabled(s, l)
    requires p in Next(s, l).procs && h in Next(s, l).procs[p].held && h !in Next(s, l).tainted
    ensures Holder(LockOf(Next(s, l), h)) == Some(ROOT)
  {
    assert p in s.procs && h in s.procs[p].held && h !in s.tainted ==> Holder(LockOf(s, h)) == Some(ROOT);
  }

  lemma NextHeldIsLocked(s: State, l: Label)
    requires Inv(s) && Enabled(s, l)
    ensures HeldIsLocked(Next(s, l))
  {
    forall p, h | p in Next(s, l).procs && h in Next(s, l).procs[p].held && h !in Next(s, l).tainted
      ensures Holder(LockOf(Next(s, l), h)) == Some(ROOT)
    {
      StaysLocked(s, l, p, h);
    }
  }

  lemma {:induction false} RunInv(s: State, run: seq<Label>)
    requires Inv(s) && ValidRun(s, run)
    ensures Inv(After(s, run))
    decreases |run|
  {
    if run != [] {
      NextExclusive(s, run[0]);
      NextNested(s, run[0]);
      NextHeldIsLocked(s, run[0]);
      RunInv(Next(s, run[0]), run[1..]);
    }
  }

  predicate PastSemaphore(proc: Proc) {
    proc.kind == ApplyLoop && proc.pc != Idle
  }

  /** The node is executing a PuppetApply. */
  predicate Executing(s: State, h: Host) {
    h in s.running || h in s.orphans
  }

  predicate RootLocked(s: State, h: Host) {
    Holder(LockOf(s, h)) == Some(ROOT)
  }

  /** Something in the run put the locking of this node out of the loops' hands. */
  predicate Blames(l: Label, h: Host) {
    match l
    case Abandon(_, k) => k == h
    case LockNode(_, k, f, lost) => k == h && Phantom(f, lost)
    case UserRequest(k, req, f) => k == h && Robs(req, f)
    case _ => false
  }

  lemma {:induction false} BlameNeeded(s: State, run: seq<Label>, h: Host)
    requires ValidRun(s, run) && h !in s.tainted && h !in s.orphans
    requires forall i :: 0 <= i < |run| ==> !Blames(run[i], h)
    ensures h !in After(s, run).tainted && h !in After(s, run).orphans
    decreases |run|
  {
    if run != [] {
      assert !Blames(run[0], h);
      assert forall i :: 0 <= i < |run[1..]| ==> run[1..][i] == run[i+1];
      BlameNeeded(Next(s, run[0]), run[1..], h);
    }
  }

  /** In every state of every run, whatever other users request and whatever
      calls get lost: at most one loop body is inside the mutex, at most one
      apply is past its semaphore, and a node executing a PuppetApply is locked
      by root, unless the run holds an abandoned apply, a request that took
      root's lock file away or a lock granted without one for that very node. */
  lemma LockDiscipline(s: State, run: seq<Label>, h: Host)
    requires Init(s) && ValidRun(s, run)
    ensures var t := After(s, run);
            && (forall p, q :: p in t.procs && q in t.procs && t.procs[p].pc == t.procs[q].pc == Body ==> p == q)
            && (forall p, q ::
                  p in t.procs && q in t.procs && PastSemaphore(t.procs[p]) && PastSemaphore(t.procs[q]) ==> p == q)
            && (t.mutex.Some? <==> exists p :: p in t.procs && t.procs[p].pc == Body)
            && (t.sem <==> exists p :: p in t.procs && t.procs[p].kind == ApplyLoop && t.procs[p].pc != Idle)
            && (Executing(t, h) ==> RootLocked(t, h) || exists i :: 0 <= i < |run| && Blames(run[i], h))
  {
    InitInv(s);
    RunInv(s, run);
    if forall i :: 0 <= i < |run| ==> !Blames(run[i], h) {
      BlameNeeded(s, run, h);
    }
  }

  lemma {:induction false} RunAppend(s: State, run: seq<Label>, more: seq<Label>)
    requires ValidRun(s, run) && ValidRun(After(s, run), more)
    ensures ValidRun(s, run + more) && After(s, run + more) == After(After(s, run), more)
    decreases |run|
  {
    if run == [] {
      assert run + more == more;
    } else {
      RunAppend(Next(s, run[0]), run[1..], more);
      assert (run + more)[1..] == run[1..] + more;
    }
  }

  lemma RunOne(s: State, l: Label)
    requires Enabled(s, l)
    ensures ValidRun(s, [l]) && After(s, [l]) == Next(s, l)
  {
  }

  /** One more label at the end of a run. */
  lemma Then(s: State, run: seq<Label>, l: Label) returns (longer: seq<Label>)
    requires ValidRun(s, run) && Enabled(After(s, run), l)
    ensures longer == run + [l] && ValidRun(s, longer) && After(s, longer) == Next(After(s, run), l)
  {
    longer := run + [l];
    RunOne(After(s, run), l);
    RunAppend(s, run, [l]);
  }

  /** A loop gets into the mutex, locks a free node and starts an apply there. */
  lemma StartsApply(s: State, p: Pid, h: Host) returns (run: seq<Label>)
    requires Init(s) && p in s.procs && LockOf(s, h) == None
    ensures ValidRun(s, run)
    ensures run == [Start(p), TakeMutex(p), LockNode(p, h, NO_FAULTS, false), SendApply(p, h, true)]
    ensures var t := After(s, run);
            && p in t.procs && t.procs[p].pc == Body && h in t.procs[p].held && h in t.procs[p].busy
            && h in t.running && RootLocked(t, h)
  {
    run := Then(s, [], Start(p));
    run := Then(s, run, TakeMutex(p));
    run := Then(s, run, LockNode(p, h, NO_FAULTS, false));
    run := Then(s, run, SendApply(p, h, true));
  }

  /** The process whose step the label is, if it is one. */
  predicate StepOf(l: Label, p: Pid) {
    match l
    case Abandon(q, _) => q == p
    case LockNode(q, _, _, _) => q == p
    case _ => true
  }

  /** A loop starts an apply on a node whose lock it was granted, but never got. */
  lemma StartsUnlocked(s: State, p: Pid, h: Host, f: Faults, lost: bool) returns (run: seq<Label>)
    requires Init(s) && p in s.procs && LockOf(s, h) == None && Phantom(f, lost)
    ensures ValidRun(s, run)
    ensures run == [Start(p), TakeMutex(p), LockNode(p, h, f, lost), SendApply(p, h, true)]
    ensures Executing(After(s, run), h) && !RootLocked(After(s, run), h)
  {
    run := Then(s, [], Start(p));
    run := Then(s, run, TakeMutex(p));
    run := Then(s, run, LockNode(p, h, f, lost));
    run := Then(s, run, SendApply(p, h, true));
  }

  /** None of the causes can be left out: each one, alone, breaks the discipline
      in some run, on a node executing an apply that root has not locked. */
  lemma EveryCauseBreaks(s: State, p: Pid, h: Host, cause: Label) returns (run: seq<Label>)
    requires Init(s) && p in s.procs && LockOf(s, h) == None && Blames(cause, h) && StepOf(cause, p)
    ensures ValidRun(s, run) && cause in run
    ensures Executing(After(s, run), h) && !RootLocked(After(s, run), h)
    ensures forall l :: l in run && Blames(l, h) ==> l == cause
  {
    match cause
    case Abandon(_, _) =>
      run := AbandonUnlocks(s, p, h);
    case LockNode(_, _, f, lost) =>
      run := StartsUnlocked(s, p, h, f, lost);
    case UserRequest(_, req, f) =>
      run := RobberyUnlocks(s, p, h, req, f);
  }

  /** Root's lock file is taken away in the middle of an apply. */
  lemma RobberyUnlocks(s: State, p: Pid, h: Host, req: LockRequest, f: Faults) returns (run: seq<Label>)
    requires Init(s) && p in s.procs && LockOf(s, h) == None && Robs(req, f)
    ensures ValidRun(s, run) && UserRequest(h, req, f) in run
    ensures Executing(After(s, run), h) && !RootLocked(After(s, run), h)
    ensures forall l :: l in run && Blames(l, h) ==> l == UserRequest(h, req, f)
  {
    var start := StartsApply(s, p, h);
    RobsExactly(req, f, LockOf(After(s, start), h).value.content);
    run := Then(s, start, UserRequest(h, req, f));
  }

  /** An apply that outlives its client runs on a node that is no longer locked. */
  lemma AbandonUnlocks(s: State, p: Pid, h: Host) returns (run: seq<Label>)
    requires Init(s) && p in s.procs && LockOf(s, h) == None
    ensures ValidRun(s, run)
    ensures Executing(After(s, run), h) && !RootLocked(After(s, run), h)
    ensures Abandon(p, h) in run && forall l :: l in run && Blames(l, h) ==> l == Abandon(p, h)
  {
    run := StartsApply(s, p, h);
    run := Then(s, run, Abandon(p, h));
    run := Then(s, run, UnlockNode(p, h, NO_FAULTS, true));
  }

  /** A forced unlock by another user frees a node in the middle of its apply. */
  lemma ForceUnlocks(s: State, p: Pid, h: Host, u: User) returns (run: seq<Label>)
    requires Init(s) && p in s.procs && LockOf(s, h) == None
    ensures ValidRun(s, run)
    ensures Executing(After(s, run), h) && !RootLocked(After(s, run), h)
    ensures forall l :: l in run && Blames(l, h) ==> l == UserRequest(h, LockRequest(UnlockReq, u, "", true), NO_FAULTS)
  {
    run := RobberyUnlocks(s, p, h, LockRequest(UnlockReq, u, "", true), NO_FAULTS);
  }

  /** The loop inside the mutex can take a step that leaves it with less to do. */
  lemma HolderStep(s: State, p: Pid) returns (l: Label)
    requires Inv(s) && p in s.procs && s.mutex == Some(p) && s.procs[p].busy + s.procs[p].held != {}
    ensures Enabled(s, l) && Inv(Next(s, l)) && Next(s, l).mutex == Some(p)
    ensures p in Next(s, l).procs && Next(s, l).procs[p].kind == s.procs[p].kind
    ensures Next(s, l).procs == s.procs[p := Next(s, l).procs[p]]
    ensures |Next(s, l).procs[p].busy| + |Next(s, l).procs[p].held| < |s.procs[p].busy| + |s.procs[p].held|
  {
    if h :| h in s.procs[p].busy {
      l := Finish(p, h);
    } else {
      var h :| h in s.procs[p].held;
      l := UnlockNode(p, h, NO_FAULTS, true);
    }
    NextExclusive(s, l);
    NextNested(s, l);
    NextHeldIsLocked(s, l);
  }

  /** From every reachable state the loop inside the mutex can leave it by its
      own steps: it waits for answers of nodes only, never for the semaphore. */
  lemma {:induction false} HolderCanLeave(s: State, p: Pid) returns (run: seq<Label>)
    requires Inv(s) && p in s.procs && s.mutex == Some(p)
    ensures ValidRun(s, run) && After(s, run).mutex == None
    ensures After(s, run).sem == (s.sem && s.procs[p].kind != ApplyLoop)
    ensures After(s, run).procs == s.procs[p := Proc(s.procs[p].kind, Idle, {}, {})]
    decreases |s.procs[p].busy| + |s.procs[p].held|
  {
    if s.procs[p].busy + s.procs[p].held == {} {
      run := [Leave(p)];
      RunOne(s, Leave(p));
      assert s.procs[p].busy == {} && s.procs[p].held == {};
      assert s.procs[p].(pc := Idle) == Proc(s.procs[p].kind, Idle, {}, {});
    } else {
      hide Next;
      var l := HolderStep(s, p);
      var rest := HolderCanLeave(Next(s, l), p);
      RunOne(s, l);
      RunAppend(s, [l], rest);
      run := [l] + rest;
    }
  }

  /** No deadlock: whoever waits for the mutex, apply with the semaphore in
      hand included, enters its body in some continuation of the run. */
  lemma WaiterCanEnter(s: State, p: Pid) returns (run: seq<Label>)
    requires Inv(s) && p in s.procs && s.procs[p].pc == WantMutex
    ensures ValidRun(s, run) && p in After(s, run).procs && After(s, run).procs[p].pc == Body
  {
    run := [];
    if s.mutex.Some? {
      run := HolderCanLeave(s, s.mutex.value);
    }
    var t := After(s, run);
    RunOne(t, TakeMutex(p));
    RunAppend(s, run, [TakeMutex(p)]);
    run := run + [TakeMutex(p)];
  }
}
