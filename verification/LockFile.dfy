/** The per-node lock file kept by rizzod. One request is one atomic step. */
module LockFile {
  import opened Wrappers

  type User = string

  /** rizzod runs as root: a lock file it fails to hand over stays owned by root. */
  const DAEMON_USER: User := "root"

  /** The users hecklerd locks nodes as: for its own work, and to keep failed nodes locked. */
  const ROOT: User := "root"
  const HECKLER: User := "heckler"

  datatype Lock = Lock(owner: User, content: string)

  /** The lock files of all nodes. */
  function LockAt(locks: map<Host, Lock>, h: Host): Option<Lock> {
    if h in locks then Some(locks[h]) else None
  }

  function WithLock(locks: map<Host, Lock>, h: Host, lock: Option<Lock>): map<Host, Lock> {
    match lock
    case Some(l) => locks[h := l]
    case None => locks - {h}
  }

  datatype LockStatus = LockUnknown | LockedByUser | LockedByAnother | Unlocked
  datatype LockState = LockState(status: LockStatus, user: User, comment: string)
  datatype LockReqType = LockReq | UnlockReq | StateReq
  datatype LockRequest = LockRequest(kind: LockReqType, user: User, comment: string, force: bool)

  /** A reply over the wire; `error` is empty unless the request failed. */
  datatype LockReport = LockReport(status: LockStatus, error: string, user: User, comment: string)

  const NO_STATE := LockState(LockUnknown, "", "")

  /** The system calls of one request that fail. `prepare` stands for writing
      the temporary file and looking up the user, `link` for a link error other
      than an existing lock file. */
  datatype Faults = Faults(prepare: bool, chown: bool, link: bool, rename: bool,
                           owner: bool, comment: bool, remove: bool)

  const NO_FAULTS := Faults(false, false, false, false, false, false, false)

  function FileContent(comment: string): string {
    TrimNewlines(comment) + "\n"
  }

  /** A stored comment reads back as it was given, trailing newlines aside. */
  lemma CommentRoundTrip(comment: string)
    ensures TrimNewlines(FileContent(comment)) == TrimNewlines(comment)
  {
  }

  /** A result is a state or, when `Failed`, an error reported as unknown. */
  datatype Outcome = Outcome(lock: Option<Lock>, reply: Reply<LockState>)

  function LockOutcome(lock: Option<Lock>, locker: User, comment: string, force: bool, f: Faults): Outcome {
    var mine := Some(Lock(if f.chown then DAEMON_USER else locker, FileContent(comment)));
    if f.prepare then Outcome(lock, Failed)
    else if force then
      if f.rename then Outcome(lock, Failed) else Outcome(mine, Answer(LockState(LockedByUser, "", "")))
    else if f.link then
      // a link error other than an existing file is answered like a success
      Outcome(lock, Answer(LockState(LockedByUser, locker, comment)))
    else if lock.Some? then
      if f.owner || f.comment then Outcome(lock, Failed)
      else Outcome(lock, Answer(LockState(LockedByAnother, lock.value.owner, TrimNewlines(lock.value.content))))
    else Outcome(mine, Answer(LockState(LockedByUser, locker, comment)))
  }

  function UnlockOutcome(lock: Option<Lock>, unlocker: User, force: bool, f: Faults): Outcome {
    if lock.None? then Outcome(lock, Answer(LockState(Unlocked, "", "")))
    else if f.owner then Outcome(lock, Failed)
    else if unlocker == lock.value.owner || force then
      if f.remove then Outcome(lock, Failed) else Outcome(None, Answer(LockState(Unlocked, "", "")))
    else if f.comment then Outcome(lock, Answer(LockState(LockUnknown, lock.value.owner, "")))
    else Outcome(lock, Answer(LockState(LockedByAnother, lock.value.owner, TrimNewlines(lock.value.content))))
  }

  function StateOutcome(lock: Option<Lock>, user: User, f: Faults): Outcome {
    if lock.None? then Outcome(lock, Answer(LockState(Unlocked, "", "")))
    else if f.owner then Outcome(lock, Answer(NO_STATE))
    else if f.comment then Outcome(lock, Answer(LockState(LockUnknown, lock.value.owner, "")))
    else Outcome(lock, Answer(LockState(if user == lock.value.owner then LockedByUser else LockedByAnother,
                                        lock.value.owner, TrimNewlines(lock.value.content))))
  }

  function Handle(lock: Option<Lock>, req: LockRequest, f: Faults): Outcome {
    match req.kind
    case LockReq => LockOutcome(lock, req.user, req.comment, req.force, f)
    case UnlockReq => UnlockOutcome(lock, req.user, req.force, f)
    case StateReq => StateOutcome(lock, req.user, f)
  }

  /** What the requests do when no system call fails. Locking a free node makes
      the user its owner, with the comment; a held node stays as it is unless the
      lock is forced. Unlocking frees a node for its owner, or by force. Whoever
      is turned away, or asks, is told the owner and the comment. */
  lemma Faultless(lock: Option<Lock>, kind: LockReqType, user: User, comment: string, force: bool)
    ensures var o := Handle(lock, LockRequest(kind, user, comment, force), NO_FAULTS);
            var mine := Lock(user, TrimNewlines(comment) + "\n");
            && o.reply.Answer?
            && var said := o.reply.value;
               && (kind == LockReq && (force || lock == None) ==> o.lock == Some(mine) && said.status == LockedByUser)
               && (kind == LockReq && !force && lock == None ==> said.user == user && said.comment == comment)
               && (kind == UnlockReq && lock == None ==> o.lock == None && said.status == Unlocked)
               && (kind == StateReq ==> o.lock == lock)
               && (kind == StateReq && lock == None ==> said.status == Unlocked)
               && (lock.Some? ==>
                     var held := lock.value;
                     && (kind == UnlockReq && (force || user == held.owner) ==>
                           o.lock == None && said.status == Unlocked)
                     && (!force && (kind == LockReq || (kind == UnlockReq && user != held.owner)) ==>
                           && o.lock == lock
                           && said == LockState(LockedByAnother, held.owner, TrimNewlines(held.content)))
                     && (kind == StateReq ==>
                           && said.user == held.owner && said.comment == TrimNewlines(held.content)
                           && (said.status == LockedByUser <==> user == held.owner)
                           && (said.status == LockedByAnother <==> user != held.owner)))
  {
  }

  function LockStateToReport(ls: LockState): LockReport {
    LockReport(ls.status, "", ls.user, ls.comment)
  }

  function LockReportToLockState(lr: LockReport): LockState {
    LockState(lr.status, lr.user, lr.comment)
  }

  /** What hecklerd reads from the reply: the state rizzod meant, or unknown. */
  function StateOf(reply: Reply<LockState>): LockState {
    match reply
    case Answer(ls) => ls
    case Failed => NO_STATE
  }

  class LockServer {
    var lock: Option<Lock>

    constructor ()
      ensures lock == None
    {
      lock := None;
    }

    method PuppetLock(req: LockRequest, f: Faults) returns (report: LockReport)
      modifies this
      ensures lock == Handle(old(lock), req, f).lock
      ensures LockReportToLockState(report) == StateOf(Handle(old(lock), req, f).reply)
      ensures report.error != "" <==> Handle(old(lock), req, f).reply.Failed?
      ensures match Handle(old(lock), req, f).reply
              case Answer(ls) => report == LockReport(ls.status, "", ls.user, ls.comment)
              case Failed => report.status == LockUnknown
    {
      var reply: Reply<LockState>;
      match req.kind {
        case LockReq => reply := Acquire(req.user, req.comment, req.force, f);
        case UnlockReq => reply := Release(req.user, req.force, f);
        case StateReq => reply := State(req.user, f);
      }
      match reply {
        case Failed => report := LockReport(LockUnknown, "request failed", "", "");
        case Answer(ls) => report := LockStateToReport(ls);
      }
    }

    method State(user: User, f: Faults) returns (reply: Reply<LockState>)
      ensures Outcome(lock, reply) == StateOutcome(lock, user, f)
    {
      var li := NO_STATE;
      if lock.None? {
        li := li.(status := Unlocked);
        return Answer(li);
      }
      if f.owner { return Answer(li); }
      li := li.(user := lock.value.owner);
      if f.comment { return Answer(li); }
      li := li.(comment := TrimNewlines(lock.value.content));
      if user == lock.value.owner {
        li := li.(status := LockedByUser);
      } else {
        li := li.(status := LockedByAnother);
      }
      return Answer(li);
    }

    method Acquire(locker: User, comment: string, forceLock: bool, f: Faults) returns (reply: Reply<LockState>)
      modifies this
      ensures Outcome(lock, reply) == LockOutcome(old(lock), locker, comment, forceLock, f)
    {
      var li := NO_STATE;
      if f.prepare { return Failed; }
      var tmpfile := Lock(DAEMON_USER, FileContent(comment));
      if !f.chown {
        tmpfile := tmpfile.(owner := locker);
      }
      if forceLock {
        if f.rename { return Failed; }
        lock := Some(tmpfile);
        return Answer(li.(status := LockedByUser));
      }
      if lock.Some? && !f.link {
        li := li.(status := LockedByAnother);
        if f.owner { return Failed; }
        li := li.(user := lock.value.owner);
        if f.comment { return Failed; }
        li := li.(comment := TrimNewlines(lock.value.content));
        return Answer(li);
      }
      if !f.link {
        lock := Some(tmpfile);
      }
      return Answer(LockState(LockedByUser, locker, comment));
    }

    method Release(unlocker: User, forceUnlock: bool, f: Faults) returns (reply: Reply<LockState>)
      modifies this
      ensures Outcome(lock, reply) == UnlockOutcome(old(lock), unlocker, forceUnlock, f)
    {
      var li := NO_STATE;
      if lock.None? {
        return Answer(li.(status := Unlocked));
      }
      if f.owner { return Failed; }
      if unlocker == lock.value.owner || forceUnlock {
        if f.remove { return Failed; }
        lock := None;
        li := li.(status := Unlocked);
      } else {
        li := li.(user := lock.value.owner);
        if f.comment { return Answer(li); }
        li := li.(comment := TrimNewlines(lock.value.content), status := LockedByAnother);
      }
      return Answer(li);
    }
  }

  // ---------------------------------------------------------------- histories

  datatype Step = Step(req: LockRequest, faults: Faults)

  predicate Unforced(steps: seq<Step>) {
    forall i :: 0 <= i < |steps| ==> !steps[i].req.force
  }

  function StateAt(lock: Option<Lock>, steps: seq<Step>, k: nat): Option<Lock>
    requires k <= |steps|
  {
    if k == 0 then lock else Handle(StateAt(lock, steps, k-1), steps[k-1].req, steps[k-1].faults).lock
  }

  function ReplyAt(lock: Option<Lock>, steps: seq<Step>, k: nat): LockState
    requires k < |steps|
  {
    StateOf(Handle(StateAt(lock, steps, k), steps[k].req, steps[k].faults).reply)
  }

  function Holder(lock: Option<Lock>): Option<User> {
    if lock.None? then None else Some(lock.value.owner)
  }

  /** Request k was a lock request answered with the lock. */
  predicate Granted(lock: Option<Lock>, steps: seq<Step>, k: nat)
    requires k < |steps|
  {
    steps[k].req.kind == LockReq && ReplyAt(lock, steps, k).status == LockedByUser
  }

  /** Request k created the lock file. */
  predicate Created(lock: Option<Lock>, steps: seq<Step>, k: nat)
    requires k < |steps|
  {
    StateAt(lock, steps, k).None? && StateAt(lock, steps, k+1).Some?
  }

  predicate ReleasedBy(lock: Option<Lock>, steps: seq<Step>, k: nat, u: User)
    requires k < |steps|
  {
    && steps[k].req.kind == UnlockReq && steps[k].req.user == u
    && Holder(StateAt(lock, steps, k)) == Some(u) && StateAt(lock, steps, k+1).None?
  }

  /** Without force, the lock file changes only by a granted lock request on a
      free node or by its holder's unlock; it never passes from one user to another. */
  lemma HolderChanges(lock: Option<Lock>, steps: seq<Step>, k: nat)
    requires Unforced(steps) && k < |steps| && StateAt(lock, steps, k+1) != StateAt(lock, steps, k)
    ensures (Created(lock, steps, k) && Granted(lock, steps, k)
             && Holder(StateAt(lock, steps, k+1))
                == Some(if steps[k].faults.chown then DAEMON_USER else steps[k].req.user))
            || (StateAt(lock, steps, k).Some?
                && ReleasedBy(lock, steps, k, StateAt(lock, steps, k).value.owner)
                && ReplyAt(lock, steps, k).status == Unlocked)
  {
  }

  /** A grant means the lock file was created by this very request exactly when
      linking it did not fail; creation is always reported; and a grant after
      a failed link changes nothing, whoever holds the lock. */
  lemma GrantExact(lock: Option<Lock>, steps: seq<Step>, k: nat)
    requires Unforced(steps) && k < |steps|
    ensures Created(lock, steps, k) ==> Granted(lock, steps, k)
    ensures Granted(lock, steps, k) ==> (Created(lock, steps, k) <==> !steps[k].faults.link)
    ensures Granted(lock, steps, k) && steps[k].faults.link ==> StateAt(lock, steps, k+1) == StateAt(lock, steps, k)
    ensures steps[k].req.kind == LockReq ==> ReplyAt(lock, steps, k).status != Unlocked
  {
  }

  /** A holder keeps the lock until releasing it. */
  lemma {:induction false} HolderKeeps(lock: Option<Lock>, steps: seq<Step>, i: nat, j: nat, u: User)
    requires Unforced(steps) && i <= j <= |steps|
    requires Holder(StateAt(lock, steps, i)) == Some(u)
    requires forall k :: i <= k < j ==> !ReleasedBy(lock, steps, k, u)
    ensures StateAt(lock, steps, j) == StateAt(lock, steps, i)
    decreases j
  {
    if i < j {
      HolderKeeps(lock, steps, i, j-1, u);
      assert !ReleasedBy(lock, steps, j-1, u) && !steps[j-1].req.force;
    }
  }

  /** Mutual exclusion over every run: between two grants that created the lock
      lies a release by the first holder. */
  lemma GrantsAlternate(lock: Option<Lock>, steps: seq<Step>, i: nat, j: nat) returns (k: nat)
    requires Unforced(steps) && i < j < |steps|
    requires Created(lock, steps, i) && Created(lock, steps, j)
    ensures i < k < j && ReleasedBy(lock, steps, k, StateAt(lock, steps, i+1).value.owner)
  {
    var u := StateAt(lock, steps, i+1).value.owner;
    if forall n :: i < n < j ==> !ReleasedBy(lock, steps, n, u) {
      HolderKeeps(lock, steps, i+1, j, u);
    }
    k :| i < k < j && ReleasedBy(lock, steps, k, u);
  }

  /** Two users are told that they have the lock, with no release in between,
      as soon as linking fails for the second one. */
  lemma FailedLinkGrantsTwice(u: User, w: User)
    ensures var steps := [Step(LockRequest(LockReq, u, "", false), NO_FAULTS),
                          Step(LockRequest(LockReq, w, "", false), NO_FAULTS.(link := true))];
            && Unforced(steps) && Granted(None, steps, 0) && Granted(None, steps, 1)
            && Holder(StateAt(None, steps, 2)) == Some(u)
  {
    var steps := [Step(LockRequest(LockReq, u, "", false), NO_FAULTS),
                  Step(LockRequest(LockReq, w, "", false), NO_FAULTS.(link := true))];
    assert StateAt(None, steps, 1) == Some(Lock(u, FileContent("")));
  }

  /** Locking is not re-entrant: the holder's own second request is answered
      like that of a stranger, and a stranger's unlock changes nothing; only
      a failed link makes rizzod answer otherwise. */
  lemma NotReentrant(lock: Lock, req: LockRequest, f: Faults)
    requires !req.force && req.kind != StateReq && (req.kind == LockReq || req.user != lock.owner)
    ensures Handle(Some(lock), req, f).lock == Some(lock)
    ensures StateOf(Handle(Some(lock), req, f).reply).status in {LockedByAnother, LockUnknown}
            || (req.kind == LockReq && f.link)
  {
  }
}
