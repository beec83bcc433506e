/** The nodes as hecklerd sees them: remote calls that may fail before or after
    taking effect, and other users' unforced lock requests between any two of
    them. Handing over and linking lock files is assumed to work. */
module Fleets {
  import opened Wrappers
  import opened CommitGraph
  import opened LockFile
  import opened NoopReports

  datatype ApplyReply = ApplyError | Done(report: Report)

  /** One PuppetApply call: what it asked for, whether the node was then locked
      for the caller, and the configuration version before and after it. */
  datatype ApplyCall = ApplyCall(host: Host, rev: Oid, noop: bool, underGrant: bool,
                                 before: ConfVersion, after: ConfVersion, reply: ApplyReply)

  /** What a node answered: to one lock, unlock or state request of a user, or
      when asked for its last apply. */
  datatype NodeAnswer =
    | LockAnswer(host: Host, user: User, kind: LockReqType, comment: string, status: LockStatus)
    | VersionAnswer(host: Host, version: Reply<ConfVersion>)

  predicate Succeeded(e: ApplyCall) {
    e.reply.Done? && !e.reply.report.failed
  }

  /** Puppet names the host and the revision it was asked about; a failed
      report need not name the host. */
  predicate Named(e: ApplyCall) {
    e.reply.Done? ==>
      e.reply.report.configurationVersion == CleanVersion(e.rev) && (Succeeded(e) ==> e.reply.report.host == e.host)
  }

  /** Besides, it records the last apply a noop was taken against, changes
      nothing in a noop, and remembers a successful apply. */
  predicate Honest(e: ApplyCall) {
    && Named(e) && (e.noop ==> e.after == e.before)
    && (Succeeded(e) ==> if e.noop then e.reply.report.lastApplyVersion == e.before else e.after == CleanVersion(e.rev))
  }

  ghost predicate NamedSince(log: seq<ApplyCall>, from: nat) {
    forall i :: from <= i < |log| ==> Named(log[i])
  }

  ghost predicate HonestSince(log: seq<ApplyCall>, from: nat) {
    forall i :: from <= i < |log| ==> Honest(log[i])
  }

  /** What one answer tells the client about the node, for the sets of nodes it
      holds before (`h0`) and after (`h1`). */
  ghost predicate Replied(kind: LockReqType, status: LockStatus, changed: bool, host: Host, h0: set<Host>,
                          h1: set<Host>) {
    match kind
    case LockReq =>
      && h1 == (if changed then h0 + {host} else h0) && (changed ==> host !in h0)
      && status != Unlocked && (status == LockedByUser ==> changed) && (status == LockedByAnother ==> !changed)
    case UnlockReq =>
      && h1 == (if changed then h0 - {host} else h0) && (changed ==> host in h0)
      && status != LockedByUser && (status == LockedByAnother ==> !changed)
      && (status == Unlocked || status == LockedByAnother ==> host !in h1)
    case StateReq =>
      && !changed && h1 == h0
      && (status == LockedByUser ==> host in h0) && (status == Unlocked || status == LockedByAnother ==> host !in h0)
  }

  /** The same, with the nodes granted to the client before (`g0`) and after (`g1`). */
  ghost predicate OneReply(kind: LockReqType, status: LockStatus, changed: bool, host: Host,
                           h0: set<Host>, h1: set<Host>, g0: set<Host>, g1: set<Host>)
  {
    && Replied(kind, status, changed, host, h0, h1)
    && g1 == match kind
             case LockReq => if status == LockedByUser then g0 + {host} else g0
             case UnlockReq => g0 - {host}
             case StateReq => g0
  }

  /** What the client's requests left of the lock files, when nobody else changed
      any: only the changed ones differ; locking created them, unlocking removed them. */
  ghost predicate LockTrace(kind: LockReqType, changed: set<Host>, before: map<Host, Lock>, after: map<Host, Lock>) {
    && OnlyAt(before, after, changed)
    && (kind == LockReq ==> forall h :: h in changed ==> h !in before)
    && (kind == UnlockReq ==> forall h :: h in changed ==> h !in after)
  }

  lemma NoTrace(kind: LockReqType, locks: map<Host, Lock>)
    ensures LockTrace(kind, {}, locks, locks)
  {
  }

  /** The lock files of all other nodes are the same. */
  ghost predicate OnlyAt(before: map<Host, Lock>, after: map<Host, Lock>, hosts: set<Host>) {
    forall h :: h !in hosts ==> LockAt(before, h) == LockAt(after, h)
  }

  function VersionAt(versions: map<Host, ConfVersion>, h: Host): ConfVersion {
    if h in versions then versions[h] else UnparseableVersion
  }

  /** The nodes whose lock file belongs to the user. */
  ghost function HeldIn(locks: map<Host, Lock>, user: User): set<Host> {
    set h | h in locks && locks[h].owner == user
  }

  /** hecklerd works as root, and leaves failed nodes locked as heckler. */
  function OtherSelf(user: User): User {
    if user == ROOT then HECKLER else ROOT
  }

  /** Nothing of the user's was touched. */
  ghost predicate Untouched(locks0: map<Host, Lock>, locks1: map<Host, Lock>, user: User) {
    && HeldIn(locks1, user) == HeldIn(locks0, user)
    && forall h :: h in HeldIn(locks0, user) ==> locks1[h] == locks0[h]
  }

  lemma OthersRequest(locks: map<Host, Lock>, h: Host, req: LockRequest, f: Faults, user: User)
    requires req.user != user && !req.force && !f.chown && !f.link
    ensures Untouched(locks, WithLock(locks, h, Handle(LockAt(locks, h), req, f).lock), user)
  {
    hide TrimNewlines;
    var after := WithLock(locks, h, Handle(LockAt(locks, h), req, f).lock);
    forall k ensures k in HeldIn(locks, user) <==> k in HeldIn(after, user)
             ensures k in HeldIn(locks, user) ==> after[k] == locks[k] {
    }
  }

  /** One request of the client, delivered: what it changed, and what it was answered. */
  lemma OwnRequest(locks: map<Host, Lock>, h: Host, kind: LockReqType, client: User, comment: string, f: Faults)
    requires !f.chown && !f.link
    ensures var o := Handle(LockAt(locks, h), LockRequest(kind, client, comment, false), f);
            var after, changed := WithLock(locks, h, o.lock), o.lock != LockAt(locks, h);
            && Replied(kind, StateOf(o.reply).status, changed, h, HeldIn(locks, client), HeldIn(after, client))
            && LockTrace(kind, if changed then {h} else {}, locks, after)
            && (kind == LockReq && StateOf(o.reply).status == LockedByAnother ==> h in after)
  {
    hide TrimNewlines;
    var after := WithLock(locks, h, Handle(LockAt(locks, h), LockRequest(kind, client, comment, false), f).lock);
    forall k | k != h ensures k in HeldIn(after, client) <==> k in HeldIn(locks, client) {
    }
  }

  /** A lost answer tells nothing, a lost request does nothing. */
  lemma NoReplied(kind: LockReqType, status: LockStatus, changed: bool, h: Host, h0: set<Host>, h1: set<Host>)
    ensures Replied(kind, status, changed, h, h0, h1) ==> Replied(kind, LockUnknown, changed, h, h0, h1)
    ensures Replied(kind, LockUnknown, false, h, h0, h0)
  {
  }

  class Fleet {
    /** The user hecklerd acts as. */
    var client: User
    var locks: map<Host, Lock>
    var versions: map<Host, ConfVersion>
    /** Nodes whose lock was granted to the client and not asked back since. */
    ghost var granted: set<Host>
    /** Another user changed some lock file. */
    ghost var disturbed: bool
    ghost var log: seq<ApplyCall>
    /** Every answer the client got, in order. */
    ghost var answers: seq<NodeAnswer>

    constructor (client: User, locks: map<Host, Lock>, versions: map<Host, ConfVersion>)
      ensures this.client == client && this.locks == locks && this.versions == versions
      ensures granted == {} && !disturbed && log == [] && answers == []
    {
      this.client, this.locks, this.versions := client, locks, versions;
      granted, disturbed, log, answers := {}, false, [], [];
    }

    /** The nodes whose lock file belongs to the client. */
    ghost function Held(): set<Host>
      reads this`locks, this`client
    {
      HeldIn(locks, client)
    }

    /** The nodes hecklerd holds as its other user. */
    ghost function HeldOtherwise(): set<Host>
      reads this`locks, this`client
    {
      HeldIn(locks, OtherSelf(client))
    }

    function VersionOf(h: Host): ConfVersion
      reads this`versions
    {
      VersionAt(versions, h)
    }

    /** Any number of unforced requests by other users, at any nodes. */
    method Interfere()
      modifies this`locks, this`disturbed
      ensures Untouched(old(locks), locks, client) && Untouched(old(locks), locks, OtherSelf(client))
      ensures !disturbed ==> !old(disturbed) && locks == old(locks)
    {
      var requests: seq<(Host, LockRequest, Faults)> := *;
      for i := 0 to |requests|
        invariant Untouched(old(locks), locks, client) && Untouched(old(locks), locks, OtherSelf(client))
        invariant !disturbed ==> !old(disturbed) && locks == old(locks)
      {
        var (h, req, f) := requests[i];
        if req.user !in {client, OtherSelf(client)} && !req.force && !f.chown && !f.link {
          hide Handle;
          OthersRequest(locks, h, req, f, client);
          OthersRequest(locks, h, req, f, OtherSelf(client));
          var lock := Handle(LockAt(locks, h), req, f).lock;
          if lock != LockAt(locks, h) {
            locks := WithLock(locks, h, lock);
            disturbed := true;
          }
        }
      }
    }

    /** One lock, unlock or state request of the client. `changed` says that it changed the lock file. */
    method RizzoLock(host: Host, kind: LockReqType, comment: string) returns (ls: LockState, ghost changed: bool)
      modifies this`locks, this`disturbed, this`granted, this`answers
      ensures answers == old(answers) + [LockAnswer(host, client, kind, comment, ls.status)]
      ensures !disturbed ==> !old(disturbed)
      ensures !disturbed ==> LockTrace(kind, if changed then {host} else {}, old(locks), locks)
      ensures kind == LockReq && ls.status == LockedByAnother ==> host in locks
      ensures OneReply(kind, ls.status, changed, host, old(Held()), Held(), old(granted), granted)
      ensures HeldOtherwise() == old(HeldOtherwise())
    {
      hide Handle, LockTrace, HeldIn;
      Interfere();
      var f: Faults := *;
      f := f.(chown := false, link := false);
      var delivered, answered: bool := *, *;
      var before := LockAt(locks, host);
      var o := Handle(before, LockRequest(kind, client, comment, false), f);
      OwnRequest(locks, host, kind, client, comment, f);
      OthersRequest(locks, host, LockRequest(kind, client, comment, false), f, OtherSelf(client));
      NoTrace(kind, locks);
      ghost var held := Held();
      changed := delivered && o.lock != before;
      if delivered {
        locks := WithLock(locks, host, o.lock);
      }
      NoReplied(kind, StateOf(o.reply).status, changed, host, held, Held());
      ls := if delivered && answered then StateOf(o.reply) else NO_STATE;
      answers := answers + [LockAnswer(host, client, kind, comment, ls.status)];
      if kind == LockReq && ls.status == LockedByUser {
        granted := granted + {host};
      } else if kind == UnlockReq {
        granted := granted - {host};
      }
    }

    method PuppetLastApply(host: Host) returns (r: Reply<ConfVersion>)
      modifies this`answers
      ensures r.Answer? ==> r.value == VersionOf(host)
      ensures answers == old(answers) + [VersionAnswer(host, r)]
    {
      var fails: bool := *;
      r := if fails then Failed else Answer(VersionOf(host));
      answers := answers + [VersionAnswer(host, r)];
    }

    method PuppetApply(host: Host, rev: Oid, noop: bool) returns (reply: ApplyReply)
      modifies this`versions, this`log
      ensures log == old(log) + [ApplyCall(host, rev, noop, host in granted, old(VersionOf(host)), VersionOf(host),
                                           reply)]
      ensures forall h :: h != host ==> VersionAt(versions, h) == VersionAt(old(versions), h)
    {
      var fails: bool := *;
      var report: Report := *;
      var after: ConfVersion := *;
      reply := if fails then ApplyError else Done(report);
      ghost var before := VersionOf(host);
      versions := versions[host := after];
      log := log + [ApplyCall(host, rev, noop, host in granted, before, after, reply)];
    }
  }
}
