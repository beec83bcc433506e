/** Cleaning dirty nodes: a node whose applied code was dirty is nooped with its
    dirty commit and the commits after it, each once, until one changes nothing;
    that one is applied for real. */
module DirtyClean {
  import opened Wrappers
  import opened CommitGraph
  import opened LockFile
  import opened NoopReports
  import opened Fleets
  import opened NodeSets

  const CHILD_THRESHOLD: nat := 10

  /** The commits a dirty node was nooped with while it stayed dirty at one commit. */
  class DirtyNoops {
    const rev: Oid
    var commitIds: set<Oid>
    var dirtyNoop: Option<Report>
    /** Every noop that was answered, in order. */
    ghost var nooped: seq<Oid>

    constructor (rev: Oid)
      ensures this.rev == rev && commitIds == {} && dirtyNoop == None && nooped == [] && Valid()
    {
      this.rev := rev;
      commitIds, dirtyNoop, nooped := {}, None, [];
    }

    /** No commit was answered twice, and all that were are remembered. */
    ghost predicate Valid()
      reads this`commitIds, this`nooped
    {
      Remembers(commitIds, nooped)
    }
  }

  ghost predicate Remembers(commitIds: set<Oid>, nooped: seq<Oid>) {
    (forall c :: c in commitIds <==> c in nooped) && Distinct(nooped)
  }

  /** What libgit2 makes of the branch: its head, the commit ten before it, and
      the order in which it walks a range. */
  datatype Branch = Branch(head: Reply<Oid>, tenBack: Reply<Oid>, walk: (Oid, Oid) -> seq<Oid>)
  {
    ghost predicate Valid(repo: Repo) {
      && (head.Answer? ==> head.value in repo.parents) && (tenBack.Answer? ==> tenBack.value in repo.parents)
      && forall b, e :: b in repo.parents && e in repo.parents ==> IsWalk(repo, b, e, walk(b, e))
    }
  }

  function FirstOf(ids: seq<Oid>): seq<Oid> {
    if |ids| >= CHILD_THRESHOLD then ids[..CHILD_THRESHOLD] else ids
  }

  /** The commits a node is cleaned with: its own and those after it or, when it
      is beside the branch, the last commits of the branch. */
  function Considered(repo: Repo, lastApply: Oid, branch: Branch): (r: Reply<seq<Oid>>)
    requires branch.head.Answer? ==> branch.head.value in repo.parents
    requires lastApply != ZERO_OID
  {
    if branch.head.Failed? then Failed
    else if CommitInNodeLineage(repo, branch.head.value, lastApply) then
      Answer(FirstOf([lastApply] + branch.walk(lastApply, branch.head.value)))
    else if branch.tenBack.Failed? then Failed
    else Answer(FirstOf(branch.walk(branch.tenBack.value, branch.head.value)))
  }

  /** The list, whatever computes it: ten different commits at most. In the lineage
      of the branch it starts with the last apply, and goes on with every commit
      from there to the head as they are walked, unless it is full; beside the
      branch the same holds of the commits since ten before the head. */
  lemma ConsideredFacts(repo: Repo, lastApply: Oid, branch: Branch)
    requires branch.Valid(repo) && lastApply != ZERO_OID
    ensures var r := Considered(repo, lastApply, branch);
            && (branch.head.Failed? ==> r.Failed?)
            && (branch.head.Answer? ==>
                  var head := branch.head.value;
                  if lastApply in repo.parents
                     && (head in History(repo, lastApply) || lastApply in History(repo, head)) then
                    && r.Answer? && |r.value| > 0 && r.value[0] == lastApply
                    && r.value <= [lastApply] + branch.walk(lastApply, head)
                    && (forall c :: c in r.value ==> c == lastApply || c in Range(repo, lastApply, head))
                    && (|r.value| < 10 ==> forall c :: c in Range(repo, lastApply, head) ==> c in r.value)
                  else if branch.tenBack.Failed? then r.Failed?
                  else
                    var back := branch.tenBack.value;
                    && r.Answer? && r.value <= branch.walk(back, head)
                    && (forall c :: c in r.value ==> c in Range(repo, back, head))
                    && (|r.value| < 10 ==> forall c :: c in Range(repo, back, head) ==> c in r.value))
            && (r.Answer? ==> |r.value| <= 10 && Distinct(r.value))
  {
    hide CommitInNodeLineage;
    if branch.head.Answer? {
      var head := branch.head.value;
      var lineage := CommitInNodeLineage(repo, head, lastApply);
      if lineage || branch.tenBack.Answer? {
        var from := if lineage then lastApply else branch.tenBack.value;
        var walk := branch.walk(from, head);
        assert IsWalk(repo, from, head, walk) && lastApply !in (if lineage then walk else []);
        assert Distinct(walk) && Distinct(if lineage then [lastApply] + walk else walk);
        forall c ensures c in walk <==> c in Range(repo, from, head) {
        }
      }
    }
  }

  // ------------------------------------------------------------------ one commit

  /** The calls made to try one commit: a noop and, when it lists no resource,
      whatever its status, a real apply. */
  ghost predicate Tried(log0: seq<ApplyCall>, log1: seq<ApplyCall>, host: Host, id: Oid, nooped: bool, clean: bool) {
    && |log0| < |log1| <= |log0| + 2 && log0 <= log1
    && (forall i :: |log0| <= i < |log1| ==> log1[i].host == host && log1[i].rev == id && log1[i].underGrant)
    && var e := log1[|log0|];
       && e.noop && (nooped <==> e.reply.Done?)
       && (|log1| == |log0| + 2 <==> NoChanges(e))
       && (clean <==> |log1| == |log0| + 2 && Succeeded(log1[|log0| + 1]))
       && (|log1| == |log0| + 2 ==> !log1[|log0| + 1].noop)
  }

  /** An answered noop that lists no resource. */
  ghost predicate NoChanges(e: ApplyCall) {
    e.noop && e.reply.Done? && e.reply.report.resources == map[]
  }

  /** The last call was a real apply that left the node clean at its revision. */
  ghost predicate CleanedTo(e: ApplyCall, version: ConfVersion) {
    !e.noop && Succeeded(e) && (Honest(e) ==> version == CleanVersion(e.rev))
  }

  method TryCommit(dn: DirtyNoops, fleet: Fleet, host: Host, id: Oid, first: bool) returns (clean: bool,
                                                                                            ghost nooped: bool)
    requires host in fleet.granted && id !in dn.commitIds && dn.Valid()
    modifies dn, fleet`versions, fleet`log
    ensures dn.Valid() && dn.nooped == old(dn.nooped) + if nooped then [id] else []
    ensures Tried(old(fleet.log), fleet.log, host, id, nooped, clean)
    ensures clean ==> CleanedTo(fleet.log[|fleet.log|-1], VersionAt(fleet.versions, host))
    ensures |fleet.log| == |old(fleet.log)| + 2 <==>
            nooped && fleet.log[|old(fleet.log)|].reply.report.resources == map[]
    ensures nooped <==> fleet.log[|old(fleet.log)|].reply.Done?
    ensures clean <==> |fleet.log| == |old(fleet.log)| + 2 && fleet.log[|old(fleet.log)| + 1].reply.Done?
                       && !fleet.log[|old(fleet.log)| + 1].reply.report.failed
    ensures first && nooped ==>
              dn.dirtyNoop.Some? && dn.dirtyNoop.value.resources == fleet.log[|old(fleet.log)|].reply.report.resources
    ensures !(first && nooped) ==> dn.dirtyNoop == old(dn.dirtyNoop)
  {
    ghost var log0 := fleet.log;
    var reply := fleet.PuppetApply(host, id, true);
    if reply.ApplyError? {
      return false, false;
    }
    var newRprt := if reply.report.failed then reply.report.(host := host) else reply.report;
    if first {
      dn.dirtyNoop := Some(newRprt);
    }
    RememberMore(dn.commitIds, dn.nooped, id);
    dn.commitIds := dn.commitIds + {id};
    dn.nooped := dn.nooped + [id];
    if newRprt.resources == map[] {
      var applied := fleet.PuppetApply(host, id, false);
      if applied.Done? && !applied.report.failed {
        return true, true;
      }
    }
    return false, true;
  }

  lemma RememberMore(commitIds: set<Oid>, nooped: seq<Oid>, id: Oid)
    requires Remembers(commitIds, nooped) && id !in commitIds
    ensures Remembers(commitIds + {id}, nooped + [id])
  {
  }

  // -------------------------------------------------------------------- one node

  function NotNooped(commitIds: set<Oid>): Oid -> bool {
    (c: Oid) => c !in commitIds
  }

  lemma {:induction false} SelectDistinct(ids: seq<Oid>, keep: Oid -> bool)
    requires Distinct(ids)
    ensures Distinct(Select(ids, keep))
  {
    if ids != [] {
      SelectDistinct(ids[1..], keep);
      SelectMember(ids[1..], keep, ids[0]);
    }
  }

  method CommitsToNoop(considered: seq<Oid>, commitIds: set<Oid>) returns (ids: seq<Oid>)
    ensures ids == Select(considered, NotNooped(commitIds))
  {
    ids := [];
    for i := 0 to |considered|
      invariant ids == Select(considered[..i], NotNooped(commitIds))
    {
      SelectAppend(considered[..i], considered[i], NotNooped(commitIds));
      assert considered[..i+1] == considered[..i] + [considered[i]];
      if considered[i] !in commitIds {
        ids := ids + [considered[i]];
      }
    }
    assert considered[..|considered|] == considered;
  }

  /** Calls to clean one node: noops of some commits, and real applies that
      follow a noop of the same commit without changes. */
  ghost predicate CleanCalls(log: seq<ApplyCall>, from: nat, host: Host, ids: seq<Oid>) {
    && from <= |log|
    && forall i :: from <= i < |log| ==>
                     && log[i].host == host && log[i].underGrant && log[i].rev in ids
                     && (!log[i].noop ==> i > from && AfterCleanNoop(log, i))
  }

  /** The call before was a noop of the same commit that listed no resource. */
  ghost predicate AfterCleanNoop(log: seq<ApplyCall>, i: nat)
    requires i < |log|
  {
    i > 0 && NoChanges(log[i-1]) && log[i-1].rev == log[i].rev
  }

  ghost predicate Applied(log: seq<ApplyCall>, from: nat) {
    exists i :: from <= i < |log| && !log[i].noop && Succeeded(log[i])
  }

  ghost predicate NoopMade(log: seq<ApplyCall>, from: nat, c: Oid) {
    exists i :: from <= i < |log| && log[i].noop && log[i].rev == c
  }

  /** Every one of the commits was nooped. */
  ghost predicate AllMade(log: seq<ApplyCall>, from: nat, ids: seq<Oid>) {
    forall c :: c in ids ==> NoopMade(log, from, c)
  }

  /** The commits with which the node was nooped and answered. */
  ghost function AnsweredIn(log: seq<ApplyCall>, from: nat, host: Host): set<Oid> {
    set i | from <= i < |log| && log[i].host == host && log[i].noop && log[i].reply.Done? :: log[i].rev
  }

  /** The commits the memo gained are those that were answered. */
  ghost predicate Gained(nooped0: seq<Oid>, nooped: seq<Oid>, answered: set<Oid>) {
    && (forall c :: c in nooped <==> c in nooped0 || c in answered)
    && forall c :: c in answered ==> c !in nooped0
  }

  lemma GainedStep(nooped0: seq<Oid>, nooped: seq<Oid>, log0: seq<ApplyCall>, log1: seq<ApplyCall>, from: nat,
                   host: Host,
                   id: Oid, answered: bool, clean: bool)
    requires from <= |log0| && Gained(nooped0, nooped, AnsweredIn(log0, from, host)) && nooped0 <= nooped
    requires id !in nooped
    requires Tried(log0, log1, host, id, answered, clean)
    ensures Gained(nooped0, nooped + if answered then [id] else [], AnsweredIn(log1, from, host))
  {
    var a0, a1 := AnsweredIn(log0, from, host), AnsweredIn(log1, from, host);
    forall c ensures c in a1 <==> c in a0 || (answered && c == id) {
      if c in a0 {
        var i :| from <= i < |log0| && log0[i].host == host && log0[i].noop && log0[i].reply.Done? && log0[i].rev == c;
        assert log1[i] == log0[i];
      }
      if answered && c == id {
        assert log1[|log0|].rev == c && log1[|log0|].host == host;
      }
      if c in a1 {
        var i :| from <= i < |log1| && log1[i].host == host && log1[i].noop && log1[i].reply.Done? && log1[i].rev == c;
        assert i < |log0| ==> log0[i] == log1[i];
      }
    }
  }

  lemma AllMadeStep(log0: seq<ApplyCall>, log1: seq<ApplyCall>, from: nat, ids: seq<Oid>, host: Host, id: Oid,
                    nooped: bool, clean: bool)
    requires from <= |log0| && AllMade(log0, from, ids) && Tried(log0, log1, host, id, nooped, clean)
    ensures AllMade(log1, from, ids + [id])
  {
  }

  lemma CleanCallsStep(log0: seq<ApplyCall>, log1: seq<ApplyCall>, from: nat, host: Host, ids: seq<Oid>, id: Oid,
                       nooped: bool, clean: bool)
    requires CleanCalls(log0, from, host, ids) && id in ids && Tried(log0, log1, host, id, nooped, clean)
    requires !Applied(log0, from)
    ensures CleanCalls(log1, from, host, ids) && (clean <==> Applied(log1, from))
  {
  }

  /** A run of the memo: it only grew, by commits of the list that it did not hold. */
  ghost predicate Grew(nooped0: seq<Oid>, nooped: seq<Oid>, ids: seq<Oid>) {
    nooped0 <= nooped && forall i :: |nooped0| <= i < |nooped| ==> nooped[i] in ids
  }

  lemma GrewStep(nooped0: seq<Oid>, nooped: seq<Oid>, ids: seq<Oid>, i: nat, answered: bool)
    requires i < |ids| && Grew(nooped0, nooped, ids[..i])
    ensures Grew(nooped0, nooped + if answered then [ids[i]] else [], ids[..i+1])
  {
  }

  /** The commits left to noop are not remembered. */
  lemma StillNew(considered: seq<Oid>, commitIds0: set<Oid>, nooped0: seq<Oid>, ids: seq<Oid>, i: nat,
                 commitIds: set<Oid>, nooped: seq<Oid>)
    requires Distinct(considered) && ids == Select(considered, NotNooped(commitIds0)) && i < |ids|
    requires Remembers(commitIds0, nooped0) && Remembers(commitIds, nooped) && Grew(nooped0, nooped, ids[..i])
    ensures ids[i] !in commitIds && ids[i] !in nooped && nooped0 <= nooped && ids[i] in considered
  {
    SelectDistinct(considered, NotNooped(commitIds0));
    SelectMember(considered, NotNooped(commitIds0), ids[i]);
    assert forall k :: 0 <= k < |nooped0| ==> nooped0[k] == nooped[k];
  }

  /** Tries the commits in order until one cleans the node. */
  method TryCommits(dn: DirtyNoops, fleet: Fleet, host: Host, considered: seq<Oid>, ids: seq<Oid>) returns (clean: bool)
    requires host in fleet.granted && dn.Valid()
    requires Distinct(considered) && ids == Select(considered, NotNooped(dn.commitIds))
    modifies dn, fleet`versions, fleet`log
    ensures dn.Valid() && Grew(old(dn.nooped), dn.nooped, ids)
    ensures Gained(old(dn.nooped), dn.nooped, AnsweredIn(fleet.log, |old(fleet.log)|, host))
    ensures old(fleet.log) <= fleet.log && CleanCalls(fleet.log, |old(fleet.log)|, host, considered)
    ensures clean <==> Applied(fleet.log, |old(fleet.log)|)
    ensures clean ==> |fleet.log| > 0 && CleanedTo(fleet.log[|fleet.log|-1], VersionAt(fleet.versions, host))
    ensures !clean ==> AllMade(fleet.log, |old(fleet.log)|, ids)
  {
    hide Remembers, Grew, CleanCalls, Applied, Tried, Distinct, AllMade, Gained, AnsweredIn;
    ghost var start, commitIds0, nooped0 := |fleet.log|, dn.commitIds, dn.nooped;
    clean := false;
    TryStart(fleet.log, host, considered, nooped0);
    for i := 0 to |ids|
      invariant dn.Valid() && Grew(nooped0, dn.nooped, ids[..i]) && !clean
      invariant Gained(nooped0, dn.nooped, AnsweredIn(fleet.log, start, host))
      invariant old(fleet.log) <= fleet.log && CleanCalls(fleet.log, start, host, considered)
      invariant !Applied(fleet.log, start) && AllMade(fleet.log, start, ids[..i])
    {
      StillNew(considered, commitIds0, nooped0, ids, i, dn.commitIds, dn.nooped);
      ghost var log1, nooped1 := fleet.log, dn.nooped;
      ghost var nooped;
      clean, nooped := TryCommit(dn, fleet, host, ids[i], i == 0);
      CleanCallsStep(log1, fleet.log, start, host, considered, ids[i], nooped, clean);
      GrewStep(nooped0, nooped1, ids, i, nooped);
      GainedStep(nooped0, nooped1, log1, fleet.log, start, host, ids[i], nooped, clean);
      AllMadeStep(log1, fleet.log, start, ids[..i], host, ids[i], nooped, clean);
      assert ids[..i+1] == ids[..i] + [ids[i]];
      TriedGrows(log1, fleet.log, host, ids[i], nooped, clean);
      if clean {
        GrewAll(nooped0, dn.nooped, ids, i+1);
        break;
      }
    }
    GrewAll(nooped0, dn.nooped, ids, |ids|);
    assert ids[..|ids|] == ids;
  }

  lemma TryStart(log: seq<ApplyCall>, host: Host, considered: seq<Oid>, nooped: seq<Oid>)
    ensures CleanCalls(log, |log|, host, considered) && !Applied(log, |log|) && Grew(nooped, nooped, [])
    ensures AllMade(log, |log|, []) && Gained(nooped, nooped, AnsweredIn(log, |log|, host))
  {
  }

  lemma TriedGrows(log0: seq<ApplyCall>, log1: seq<ApplyCall>, host: Host, id: Oid, nooped: bool, clean: bool)
    requires Tried(log0, log1, host, id, nooped, clean)
    ensures log0 <= log1
  {
  }

  lemma GrewAll(nooped0: seq<Oid>, nooped: seq<Oid>, ids: seq<Oid>, i: nat)
    requires i <= |ids|
    ensures Grew(nooped0, nooped, ids[..i]) ==> Grew(nooped0, nooped, ids)
  {
  }

  datatype CleanError = NoError | NoBranch | NotLocked | Exhausted
  datatype CleanResult = CleanResult(clean: bool, err: CleanError)

  ghost predicate Within(nooped: seq<Oid>, considered: seq<Oid>) {
    forall c :: c in nooped ==> c in considered
  }

  /** Tries the commits considered for a node that it was not nooped with before. */
  method CleanListed(dn: DirtyNoops, fleet: Fleet, host: Host, considered: seq<Oid>, lockMsg: string)
    returns (r: CleanResult)
    requires dn.Valid() && fleet.granted <= fleet.Held() && Distinct(considered) && |considered| <= CHILD_THRESHOLD
    modifies dn, fleet`locks, fleet`disturbed, fleet`granted, fleet`answers, fleet`versions, fleet`log
    ensures !r.err.NoBranch?
    ensures dn.Valid() && Grew(old(dn.nooped), dn.nooped, considered)
    ensures Gained(old(dn.nooped), dn.nooped, AnsweredIn(fleet.log, |old(fleet.log)|, host))
    ensures Within(old(dn.nooped), considered) ==> Within(dn.nooped, considered) && |dn.nooped| <= CHILD_THRESHOLD
    ensures old(fleet.log) <= fleet.log && CleanCalls(fleet.log, |old(fleet.log)|, host, considered)
    ensures r.clean <==> Applied(fleet.log, |old(fleet.log)|)
    ensures r.clean ==> |fleet.log| > 0 && CleanedTo(fleet.log[|fleet.log|-1], VersionAt(fleet.versions, host))
    ensures r.err.Exhausted? <==> |considered| == CHILD_THRESHOLD && forall c :: c in considered ==>
              c in old(dn.commitIds)
    ensures r.err.NotLocked? ==> |fleet.log| == |old(fleet.log)| && !r.clean
    ensures r.err.NotLocked? <==> exists status :: status != LockedByUser && fleet.answers == old(fleet.answers) +
                                                     [LockAnswer(host, fleet.client, LockReq, lockMsg, status)]
    ensures fleet.granted == old(fleet.granted) && fleet.granted <= fleet.Held()
    ensures !r.clean && r.err.NoError? ==>
              forall c :: c in considered ==> c in old(dn.commitIds) || NoopMade(fleet.log, |old(fleet.log)|, c)
  {
    hide AllMade, Grew, CleanCalls, Applied, Within, Select, CleanedTo, Distinct, LockTrace, Gained, NoopMade;
    hide AnsweredIn;
    ghost var nooped0, ids0 := dn.nooped, dn.commitIds;
    NothingTried(fleet.log, host, considered, nooped0);
    var ids := CommitsToNoop(considered, dn.commitIds);
    AllRemembered(considered, dn.commitIds);
    if |ids| == 0 {
      GrewWithin(nooped0, dn, considered);
      return CleanResult(false, if |considered| == CHILD_THRESHOLD then Exhausted else NoError);
    }
    var ls, _ := fleet.RizzoLock(host, LockReq, lockMsg);
    assert fleet.answers[|old(fleet.answers)|] == LockAnswer(host, fleet.client, LockReq, lockMsg, ls.status);
    if ls.status != LockedByUser {
      GrewWithin(nooped0, dn, considered);
      return CleanResult(false, NotLocked);
    }
    var clean := TryCommits(dn, fleet, host, considered, ids);
    GrewSelect(nooped0, dn.nooped, considered, ids0, ids);
    GrewWithin(nooped0, dn, considered);
    if !clean {
      TriedOrKnown(fleet.log, |old(fleet.log)|, considered, ids0, ids);
    }
    var _, _ := fleet.RizzoLock(host, UnlockReq, "");
    return CleanResult(clean, NoError);
  }

  lemma TriedOrKnown(log: seq<ApplyCall>, from: nat, considered: seq<Oid>, commitIds: set<Oid>, ids: seq<Oid>)
    requires ids == Select(considered, NotNooped(commitIds)) && AllMade(log, from, ids)
    ensures forall c :: c in considered ==> c in commitIds || NoopMade(log, from, c)
  {
    hide NoopMade;
    forall c | c in considered && c !in commitIds ensures NoopMade(log, from, c) {
      SelectMember(considered, NotNooped(commitIds), c);
    }
  }

  /** Cleans one node. Noops that were answered are never repeated, and while
      the branch stays the same there are ten of them at most, however often
      the node is tried; `clean` says that the last call really applied a
      commit whose noop listed nothing. The lock is always asked back. */
  method CleanNode(dn: DirtyNoops, fleet: Fleet, repo: Repo, host: Host, lastApply: Oid, branch: Branch,
                   lockMsg: string)
    returns (r: CleanResult, ghost considered: seq<Oid>)
    requires dn.Valid() && branch.Valid(repo) && lastApply != ZERO_OID && fleet.granted <= fleet.Held()
    modifies dn, fleet`locks, fleet`disturbed, fleet`granted, fleet`answers, fleet`versions, fleet`log
    ensures r.err.NoBranch? <==>
            || branch.head.Failed?
            || (branch.tenBack.Failed? && !(lastApply in repo.parents && var head := branch.head.value;
                                            head in History(repo, lastApply) || lastApply in History(repo, head)))
    ensures !r.err.NoBranch? ==> Considered(repo, lastApply, branch) == Answer(considered)
    ensures r.err.NoBranch? ==> considered == []
    ensures dn.Valid() && Grew(old(dn.nooped), dn.nooped, considered)
    ensures Gained(old(dn.nooped), dn.nooped, AnsweredIn(fleet.log, |old(fleet.log)|, host))
    ensures Within(old(dn.nooped), considered) ==> Within(dn.nooped, considered) && |dn.nooped| <= CHILD_THRESHOLD
    ensures old(fleet.log) <= fleet.log && CleanCalls(fleet.log, |old(fleet.log)|, host, considered)
    ensures r.clean <==> Applied(fleet.log, |old(fleet.log)|)
    ensures r.clean ==> |fleet.log| > 0 && CleanedTo(fleet.log[|fleet.log|-1], VersionAt(fleet.versions, host))
    ensures r.err.Exhausted? <==> |considered| == CHILD_THRESHOLD && forall c :: c in considered ==>
              c in old(dn.commitIds)
    ensures fleet.granted == old(fleet.granted) && fleet.granted <= fleet.Held()
    ensures !r.clean && r.err.NoError? ==>
              forall c :: c in considered ==> c in old(dn.commitIds) || NoopMade(fleet.log, |old(fleet.log)|, c)
    ensures !r.clean && r.err.NoError? && branch.head.Answer? && lastApply in repo.parents
            && lastApply in History(repo, branch.head.value) ==>
              && (lastApply in old(dn.commitIds) || NoopMade(fleet.log, |old(fleet.log)|, lastApply))
              && (|considered| < 10 ==> forall c :: c in Range(repo, lastApply, branch.head.value) ==>
                    c in old(dn.commitIds) || NoopMade(fleet.log, |old(fleet.log)|, c))
  {
    hide AllMade, Grew, CleanCalls, Applied, Within, Considered, CleanedTo, Distinct, Gained, NoopMade, AnsweredIn;
    hide History, Range, IsWalk;
    considered := [];
    ConsideredFacts(repo, lastApply, branch);
    var list := Considered(repo, lastApply, branch);
    if list.Failed? {
      NothingTried(fleet.log, host, considered, dn.nooped);
      NothingConsidered(dn);
      return CleanResult(false, NoBranch), considered;
    }
    considered := list.value;
    r := CleanListed(dn, fleet, host, list.value, lockMsg);
  }

  lemma NothingConsidered(dn: DirtyNoops)
    requires dn.Valid()
    ensures Grew(dn.nooped, dn.nooped, [])
    ensures Within(dn.nooped, []) ==> |dn.nooped| <= CHILD_THRESHOLD
  {
    if dn.nooped != [] {
      assert dn.nooped[0] in dn.nooped;
    }
  }

  lemma NothingTried(log: seq<ApplyCall>, host: Host, considered: seq<Oid>, nooped: seq<Oid>)
    ensures CleanCalls(log, |log|, host, considered) && !Applied(log, |log|) && Grew(nooped, nooped, considered)
    ensures Gained(nooped, nooped, AnsweredIn(log, |log|, host))
  {
  }

  lemma AllRemembered(considered: seq<Oid>, commitIds: set<Oid>)
    ensures Select(considered, NotNooped(commitIds)) == [] <==> forall c :: c in considered ==> c in commitIds
  {
  }

  lemma GrewSelect(nooped0: seq<Oid>, nooped: seq<Oid>, considered: seq<Oid>, commitIds: set<Oid>, ids: seq<Oid>)
    requires Grew(nooped0, nooped, ids) && ids == Select(considered, NotNooped(commitIds))
    ensures Grew(nooped0, nooped, considered)
  {
    forall i | |nooped0| <= i < |nooped| ensures nooped[i] in considered {
      SelectMember(considered, NotNooped(commitIds), nooped[i]);
    }
  }

  /** Different commits out of ten are ten at most. */
  lemma GrewWithin(nooped0: seq<Oid>, dn: DirtyNoops, considered: seq<Oid>)
    requires dn.Valid() && Grew(nooped0, dn.nooped, considered) && |considered| <= CHILD_THRESHOLD
    ensures Within(nooped0, considered) ==> Within(dn.nooped, considered) && |dn.nooped| <= CHILD_THRESHOLD
  {
    if Within(nooped0, considered) {
      forall c | c in dn.nooped ensures c in considered {
        var i :| 0 <= i < |dn.nooped| && dn.nooped[i] == c;
        if i < |nooped0| { assert nooped0[i] == c; }
      }
      NoMoreThan(dn.nooped, considered);
    }
  }

  lemma {:induction false} NoMoreThan(ids: seq<Oid>, among: seq<Oid>)
    requires Distinct(ids) && forall c :: c in ids ==> c in among
    ensures |ids| <= |among|
  {
    if ids != [] {
      assert ids[0] in among && forall c :: c in ids[1..] ==> c in ids;
      var k :| 0 <= k < |among| && among[k] == ids[0];
      var others := among[..k] + among[k+1..];
      forall c | c in ids[1..] ensures c in others {
        assert c in among;
        var j :| 0 <= j < |among| && among[j] == c;
        assert c == others[if j < k then j else j - 1];
      }
      NoMoreThan(ids[1..], others);
    }
  }

  // --------------------------------------------------------- the memo over time

  /** What is remembered about a dirty node: at which commit, and which commits were nooped. */
  datatype Memo = Memo(rev: Oid, nooped: set<Oid>)

  /** Before each round: nodes that are not dirty are forgotten, and a node that
      is dirty at another commit starts afresh. */
  function RefreshMemo(memo: Option<Memo>, dirtyAt: Option<Oid>): Option<Memo> {
    match dirtyAt
    case None => None
    case Some(rev) => if memo.Some? && memo.value.rev == rev then memo else Some(Memo(rev, {}))
  }

  function DirtyAt(dirty: map<Host, Oid>, h: Host): Option<Oid> {
    if h in dirty then Some(dirty[h]) else None
  }

  /** What one round makes of the memo of a node: it is refreshed, and gains the
      commits answered, none of which it held. */
  ghost predicate RoundOf(before: Option<Memo>, dirtyAt: Option<Oid>, answered: set<Oid>, after: Option<Memo>) {
    match RefreshMemo(before, dirtyAt)
    case None => answered == {} && after == None
    case Some(m) => answered !! m.nooped && after == Some(m.(nooped := m.nooped + answered))
  }

  class DirtyMemos {
    var noops: map<Host, DirtyNoops>

    constructor ()
      ensures noops == map[] && Valid()
    {
      noops := map[];
    }

    ghost predicate Valid()
      reads this, noops.Values
    {
      (forall h :: h in noops ==> noops[h].Valid()) && Unshared(noops)
    }

    /** What is remembered about each node. */
    ghost function Memos(): map<Host, Memo>
      reads this, noops.Values
    {
      map h | h in noops :: Memo(noops[h].rev, noops[h].commitIds)
    }

    method RenewOne(host: Host, rev: Oid)
      requires Valid()
      modifies this
      ensures Valid() && Memos() == Renewed(old(Memos()), host, rev)
      ensures forall h :: h in noops ==> noops[h] in old(noops).Values || fresh(noops[h])
    {
      if host !in noops || noops[host].rev != rev {
        hide Remembers;
        ghost var memos0 := Memos();
        var dn := new DirtyNoops(rev);
        assert forall h :: h in noops ==> noops[h] != dn;
        assert Memos() == memos0;
        noops := noops[host := dn];
        assert Memos() == memos0[host := Memo(rev, {})];
      }
    }

    /** Drops the memos of nodes that are not dirty any more. */
    method Forget(dirty: map<Host, Oid>)
      requires Valid()
      modifies this
      ensures Valid() && (forall h :: h in noops ==> noops[h] in old(noops).Values)
      ensures Refreshing(old(Memos()), Memos(), dirty, dirty.Keys)
    {
      noops := map h | h in noops && h in dirty :: noops[h];
      forall h | h in dirty ensures MemoOf(Memos(), h) == MemoOf(old(Memos()), h) {
        assert h in noops <==> h in old(noops);
      }
    }

    /** `dirty` are the dirty nodes found by this round, with their commits. */
    method Refresh(dirty: map<Host, Oid>)
      requires Valid()
      modifies this
      ensures Valid() && noops.Keys == dirty.Keys
      ensures forall h :: h in noops ==> noops[h].rev == dirty[h]
      ensures forall h :: h in noops ==> noops[h] in old(noops).Values || fresh(noops[h])
      ensures forall h :: MemoOf(Memos(), h) == RefreshMemo(MemoOf(old(Memos()), h), DirtyAt(dirty, h))
    {
      hide Renewed, Remembers, Refreshing, Unshared, MemoOf;
      ghost var memos0 := Memos();
      Forget(dirty);
      var rest := dirty.Keys;
      while rest != {}
        invariant rest <= dirty.Keys && Valid()
        invariant forall h :: h in noops ==> noops[h] in old(noops).Values || fresh(noops[h])
        invariant Refreshing(memos0, Memos(), dirty, rest)
        decreases |rest|
      {
        var host :| host in rest;
        ghost var memos := Memos();
        RenewOne(host, dirty[host]);
        RefreshStep(memos0, memos, dirty, rest, host);
        rest := rest - {host};
      }
      AllRefreshed(memos0, Memos(), dirty);
      assert noops.Keys == Memos().Keys && forall h :: h in noops ==> Memos()[h].rev == noops[h].rev;
    }

    /** Cleans one of the nodes: its memo gains the commits answered, all of them new to it. */
    method CleanOne(fleet: Fleet, repo: Repo, host: Host, branch: Branch, lockMsg: string)
      requires Valid() && branch.Valid(repo) && fleet.granted <= fleet.Held()
      requires host in noops && noops[host].rev != ZERO_OID
      modifies noops[host], fleet`locks, fleet`disturbed, fleet`granted, fleet`answers, fleet`versions, fleet`log
      ensures Valid() && fleet.granted == old(fleet.granted) && fleet.granted <= fleet.Held()
      ensures old(fleet.log) <= fleet.log && forall i :: |old(fleet.log)| <= i < |fleet.log| ==>
                fleet.log[i].host == host
      ensures MemoGains(old(Memos()), Memos(), host, AnsweredIn(fleet.log, |old(fleet.log)|, host))
    {
      hide CleanedTo, AllMade, Within, Grew, AnsweredIn, Select, Considered, Gained, Remembers;
      var dn := noops[host];
      ghost var ids0, nooped0, memos0 := dn.commitIds, dn.nooped, Memos();
      var _, considered := CleanNode(dn, fleet, repo, host, dn.rev, branch, lockMsg);
      MemoGained(ids0, nooped0, dn.commitIds, dn.nooped, AnsweredIn(fleet.log, |old(fleet.log)|, host));
      assert Memos() == memos0[host := Memo(dn.rev, dn.commitIds)];
    }

    method CleanEach(fleet: Fleet, repo: Repo, branch: Branch, lockMsg: string)
      requires Valid() && branch.Valid(repo) && fleet.granted <= fleet.Held()
      requires forall h :: h in noops ==> noops[h].rev != ZERO_OID
      modifies noops.Values, fleet`locks, fleet`disturbed, fleet`granted, fleet`answers, fleet`versions, fleet`log
      ensures Valid() && fleet.granted == old(fleet.granted) && fleet.granted <= fleet.Held()
      ensures old(fleet.log) <= fleet.log
      ensures Cleaning(old(Memos()), Memos(), fleet.log, |old(fleet.log)|, {})
    {
      hide MemoGains, Cleaning, AnsweredIn, Remembers;
      ghost var memos0, start := Memos(), |fleet.log|;
      CleaningStart(memos0, fleet.log);
      assert noops.Keys == memos0.Keys;
      var rest := noops.Keys;
      while rest != {}
        invariant rest <= noops.Keys && Valid() && old(fleet.log) <= fleet.log
        invariant fleet.granted == old(fleet.granted) && fleet.granted <= fleet.Held()
        invariant Cleaning(memos0, Memos(), fleet.log, start, rest)
        decreases |rest|
      {
        var host :| host in rest;
        ghost var memos, log1 := Memos(), fleet.log;
        CleanOne(fleet, repo, host, branch, lockMsg);
        CleaningStep(memos0, memos, Memos(), log1, fleet.log, start, rest, host);
        rest := rest - {host};
      }
    }

    /** One round of the clean loop, in the mutex. Node by node it is a step of a
        memo over time. */
    method Clean(fleet: Fleet, repo: Repo, dirty: map<Host, Oid>, branch: Branch, lockMsg: string)
      requires Valid() && branch.Valid(repo) && fleet.granted <= fleet.Held()
      requires forall h :: h in dirty ==> dirty[h] != ZERO_OID
      modifies this, noops.Values, fleet`locks, fleet`disturbed, fleet`granted, fleet`answers, fleet`versions, fleet`log
      ensures Valid() && fleet.granted == old(fleet.granted) && fleet.granted <= fleet.Held()
      ensures old(fleet.log) <= fleet.log
      ensures forall h :: RoundOf(MemoOf(old(Memos()), h), DirtyAt(dirty, h),
                                  AnsweredIn(fleet.log, |old(fleet.log)|, h),
                                  MemoOf(Memos(), h))
    {
      hide MemoGains, Cleaning, AnsweredIn, Remembers, RoundOf, MemoOf;
      ghost var memos0, start := Memos(), |fleet.log|;
      Refresh(dirty);
      ghost var memos1 := Memos();
      CleanEach(fleet, repo, branch, lockMsg);
      CleanedAll(memos0, memos1, Memos(), dirty, fleet.log, start);
    }
  }

  lemma MemoGained(commitIds0: set<Oid>, nooped0: seq<Oid>, commitIds: set<Oid>, nooped: seq<Oid>, answered: set<Oid>)
    requires Remembers(commitIds0, nooped0) && Remembers(commitIds, nooped) && Gained(nooped0, nooped, answered)
    ensures answered !! commitIds0 && commitIds == commitIds0 + answered
  {
  }

  ghost predicate MemoGains(memos0: map<Host, Memo>, memos1: map<Host, Memo>, host: Host, answered: set<Oid>) {
    && host in memos0 && answered !! memos0[host].nooped
    && memos1 == memos0[host := memos0[host].(nooped := memos0[host].nooped + answered)]
  }

  /** The memos while the nodes of `rest` are still to be cleaned. */
  ghost predicate Cleaning(memos1: map<Host, Memo>, memos: map<Host, Memo>, log: seq<ApplyCall>, from: nat,
                           rest: set<Host>)
  {
    && from <= |log| && memos.Keys == memos1.Keys
    && (forall h :: h in rest || h !in memos1 ==> AnsweredIn(log, from, h) == {} && MemoOf(memos, h) == MemoOf(memos1,
                                                                                                               h))
    && forall h :: h in memos1 && h !in rest ==>
                     && AnsweredIn(log, from, h) !! memos1[h].nooped
                     && memos[h] == memos1[h].(nooped := memos1[h].nooped + AnsweredIn(log, from, h))
  }

  lemma CleaningStart(memos: map<Host, Memo>, log: seq<ApplyCall>)
    ensures Cleaning(memos, memos, log, |log|, memos.Keys)
  {
  }

  lemma AnsweredOf(log1: seq<ApplyCall>, log2: seq<ApplyCall>, from: nat, host: Host, h: Host)
    requires log1 <= log2 && from <= |log1| && forall i :: |log1| <= i < |log2| ==> log2[i].host == host
    ensures AnsweredIn(log2, from, h)
         == AnsweredIn(log1, from, h) + if h == host then AnsweredIn(log2, |log1|, host) else {}
  {
    forall c | c in AnsweredIn(log1, from, h) ensures c in AnsweredIn(log2, from, h) {
      var i :| from <= i < |log1| && log1[i].host == h && log1[i].noop && log1[i].reply.Done? && log1[i].rev == c;
      assert log2[i] == log1[i];
    }
    forall c | c in AnsweredIn(log2, from, h)
      ensures c in AnsweredIn(log1, from, h) || (h == host && c in AnsweredIn(log2, |log1|, host))
    {
      var i :| from <= i < |log2| && log2[i].host == h && log2[i].noop && log2[i].reply.Done? && log2[i].rev == c;
      assert i < |log1| ==> log1[i] == log2[i];
    }
  }

  lemma CleaningStep(memos1: map<Host, Memo>, memos: map<Host, Memo>, memos2: map<Host, Memo>,
                     log1: seq<ApplyCall>, log2: seq<ApplyCall>, from: nat, rest: set<Host>, host: Host)
    requires Cleaning(memos1, memos, log1, from, rest) && host in rest && rest <= memos1.Keys
    requires log1 <= log2 && forall i :: |log1| <= i < |log2| ==> log2[i].host == host
    requires MemoGains(memos, memos2, host, AnsweredIn(log2, |log1|, host))
    ensures Cleaning(memos1, memos2, log2, from, rest - {host})
    ensures |rest - {host}| < |rest|
  {
    hide AnsweredIn;
    forall h ensures AnsweredIn(log2, from, h)
                  == AnsweredIn(log1, from, h) + if h == host then AnsweredIn(log2, |log1|, host) else {} {
      AnsweredOf(log1, log2, from, host, h);
    }
  }

  lemma CleanedAll(memos0: map<Host, Memo>, memos1: map<Host, Memo>, memos: map<Host, Memo>, dirty: map<Host, Oid>,
                   log: seq<ApplyCall>, from: nat)
    requires Cleaning(memos1, memos, log, from, {})
    requires forall h :: MemoOf(memos1, h) == RefreshMemo(MemoOf(memos0, h), DirtyAt(dirty, h))
    ensures forall h :: RoundOf(MemoOf(memos0, h), DirtyAt(dirty, h), AnsweredIn(log, from, h), MemoOf(memos, h))
  {
    hide AnsweredIn;
  }

  lemma AllRefreshed(memos0: map<Host, Memo>, memos: map<Host, Memo>, dirty: map<Host, Oid>)
    requires Refreshing(memos0, memos, dirty, {})
    ensures memos.Keys == dirty.Keys && forall h :: h in memos ==> memos[h].rev == dirty[h]
    ensures forall h :: MemoOf(memos, h) == RefreshMemo(MemoOf(memos0, h), DirtyAt(dirty, h))
  {
  }

  ghost function MemoOf(memos: map<Host, Memo>, h: Host): Option<Memo> {
    if h in memos then Some(memos[h]) else None
  }

  ghost function Renewed(memos: map<Host, Memo>, host: Host, rev: Oid): map<Host, Memo> {
    if host in memos && memos[host].rev == rev then memos else memos[host := Memo(rev, {})]
  }

  /** The memos while `rest` is still to be refreshed; those of nodes that are not dirty are gone. */
  ghost predicate Refreshing(memos0: map<Host, Memo>, memos: map<Host, Memo>, dirty: map<Host, Oid>, rest: set<Host>) {
    && memos.Keys <= dirty.Keys && dirty.Keys - rest <= memos.Keys
    && forall h :: h in dirty ==>
                     MemoOf(memos, h) == if h in rest then MemoOf(memos0, h)
                                         else RefreshMemo(MemoOf(memos0, h), Some(dirty[h]))
  }

  lemma RefreshStep(memos0: map<Host, Memo>, memos: map<Host, Memo>, dirty: map<Host, Oid>, rest: set<Host>, host: Host)
    requires Refreshing(memos0, memos, dirty, rest) && host in rest && host in dirty
    ensures Refreshing(memos0, Renewed(memos, host, dirty[host]), dirty, rest - {host})
    ensures |rest - {host}| < |rest|
  {
  }

  ghost predicate Unshared(noops: map<Host, DirtyNoops>) {
    forall h, k :: h in noops && k in noops && noops[h] == noops[k] ==> h == k
  }

  /** A round of the clean loop, for one node: where it was dirty, if it was
      found dirty at all, and which noops it answered. */
  datatype Round = Round(dirtyAt: Option<Oid>, answered: set<Oid>)

  /** The memo after the first rounds. */
  function MemoAfter(rounds: seq<Round>, j: nat): Option<Memo>
    requires j <= |rounds|
    decreases j, 0
  {
    if j == 0 then None
    else match MemoAt(rounds, j - 1)
      case None => None
      case Some(m) => Some(m.(nooped := m.nooped + rounds[j-1].answered))
  }

  /** The memo a round works with. */
  function MemoAt(rounds: seq<Round>, j: nat): Option<Memo>
    requires j < |rounds|
    decreases j, 1
  {
    RefreshMemo(MemoAfter(rounds, j), rounds[j].dirtyAt)
  }

  /** From round i to round j the node stayed dirty at one commit. */
  ghost predicate StayedDirty(rounds: seq<Round>, i: nat, j: nat) {
    i <= j < |rounds| && rounds[j].dirtyAt.Some? && forall m :: i <= m <= j ==> rounds[m].dirtyAt == rounds[j].dirtyAt
  }

  /** A round remembers a commit exactly when an earlier round had it answered
      and the node was found dirty at the same commit in every round since. */
  lemma {:induction false} Remembered(rounds: seq<Round>, j: nat, c: Oid)
    requires j < |rounds| && rounds[j].dirtyAt.Some?
    ensures MemoAt(rounds, j).Some? && MemoAt(rounds, j).value.rev == rounds[j].dirtyAt.value
    ensures c in MemoAt(rounds, j).value.nooped
        <==> exists i :: 0 <= i < j && StayedDirty(rounds, i, j) && c in rounds[i].answered
    decreases j
  {
    if j > 0 && rounds[j-1].dirtyAt == rounds[j].dirtyAt {
      Remembered(rounds, j - 1, c);
      forall i | 0 <= i < j ensures StayedDirty(rounds, i, j) <==> StayedDirty(rounds, i, j - 1) {
      }
      assert StayedDirty(rounds, j - 1, j);
    } else if j > 0 {
      forall i | 0 <= i < j ensures !StayedDirty(rounds, i, j) {
        assert rounds[j-1].dirtyAt != rounds[j].dirtyAt;
      }
      if rounds[j-1].dirtyAt.Some? {
        Remembered(rounds, j - 1, c);
      } else {
        assert MemoAt(rounds, j - 1) == None;
      }
    }
  }

  /** Every round noops only what its memo lacks. */
  ghost predicate Fresh(rounds: seq<Round>) {
    forall j :: 0 <= j < |rounds| ==>
                  if rounds[j].dirtyAt.None? then rounds[j].answered == {}
                  else MemoAt(rounds, j).Some? && rounds[j].answered !! MemoAt(rounds, j).value.nooped
  }

  /** A round of the loop goes on with the history of a memo: it noops only what
      the memo lacks, and leaves the memo the next round starts from. */
  lemma RoundGoesOn(rounds: seq<Round>, round: Round, after: Option<Memo>)
    requires Fresh(rounds) && RoundOf(MemoAfter(rounds, |rounds|), round.dirtyAt, round.answered, after)
    ensures Fresh(rounds + [round]) && MemoAfter(rounds + [round], |rounds| + 1) == after
  {
    var all := rounds + [round];
    forall j | 0 <= j <= |rounds| ensures MemoAfter(all, j) == MemoAfter(rounds, j) {
      SameStart(rounds, all, j);
    }
    forall j | 0 <= j < |rounds| ensures MemoAt(all, j) == MemoAt(rounds, j) && all[j] == rounds[j] {
    }
    assert all[|rounds|] == round;
  }

  lemma {:induction false} SameStart(rounds: seq<Round>, more: seq<Round>, j: nat)
    requires rounds <= more && j <= |rounds|
    ensures MemoAfter(more, j) == MemoAfter(rounds, j)
  {
    if j > 0 {
      SameStart(rounds, more, j - 1);
    }
  }

  /** No commit is answered twice while the node stays dirty at one commit. */
  lemma NeverTwice(rounds: seq<Round>, i: nat, j: nat)
    requires Fresh(rounds) && i < j < |rounds| && StayedDirty(rounds, i, j)
    ensures rounds[i].answered !! rounds[j].answered
  {
    forall c | c in rounds[i].answered ensures c !in rounds[j].answered {
      Remembered(rounds, j, c);
    }
  }

  /** A node that is missing from one round, be it only unreachable or locked by
      somebody, is forgotten: its dirty commit is nooped again. */
  lemma ForgottenWhenAway(rev: Oid)
    ensures var here, away := Round(Some(rev), {rev}), Round(None, {});
            Fresh([here, away, here])
  {
    var here, away := Round(Some(rev), {rev}), Round(None, {});
    var rounds := [here, away, here];
    assert MemoAt(rounds, 0) == Some(Memo(rev, {}));
    assert MemoAfter(rounds, 2) == None;
    assert MemoAt(rounds, 2) == Some(Memo(rev, {}));
  }
}
