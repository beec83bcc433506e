/** One run of the apply loop: find the common tag, choose the tag to release,
    and roll it out node set by node set. */
module ApplyRun {
  import opened Wrappers
  import opened CommitGraph
  import opened LockFile
  import opened NoopReports
  import opened Fleets
  import opened NodeSets
  import SemVerTags
  import Release

  type Parser = SemVerTags.Parser
  type Answers = Tag -> Release.TagAnswers

  /** `nodeFile` is the Puppet node file that applies to a host, if any. */
  datatype Config = Config(envPrefix: string, setOrder: seq<string>, lockMessage: string,
                           thresholds: Thresholds, approval: Release.Conf, nodeFile: Host -> Option<string>)

  /** The release tags of the environment: those git lists for the prefix, and
      the commits they resolve to. `describe` and `parse` are libgit2 and semver. */
  datatype Tags = Tags(list: seq<Tag>, commits: Release.TagCommits, describe: Oid -> Reply<Tag>, parse: Parser)
  {
    ghost predicate Valid(repo: Repo, prefix: string) {
      && SemVerTags.KeepsOriginal(parse)
      && (forall t :: t in list <==> t in commits)
      && (forall t :: t in commits ==> commits[t] in repo.parents && SemVerTags.TagPrefix(prefix) <= t)
    }

    /** What release safety rests on: versions order the tags by ancestry, and
        a node is described by a tag in its history. */
    ghost predicate Ordered(repo: Repo, prefix: string) {
      && Release.AncestryOrdered(repo, commits, parse, prefix)
      && Release.DescribesHistory(repo, commits, describe)
    }
  }

  // ----------------------------------------------------------- choosing the tag

  method CommonTagNodeSet(ns: NodeSet, fleet: Fleet, repo: Repo, tags: Tags, prefix: string)
    returns (r: Reply<Tag>, ghost at: Host, ghost lastApply: map<Host, Oid>, ghost a: Asked)
    modifies ns`active, ns`errored, ns`lockedByAnother, ns`lastApply
    modifies fleet`locks, fleet`disturbed, fleet`granted, fleet`answers
    ensures fleet.Held() == old(fleet.Held()) && fleet.granted == old(fleet.granted)
    ensures fleet.HeldOtherwise() == old(fleet.HeldOtherwise())
    ensures r.Answer? ==> lastApply.Keys == ns.active && CleanAt(lastApply, fleet.versions, repo.parents.Keys)
    ensures r.Answer? ==> Release.EarliestAt(lastApply, tags.describe, tags.parse, prefix, r.value, at)
    ensures r.Answer? ==> AskedOutcome(a, old(ns.active), old(ns.errored), ns.active, ns.errored, ns.lockedByAnother)
  {
    hide Release.EarliestAt, AskedOutcome, KnownAsTold, StatesTold, StateTalk, Where, Exceeds;
    var known;
    ghost var said, told;
    known, a, said, told := LastApplyNodeSet(ns, fleet, repo.parents.Keys);
    at, lastApply := "", map[];
    if !known {
      return Failed, at, lastApply, a;
    }
    var applied := map h | h in ns.active && h in ns.lastApply :: ns.lastApply[h];
    lastApply := applied;
    var tag;
    tag, at := Release.CommonAncestorTag(applied, tags.describe, tags.parse, prefix);
    if tag.Failed? || tag.value.None? {
      return Failed, at, lastApply, a;
    }
    return Answer(tag.value.value), at, lastApply, a;
  }

  /** Each node reports the given commit as its last apply. */
  ghost predicate CleanAt(lastApply: map<Host, Oid>, versions: map<Host, ConfVersion>, commits: set<Oid>) {
    forall h :: h in lastApply ==> lastApply[h] in commits && VersionAt(versions, h) == CleanVersion(lastApply[h])
  }

  /** What a run found before it applied anything: the common tag of the nodes
      asked (`at` is one that has it), the tags after it in order, and how many
      of them in a row were ready. */
  datatype Choice = Choice(common: Tag, at: Host, lastApply: map<Host, Oid>, nextTags: seq<Tag>, ready: nat)
  {
    ghost predicate Justified(repo: Repo, tags: Tags, prefix: string, conf: Release.Conf, answers: Answers) {
      && Release.EarliestAt(lastApply, tags.describe, tags.parse, prefix, common, at)
      && FirstReady(repo, tags, conf, answers) && Ascending(tags, prefix)
      && (ready < |nextTags| ==> !Release.ReadyAt(repo, conf, tags.commits, nextTags, common, answers, ready))
    }

    ghost predicate FirstReady(repo: Repo, tags: Tags, conf: Release.Conf, answers: Answers) {
      && Resolve(repo, tags) && ready <= |nextTags|
      && forall i :: 0 <= i < ready ==> Release.ReadyAt(repo, conf, tags.commits, nextTags, common, answers, i)
    }

    ghost predicate Ascending(tags: Tags, prefix: string) {
      forall t :: t in nextTags ==> t in tags.commits && Release.NotBelow(tags.parse, prefix, t, common)
    }

    ghost predicate Resolve(repo: Repo, tags: Tags) {
      && Release.Resolves(repo, tags.commits, [common] + nextTags)
      && common in tags.commits && tags.commits[common] in repo.parents
    }
  }

  /** The tags after the prior one. */
  method NextTagsInRepo(repo: Repo, tags: Tags, prefix: string, priorTag: Tag) returns (r: Reply<seq<Tag>>)
    requires tags.Valid(repo, prefix)
    ensures r.Answer? ==> priorTag in tags.list && Release.Resolves(repo, tags.commits, [priorTag] + r.value)
    ensures r.Answer? ==> forall t :: t in r.value ==>
              t in tags.list && Release.NotBelow(tags.parse, prefix, t, priorTag)
    ensures r.Answer? ==> forall t :: t in tags.list && SemVerTags.Below(tags.parse, prefix, priorTag, t) ==>
              t in r.value
    ensures r.Failed? ==> priorTag !in tags.list
                          || exists t :: t in tags.list && SemVerTags.TagToSemver(tags.parse, t, prefix).None?
  {
    ghost var sorted, k;
    r, sorted, k := SemVerTags.NextSemVerTags(tags.parse, priorTag, prefix, tags.list);
    if r.Answer? {
      assert SemVerTags.Environment(tags.parse, tags.list, prefix);
      SemVerTags.SortingSpelling(tags.parse, tags.list, prefix, sorted, sorted[k]);
      forall t | t in r.value ensures t in tags.list && Release.NotBelow(tags.parse, prefix, t, priorTag) {
        SemVerTags.NextTagsSound(tags.parse, tags.list, prefix, sorted, priorTag, k, t);
      }
      forall t | t in tags.list && SemVerTags.Below(tags.parse, prefix, priorTag, t) ensures t in r.value {
        SemVerTags.NextTagsComplete(tags.parse, tags.list, prefix, sorted, priorTag, k, t);
      }
    } else if forall t :: t in tags.list ==> SemVerTags.TagToSemver(tags.parse, t, prefix).Some? {
      if priorTag in tags.list {
        SemVerTags.TagIsNamed(tags.parse, tags.list, prefix, sorted, priorTag);
      }
    }
  }

  method ChooseTag(repo: Repo, tags: Tags, cfg: Config, answers: Answers, common: Tag, ghost at: Host,
                   ghost lastApply: map<Host, Oid>) returns (tag: Option<Tag>, ghost choice: Choice)
    requires tags.Valid(repo, cfg.envPrefix)
    requires Release.EarliestAt(lastApply, tags.describe, tags.parse, cfg.envPrefix, common, at)
    ensures choice.nextTags != [] ==> choice.Justified(repo, tags, cfg.envPrefix, cfg.approval, answers)
    ensures choice.nextTags != [] && choice.ready == |choice.nextTags| ==> tag.Some?
    ensures tag.Some? ==> choice.common == common && choice.lastApply == lastApply && choice.nextTags != []
    ensures tag.Some? ==> 0 < choice.ready <= |choice.nextTags| && tag.value == choice.nextTags[choice.ready-1]
    ensures tag.Some? ==> tag.value in tags.commits && tags.commits[tag.value] in repo.parents
    ensures tag.Some? ==> tag.value == choice.nextTags[|choice.nextTags|-1]
  {
    hide *;
    choice := Choice(common, at, lastApply, [], 0);
    var nextTags := NextTagsInRepo(repo, tags, cfg.envPrefix, common);
    if nextTags.Failed? || |nextTags.value| == 0 {
      return None, choice;
    }
    var greatest;
    ghost var ready;
    greatest, ready := Release.GreatestTagApproved(repo, cfg.approval, tags.commits, nextTags.value, common, answers);
    choice := Choice(common, at, lastApply, nextTags.value, ready);
    ChoiceJustified(repo, tags, cfg.envPrefix, cfg.approval, answers, choice);
    if greatest.Failed? || greatest.value.None? {
      return None, choice;
    }
    assert greatest.value.value in nextTags.value;
    return greatest.value, choice;
  }

  lemma ChoiceJustified(repo: Repo, tags: Tags, prefix: string, conf: Release.Conf, answers: Answers, choice: Choice)
    requires tags.Valid(repo, prefix) && choice.common in tags.list && choice.ready <= |choice.nextTags|
    requires Release.EarliestAt(choice.lastApply, tags.describe, tags.parse, prefix, choice.common, choice.at)
    requires Release.Resolves(repo, tags.commits, [choice.common] + choice.nextTags)
    requires forall t :: t in choice.nextTags ==>
                           t in tags.list && Release.NotBelow(tags.parse, prefix, t, choice.common)
    requires forall i :: 0 <= i < choice.ready ==>
                           Release.ReadyAt(repo, conf, tags.commits, choice.nextTags, choice.common, answers, i)
    requires choice.ready < |choice.nextTags| ==>
               !Release.ReadyAt(repo, conf, tags.commits, choice.nextTags, choice.common, answers, choice.ready)
    ensures choice.Justified(repo, tags, prefix, conf, answers)
    ensures forall t :: t in choice.nextTags ==> t in tags.commits && tags.commits[t] in repo.parents
  {
  }

  // --------------------------------------------------------------- rolling out

  /** A real apply of the revision, under a granted lock, to a node that did not have it. */
  ghost predicate Due(e: ApplyCall, repo: Repo, rev: Oid) {
    && !e.noop && e.rev == rev && e.underGrant
    && e.before.CleanVersion? && e.before.oid in repo.parents && rev !in History(repo, e.before.oid)
  }

  ghost predicate AllDue(log: seq<ApplyCall>, from: nat, repo: Repo, rev: Oid) {
    forall i :: from <= i < |log| ==> Due(log[i], repo, rev)
  }

  /** After a successful apply a node is not applied to again, and runs the revision. */
  ghost predicate Once(log: seq<ApplyCall>, from: nat, rev: Oid, versions: map<Host, ConfVersion>) {
    && (forall i, j :: from <= i < j < |log| && Succeeded(log[i]) ==> log[j].host != log[i].host)
    && (forall i :: from <= i < |log| && Succeeded(log[i]) ==> VersionAt(versions, log[i].host) == CleanVersion(rev))
  }

  /** The calls made for one node set: log[from..to]. */
  datatype SetRun = SetRun(name: string, ok: bool, from: nat, to: nat)

  /** The sets attempted so far: a prefix of the order, each picking up the log
      where the one before left it; all went well, but perhaps the last, and a
      set that did not go well was not applied to. */
  ghost predicate Staged(order: seq<string>, runs: seq<SetRun>, log: seq<ApplyCall>, start: nat) {
    && |runs| <= |order|
    && (forall i :: 0 <= i < |runs| ==> runs[i].name == order[i] && runs[i].from <= runs[i].to)
    && (forall i :: 0 <= i < |runs| - 1 ==> runs[i].ok && runs[i].to == runs[i+1].from)
    && (forall i :: 0 <= i < |runs| && !runs[i].ok ==> runs[i].from == runs[i].to)
    && (if runs == [] then |log| == start else runs[0].from == start && runs[|runs|-1].to == |log|)
  }

  ghost predicate EveryOk(runs: seq<SetRun>) {
    forall i :: 0 <= i < |runs| ==> runs[i].ok
  }

  /** Only a set that did not go well ends the rollout early. */
  ghost predicate StoppedByError(order: seq<string>, runs: seq<SetRun>) {
    |runs| < |order| ==> |runs| > 0 && !runs[|runs|-1].ok
  }

  lemma StagedStep(order: seq<string>, runs: seq<SetRun>, log1: seq<ApplyCall>, log2: seq<ApplyCall>, start: nat,
                   ok: bool)
    requires Staged(order, runs, log1, start) && |runs| < |order| && EveryOk(runs)
    requires |log1| <= |log2| && (!ok ==> |log1| == |log2|)
    ensures Staged(order, runs + [SetRun(order[|runs|], ok, |log1|, |log2|)], log2, start)
    ensures ok ==> EveryOk(runs + [SetRun(order[|runs|], ok, |log1|, |log2|)])
  {
  }

  lemma DueStep(log1: seq<ApplyCall>, log2: seq<ApplyCall>, calls: map<Host, ApplyCall>, start: nat, repo: Repo,
                rev: Oid,
                v1: map<Host, ConfVersion>, v2: map<Host, ConfVersion>)
    requires AllDue(log1, start, repo, rev) && CallsAre(log1, log2, calls)
    requires CallsDue(calls, repo, rev) && CallsTook(calls, rev, false, v1, v2)
    ensures AllDue(log2, start, repo, rev)
  {
  }

  /** A node that runs the revision is beyond it: it is not called again. */
  lemma OnceStep(log1: seq<ApplyCall>, log2: seq<ApplyCall>, calls: map<Host, ApplyCall>, start: nat, repo: Repo,
                 rev: Oid,
                 v1: map<Host, ConfVersion>, v2: map<Host, ConfVersion>)
    requires rev in repo.parents && start <= |log1|
    requires HonestSince(log2, start) && (HonestSince(log1, start) ==> Once(log1, start, rev, v1))
    requires CallsAre(log1, log2, calls) && CallsDue(calls, repo, rev) && CallsTook(calls, rev, false, v1, v2)
    ensures Once(log2, start, rev, v2)
  {
  }

  /** A call since `from` to the node ended in a report of failure. */
  ghost predicate FailedAt(log: seq<ApplyCall>, from: nat, h: Host) {
    exists i :: from <= i < |log| && log[i].host == h && ReportedFailure(log[i])
  }

  /** The failures to report: nodes that failed an apply; missing are at most
      some of the `silent` ones, whose unlock after an apply was not answered. */
  ghost predicate ErrorsFit(log: seq<ApplyCall>, from: nat, errors: set<Host>, silent: set<Host>) {
    && (forall h :: h in errors ==> FailedAt(log, from, h))
    && (forall h :: FailedAt(log, from, h) ==> h in errors || h in silent)
  }

  lemma ErrorsStep(log1: seq<ApplyCall>, log2: seq<ApplyCall>, calls: map<Host, ApplyCall>, from: nat, rev: Oid,
                   v1: map<Host, ConfVersion>, v2: map<Host, ConfVersion>,
                   errors1: set<Host>, silent1: set<Host>, errors: set<Host>, silent: set<Host>)
    requires from <= |log1| && ErrorsFit(log1, from, errors1, silent1)
    requires CallsAre(log1, log2, calls) && CallsTook(calls, rev, false, v1, v2) && errors == Failures(calls) - silent
    ensures ErrorsFit(log2, from, errors1 + errors, silent1 + silent)
  {
    hide ReportedFailure;
    forall h | h in errors1 + errors ensures FailedAt(log2, from, h) {
      if h in errors1 {
        var i :| from <= i < |log1| && log1[i].host == h && ReportedFailure(log1[i]);
        assert log2[i] == log1[i];
      } else {
        var i :| |log1| <= i < |log2| && log2[i] == calls[h];
      }
    }
    forall h | FailedAt(log2, from, h) ensures h in errors1 + errors || h in silent1 + silent {
      var i :| from <= i < |log2| && log2[i].host == h && ReportedFailure(log2[i]);
      if i < |log1| {
        assert log1[i] == log2[i] && FailedAt(log1, from, h);
      } else {
        assert h in Failures(calls);
      }
    }
  }

  /** What the rollout has done so far, from call `start` on. */
  ghost predicate RolledOut(repo: Repo, rev: Oid, log: seq<ApplyCall>, start: nat, versions: map<Host, ConfVersion>,
                            errors: set<Host>, silent: set<Host>)
  {
    && start <= |log| && AllDue(log, start, repo, rev) && ErrorsFit(log, start, errors, silent)
    && (HonestSince(log, start) ==> Once(log, start, rev, versions))
  }

  /** Applies the revision to the sets in order, up to the first that fails. */
  method RollOut(fleet: Fleet, repo: Repo, cfg: Config, rev: Oid)
    returns (applyErrors: set<Host>, ghost runs: seq<SetRun>, ghost silent: set<Host>)
    requires rev in repo.parents && fleet.granted <= fleet.Held()
    modifies fleet`locks, fleet`disturbed, fleet`granted, fleet`answers, fleet`versions, fleet`log
    ensures fleet.granted == old(fleet.granted) && fleet.granted <= fleet.Held()
    ensures fleet.HeldOtherwise() == old(fleet.HeldOtherwise())
    ensures Staged(cfg.setOrder, runs, fleet.log, |old(fleet.log)|) && old(fleet.log) <= fleet.log
    ensures StoppedByError(cfg.setOrder, runs)
    ensures RolledOut(repo, rev, fleet.log, |old(fleet.log)|, fleet.versions, applyErrors, silent)
  {
    hide RolledOut, Staged, EveryOk, Dialed;
    ghost var start := |fleet.log|;
    runs, applyErrors, silent := [], {}, {};
    RollOutStart(cfg.setOrder, fleet.log, repo, rev, fleet.versions);
    for i := 0 to |cfg.setOrder|
      invariant |runs| == i && EveryOk(runs)
      invariant fleet.granted == old(fleet.granted) && fleet.granted <= fleet.Held()
      invariant fleet.HeldOtherwise() == old(fleet.HeldOtherwise())
      invariant Staged(cfg.setOrder, runs, fleet.log, start) && old(fleet.log) <= fleet.log
      invariant RolledOut(repo, rev, fleet.log, start, fleet.versions, applyErrors, silent)
    {
      var perApply := new NodeSet(cfg.thresholds);
      var nodesToDial: Reply<seq<Host>>, dialFails: nat -> bool := *, *;
      var ok := DialNodeSet(perApply, nodesToDial, dialFails);
      if !ok {
        StagedStep(cfg.setOrder, runs, fleet.log, fleet.log, start, false);
        runs := runs + [SetRun(cfg.setOrder[i], false, |fleet.log|, |fleet.log|)];
        break;
      }
      ghost var log1 := fleet.log;
      ok, applyErrors, silent := RollOutSet(perApply, fleet, repo, cfg, rev, start, applyErrors, silent);
      StagedStep(cfg.setOrder, runs, log1, fleet.log, start, ok);
      runs := runs + [SetRun(cfg.setOrder[i], ok, |log1|, |fleet.log|)];
      if !ok {
        break;
      }
    }
  }

  lemma RollOutStart(order: seq<string>, log: seq<ApplyCall>, repo: Repo, rev: Oid, versions: map<Host, ConfVersion>)
    ensures Staged(order, [], log, |log|) && EveryOk([])
    ensures RolledOut(repo, rev, log, |log|, versions, {}, {})
  {
  }

  lemma RolledOutStep(log1: seq<ApplyCall>, log2: seq<ApplyCall>, calls: map<Host, ApplyCall>, start: nat,
                      repo: Repo, rev: Oid, v1: map<Host, ConfVersion>, v2: map<Host, ConfVersion>,
                      errors1: set<Host>, silent1: set<Host>, errors: set<Host>, silent: set<Host>)
    requires rev in repo.parents && RolledOut(repo, rev, log1, start, v1, errors1, silent1)
    requires CallsAre(log1, log2, calls) && CallsDue(calls, repo, rev) && CallsTook(calls, rev, false, v1, v2)
    requires errors == Failures(calls) - silent
    ensures RolledOut(repo, rev, log2, start, v2, errors1 + errors, silent1 + silent)
    ensures log1 <= log2 && (calls == map[] ==> |log1| == |log2|)
  {
    hide CallsAre, CallsDue, CallsTook, AllDue, Once, HonestSince, ErrorsFit, Failures;
    DueStep(log1, log2, calls, start, repo, rev, v1, v2);
    CallsGrow(log1, log2, calls);
    ErrorsStep(log1, log2, calls, start, rev, v1, v2, errors1, silent1, errors, silent);
    if HonestSince(log2, start) {
      HonestBefore(log1, log2, start);
      OnceStep(log1, log2, calls, start, repo, rev, v1, v2);
    }
  }

  lemma HonestBefore(log1: seq<ApplyCall>, log2: seq<ApplyCall>, from: nat)
    requires HonestSince(log2, from) && log1 <= log2
    ensures HonestSince(log1, from)
  {
  }

  /** One set of the rollout, with what it means for the run so far. */
  method RollOutSet(perApply: NodeSet, fleet: Fleet, repo: Repo, cfg: Config, rev: Oid, ghost start: nat,
                    applyErrors0: set<Host>, ghost silent0: set<Host>)
    returns (ok: bool, applyErrors: set<Host>, ghost silent: set<Host>)
    requires rev in repo.parents && fleet.granted <= fleet.Held()
    requires RolledOut(repo, rev, fleet.log, start, fleet.versions, applyErrors0, silent0)
    modifies perApply`active, perApply`errored, perApply`locked, perApply`lockedByAnother, perApply`lastApply
    modifies fleet`locks, fleet`disturbed, fleet`granted, fleet`answers, fleet`versions, fleet`log
    ensures fleet.granted == old(fleet.granted) && fleet.granted <= fleet.Held()
    ensures fleet.HeldOtherwise() == old(fleet.HeldOtherwise())
    ensures old(fleet.log) <= fleet.log && (!ok ==> |fleet.log| == |old(fleet.log)|)
    ensures RolledOut(repo, rev, fleet.log, start, fleet.versions, applyErrors, silent)
  {
    hide CallsAre, CallsDue, CallsTook, Accounts, Failures, RolledOut;
    ghost var log1, v1 := fleet.log, fleet.versions;
    ghost var outcome, calls, unlockFailed;
    var applied, beyondRev, errors;
    ok, applied, beyondRev, errors, outcome, calls, unlockFailed :=
      ApplyNodeSet(perApply, fleet, repo, rev, false, cfg.lockMessage);
    RolledOutStep(log1, fleet.log, calls, start, repo, rev, v1, fleet.versions, applyErrors0, silent0, errors,
                  unlockFailed);
    applyErrors, silent := applyErrors0 + errors, silent0 + unlockFailed;
  }

  lemma CallsGrow(log1: seq<ApplyCall>, log2: seq<ApplyCall>, calls: map<Host, ApplyCall>)
    requires CallsAre(log1, log2, calls)
    ensures log1 <= log2 && (calls == map[] ==> |log1| == |log2|)
  {
    if |log1| < |log2| {
      assert log2[|log1|].host in calls;
    }
  }

  // --------------------------------------------------------- reporting failures

  /** What reporting failures leaves behind. `got`: nodes locked as heckler;
      `lost`: nodes so locked whose answer never arrived; `unreached`: failed
      nodes that were not reached, did not answer or were locked by another. */
  datatype Aftermath = Aftermath(complete: bool, got: set<Host>, lost: set<Host>, unreached: set<Host>)
  {
    /** For the nodes heckler held before and after. */
    ghost predicate Fits(failed: set<Host>, h0: set<Host>, h1: set<Host>) {
      && got + lost <= failed && (got + lost) !! h0 && h1 == h0 + got + lost && got !! unreached
      && (complete ==> failed == got + unreached)
    }
  }

  /** Keeps failed nodes locked, as heckler, with a pointer to the issue. */
  method LockErroredNodes(fleet: Fleet, hosts: set<Host>, msg: string) returns (ghost a: Aftermath)
    requires fleet.client == ROOT && fleet.granted <= fleet.Held()
    modifies fleet`client, fleet`locks, fleet`disturbed, fleet`granted, fleet`answers
    ensures fleet.client == ROOT && fleet.granted == old(fleet.granted) && fleet.Held() == old(fleet.Held())
    ensures a.complete && a.Fits(hosts, old(fleet.HeldOtherwise()), fleet.HeldOtherwise())
    ensures forall h :: h in a.got <==> Told(fleet.answers, |old(fleet.answers)|, LockReq, h, LockedByUser)
  {
    hide Replies.Deals, Aftermath.Fits, LocksStand, RolledBack, Dialed, LockTrace, HeldIn, LockTalk, Where, Told;
    ghost var granted, h0, a0 := fleet.granted, fleet.HeldOtherwise(), fleet.answers;
    fleet.client, fleet.granted := HECKLER, {};
    var ns := new NodeSet(Thresholds(-1, -1));
    var erroredHosts := ListOf(hosts);
    var dialFails: nat -> bool := *;
    ns.dialed, ns.errored := DialNodes(erroredHosts, dialFails);
    ns.active := ns.dialed;
    ghost var reached := ns.active;
    DialedInside(erroredHosts, hosts, reached, ns.errored);
    var ok;
    ghost var r, leak, said;
    ok, r, leak, said := LockNodeSet(ns, fleet, msg);
    AnswersStart(fleet.answers, fleet.client, UnlockReq, "");
    LockUnlockTold(a0, fleet.answers, fleet.answers, fleet.client, msg, said, map[], r);
    a := KeptLocked(hosts, reached, r, leak, h0, fleet.Held(), fleet.granted);
    fleet.client, fleet.granted := ROOT, granted;
  }

  lemma DialedInside(list: seq<Host>, hosts: set<Host>, nodes: set<Host>, errNodes: set<Host>)
    requires Dialed(list, nodes, errNodes) && forall h :: h in list <==> h in hosts
    ensures nodes <= hosts
  {
  }

  lemma KeptLocked(hosts: set<Host>, reached: set<Host>, r: Replies, leak: Leak, h0: set<Host>, h1: set<Host>,
                   g1: set<Host>)
    returns (a: Aftermath)
    requires reached <= hosts && r.Deals(reached) && LocksStand(r, leak, h0, h1, {}, g1)
    ensures a == Aftermath(true, r.locked, leak.lost, hosts - r.locked) && a.Fits(hosts, h0, h1)
  {
    a := Aftermath(true, r.locked, leak.lost, hosts - r.locked);
  }

  /** Reports the failures of a run, one issue for each node file, and keeps the
      failed nodes locked; nothing is locked if a node belongs to no node file. */
  method ReportErrors(fleet: Fleet, cfg: Config, failed: set<Host>) returns (ok: bool, ghost a: Aftermath)
    requires fleet.client == ROOT && fleet.granted <= fleet.Held()
    modifies fleet`client, fleet`locks, fleet`disturbed, fleet`granted, fleet`answers
    ensures fleet.client == ROOT && fleet.granted == old(fleet.granted) && fleet.Held() == old(fleet.Held())
    ensures a.complete == ok && a.Fits(failed, old(fleet.HeldOtherwise()), fleet.HeldOtherwise())
    ensures (exists h :: h in failed && cfg.nodeFile(h).None?) ==> !ok && fleet.locks == old(fleet.locks)
  {
    hide Aftermath.Fits;
    a := Aftermath(false, {}, {}, {});
    ghost var h0 := fleet.HeldOtherwise();
    NothingReported(failed, h0);
    var connected: bool := *;  // to GitHub, and reading the node files
    if !connected || exists h :: h in failed && cfg.nodeFile(h).None? {
      return false, a;
    }
    var nodeFiles := set h | h in failed :: cfg.nodeFile(h);
    ghost var done: set<Host> := {};
    a := Aftermath(true, {}, {}, {});
    while nodeFiles != {}
      invariant fleet.client == ROOT && fleet.granted == old(fleet.granted) && fleet.Held() == old(fleet.Held())
      invariant forall h :: h in failed ==> (h in done <==> cfg.nodeFile(h) !in nodeFiles)
      invariant done <= failed && a.complete && a.Fits(done, h0, fleet.HeldOtherwise())
      decreases |nodeFiles|
    {
      var nodeFile :| nodeFile in nodeFiles;
      nodeFiles := nodeFiles - {nodeFile};
      var created: bool := *;  // unless there is an issue already
      if !created {
        Partly(a, done, failed, h0, fleet.HeldOtherwise());
        a := a.(complete := false);
        return false, a;
      }
      var hosts := set h | h in failed && cfg.nodeFile(h) == nodeFile;
      ghost var h1 := fleet.HeldOtherwise();
      ghost var b := LockErroredNodes(fleet, hosts, "");
      MoreReported(a, b, done, hosts, h0, h1, fleet.HeldOtherwise());
      a := Aftermath(true, a.got + b.got, a.lost + b.lost, a.unreached + b.unreached);
      done := done + hosts;
    }
    assert done == failed;
    return true, a;
  }

  lemma NothingReported(failed: set<Host>, h: set<Host>)
    ensures Aftermath(false, {}, {}, {}).Fits(failed, h, h) && Aftermath(true, {}, {}, {}).Fits({}, h, h)
  {
  }

  lemma Partly(a: Aftermath, done: set<Host>, failed: set<Host>, h0: set<Host>, h1: set<Host>)
    requires a.Fits(done, h0, h1) && done <= failed
    ensures a.(complete := false).Fits(failed, h0, h1)
  {
  }

  lemma MoreReported(a: Aftermath, b: Aftermath, done: set<Host>, hosts: set<Host>,
                     h0: set<Host>, h1: set<Host>, h2: set<Host>)
    requires a.Fits(done, h0, h1) && b.Fits(hosts, h1, h2) && a.complete && b.complete && done !! hosts
    ensures Aftermath(true, a.got + b.got, a.lost + b.lost, a.unreached + b.unreached).Fits(done + hosts, h0, h2)
  {
    var c := Aftermath(true, a.got + b.got, a.lost + b.lost, a.unreached + b.unreached);
    forall h ensures h in h2 <==> h in h0 || h in c.got || h in c.lost
             ensures h in c.got || h in c.lost ==> h !in h0 && (h in done || h in hosts)
             ensures h in done || h in hosts <==> h in c.got || h in c.unreached
             ensures !(h in c.got && h in c.unreached) {
      assert h in h1 <==> h in h0 || h in a.got || h in a.lost;
      assert h in a.got + a.lost ==> h in done && h !in h0;
      assert h in b.got + b.lost ==> h in hosts && h !in h1;
    }
  }

  // ------------------------------------------------------------ release safety

  /** The run found the commit approved. */
  ghost predicate FoundApproved(repo: Repo, tags: Tags, conf: Release.Conf, answers: Answers, choice: Choice, c: Oid)
    requires choice.Resolve(repo, tags) && choice.ready <= |choice.nextTags|
  {
    Release.Vouched(repo, conf, tags.commits, choice.nextTags, choice.common, answers, choice.ready, c)
  }

  /** Release safety: what the released tag brings to a node that was asked for
      its last apply, every commit of it, the run found approved. */
  lemma NothingUnapproved(repo: Repo, tags: Tags, prefix: string, conf: Release.Conf, answers: Answers,
                          choice: Choice, rev: Oid, h: Host, c: Oid)
    requires tags.Valid(repo, prefix) && tags.Ordered(repo, prefix)
    requires Release.EarliestAt(choice.lastApply, tags.describe, tags.parse, prefix, choice.common, choice.at)
    requires choice.FirstReady(repo, tags, conf, answers) && choice.ready > 0
    requires choice.nextTags[choice.ready-1] in tags.commits
    requires rev == tags.commits[choice.nextTags[choice.ready-1]]
    requires h in choice.lastApply && choice.lastApply[h] in repo.parents
    requires choice.lastApply[choice.at] in repo.parents
    requires c in Range(repo, choice.lastApply[h], rev)
    ensures FoundApproved(repo, tags, conf, answers, choice, c)
    ensures exists t :: t in choice.nextTags
                        && answers(t).evidence(c).issue == Answer(Some(Release.Issue(Some(t))))
  {
    Release.CommonTagInHistory(repo, tags.commits, tags.describe, tags.parse, prefix, choice.lastApply,
                               choice.common, choice.at, h);
    Release.ReleaseSafety(repo, conf, tags.commits, choice.nextTags, choice.common, answers, choice.ready,
                          choice.lastApply[h], c);
    var i :| 0 <= i < choice.ready
             && Release.VouchedAt(repo, conf, tags.commits, choice.nextTags, choice.common, answers, i, c);
    Release.ClearedIsSettled(answers(choice.nextTags[i]).evidence(c), choice.nextTags[i], conf);
  }

  lemma CommonBelowNext(repo: Repo, tags: Tags, prefix: string, choice: Choice)
    requires tags.Valid(repo, prefix) && tags.Ordered(repo, prefix)
    requires choice.Resolve(repo, tags) && choice.Ascending(tags, prefix)
    ensures forall t :: t in choice.nextTags ==>
                          t in tags.commits && tags.commits[t] in repo.parents
                          && tags.commits[choice.common] in History(repo, tags.commits[t])
  {
  }

  /** For each apply call of the run, to any node: all it brings was found
      approved exactly when the node had the common tag before the call. */
  lemma ApprovedExactly(repo: Repo, tags: Tags, prefix: string, conf: Release.Conf, answers: Answers,
                        choice: Choice, e: ApplyCall)
    requires tags.Valid(repo, prefix) && tags.Ordered(repo, prefix)
    requires choice.FirstReady(repo, tags, conf, answers) && choice.Ascending(tags, prefix) && choice.ready > 0
    requires choice.nextTags[choice.ready-1] in tags.commits
    requires Due(e, repo, tags.commits[choice.nextTags[choice.ready-1]])
    ensures (forall c :: c in Range(repo, e.before.oid, e.rev) ==> FoundApproved(repo, tags, conf, answers, choice, c))
        <==> tags.commits[choice.common] in History(repo, e.before.oid)
  {
    hide Release.Vouched, Release.ReadyAt, Release.EarliestAt, Release.NotBelow, Release.AncestryOrdered;
    CommonBelowNext(repo, tags, prefix, choice);
    var base, rev, had := tags.commits[choice.common], choice.nextTags[choice.ready-1], e.before.oid;
    assert rev in choice.nextTags;
    if base in History(repo, had) {
      forall c | c in Range(repo, had, e.rev) ensures FoundApproved(repo, tags, conf, answers, choice, c) {
        Release.ReleaseSafety(repo, conf, tags.commits, choice.nextTags, choice.common, answers, choice.ready, had, c);
      }
    } else {
      assert base in Range(repo, had, e.rev);
      if FoundApproved(repo, tags, conf, answers, choice, base) {
        Release.VouchedIsNew(repo, conf, tags.commits, choice.nextTags, choice.common, answers, choice.ready, base);
      }
    }
  }

  /** A call made by the run: every commit it brings to its node was found
      approved if and only if the node had the common tag. */
  ghost predicate CallSafe(repo: Repo, tags: Tags, conf: Release.Conf, answers: Answers, choice: Choice, e: ApplyCall) {
    && choice.Resolve(repo, tags) && choice.ready <= |choice.nextTags|
    && e.before.CleanVersion? && e.before.oid in repo.parents && e.rev in repo.parents
    && ((forall c :: c in Range(repo, e.before.oid, e.rev) ==> FoundApproved(repo, tags, conf, answers, choice, c))
        <==> tags.commits[choice.common] in History(repo, e.before.oid))
  }

  lemma AllSafe(repo: Repo, tags: Tags, cfg: Config, answers: Answers, choice: Choice, released: Tag,
                versions0: map<Host, ConfVersion>, log0: seq<ApplyCall>, log1: seq<ApplyCall>,
                versions: map<Host, ConfVersion>, applyErrors: set<Host>, silent: set<Host>)
    requires tags.Valid(repo, cfg.envPrefix) && tags.Ordered(repo, cfg.envPrefix)
    requires WellChosen(repo, tags, cfg, answers, choice, released, versions0)
    requires RolledOut(repo, tags.commits[released], log1, |log0|, versions, applyErrors, silent)
    ensures forall i :: |log0| <= i < |log1| ==> CallSafe(repo, tags, cfg.approval, answers, choice, log1[i])
  {
    hide Release.EarliestAt, Release.ReadyAt, Release.Vouched, Once, HonestSince, ErrorsFit, CleanAt;
    hide Release.AncestryOrdered, Release.DescribesHistory, Release.NotBelow;
    forall i | |log0| <= i < |log1| ensures CallSafe(repo, tags, cfg.approval, answers, choice, log1[i]) {
      ApprovedExactly(repo, tags, cfg.envPrefix, cfg.approval, answers, choice, log1[i]);
    }
  }

  // ------------------------------------------------------------- the whole run

  /** What a run that released a revision did to the nodes. */
  ghost predicate Rollout(repo: Repo, order: seq<string>, rev: Oid, runs: seq<SetRun>, log0: seq<ApplyCall>,
                          log1: seq<ApplyCall>, versions: map<Host, ConfVersion>,
                          applyErrors: set<Host>, silent: set<Host>)
  {
    && log0 <= log1 && Staged(order, runs, log1, |log0|) && StoppedByError(order, runs)
    && RolledOut(repo, rev, log1, |log0|, versions, applyErrors, silent)
  }

  /** The tag was chosen for good reasons, from what the nodes reported. */
  ghost predicate WellChosen(repo: Repo, tags: Tags, cfg: Config, answers: Answers, choice: Choice, released: Tag,
                             versions: map<Host, ConfVersion>)
  {
    && choice.Justified(repo, tags, cfg.envPrefix, cfg.approval, answers)
    && CleanAt(choice.lastApply, versions, repo.parents.Keys)
    && choice.ready > 0 && released == choice.nextTags[choice.ready-1]
    && released in tags.commits && tags.commits[released] in repo.parents
  }

  /** A run of the apply loop, within the semaphore and the mutex. Root's locks
      are all asked back; heckler ends up holding only nodes it held before and
      nodes that failed an apply of this run. When reporting went through, the
      failed nodes not held so were unreached, or `silent`: their unlock after
      the apply was not answered. */
  method Apply(fleet: Fleet, repo: Repo, tags: Tags, cfg: Config, answers: Answers)
    returns (released: Option<Tag>, ghost choice: Choice, ghost runs: seq<SetRun>, ghost applyErrors: set<Host>,
             ghost silent: set<Host>, ghost after: Aftermath)
    requires tags.Valid(repo, cfg.envPrefix) && fleet.client == ROOT && fleet.granted <= fleet.Held()
    modifies fleet`client, fleet`locks, fleet`disturbed, fleet`granted, fleet`answers, fleet`versions, fleet`log
    ensures fleet.client == ROOT && fleet.granted == old(fleet.granted) && fleet.granted <= fleet.Held()
    ensures choice.nextTags != [] && choice.ready == |choice.nextTags| ==> released.Some?
    ensures released.None? ==> fleet.log == old(fleet.log) && fleet.HeldOtherwise() == old(fleet.HeldOtherwise())
    ensures released.Some? ==> WellChosen(repo, tags, cfg, answers, choice, released.value, old(fleet.versions))
    ensures released.Some? ==>
              Rollout(repo, cfg.setOrder, tags.commits[released.value], runs, old(fleet.log), fleet.log, fleet.versions,
                      applyErrors, silent)
    ensures released.Some? ==> after.Fits(applyErrors, old(fleet.HeldOtherwise()), fleet.HeldOtherwise())
    ensures released.Some? && tags.Ordered(repo, cfg.envPrefix) ==>
              forall i :: |old(fleet.log)| <= i < |fleet.log| ==>
                            CallSafe(repo, tags, cfg.approval, answers, choice, fleet.log[i])
  {
    hide Choice.Justified, CleanAt, Release.EarliestAt, Staged, StoppedByError, RolledOut, Aftermath.Fits, AskedOutcome;
    hide WellChosen, CallSafe;
    choice, runs, applyErrors, silent, after := Choice("", "", map[], [], 0), [], {}, {}, Aftermath(false, {}, {}, {});
    released := None;
    var ns := new NodeSet(cfg.thresholds);
    var nodesToDial: Reply<seq<Host>>, dialFails: nat -> bool := *, *;
    var ok := DialNodeSet(ns, nodesToDial, dialFails);
    if !ok {
      return;
    }
    ghost var at, lastApply, a;
    var common;
    common, at, lastApply, a := CommonTagNodeSet(ns, fleet, repo, tags, cfg.envPrefix);
    if common.Failed? {
      return;
    }
    released, choice := ChooseTag(repo, tags, cfg, answers, common.value, at, lastApply);
    if released.None? {
      return;
    }
    ghost var log0 := fleet.log;
    ChosenWell(repo, tags, cfg, answers, choice, released.value, fleet.versions);
    var errors;
    errors, runs, silent := RollOut(fleet, repo, cfg, tags.commits[released.value]);
    applyErrors := errors;
    if tags.Ordered(repo, cfg.envPrefix) {
      AllSafe(repo, tags, cfg, answers, choice, released.value, old(fleet.versions), log0, fleet.log, fleet.versions,
              applyErrors, silent);
    }
    ok, after := ReportErrors(fleet, cfg, errors);
  }

  lemma ChosenWell(repo: Repo, tags: Tags, cfg: Config, answers: Answers, choice: Choice, released: Tag,
                   versions: map<Host, ConfVersion>)
    requires choice.Justified(repo, tags, cfg.envPrefix, cfg.approval, answers)
    requires CleanAt(choice.lastApply, versions, repo.parents.Keys)
    requires 0 < choice.ready <= |choice.nextTags| && released == choice.nextTags[choice.ready-1]
    requires released in tags.commits && tags.commits[released] in repo.parents
    ensures WellChosen(repo, tags, cfg, answers, choice, released, versions)
  {
    hide Choice.Justified, CleanAt;
  }
}
