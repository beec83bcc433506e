/** Nooping a commit on every node of a set: cached noops are reused when they
    were taken against the node's current last apply, the others are taken
    again under a lock. */
module NoopRuns {
  import opened Wrappers
  import opened CommitGraph
  import opened LockFile
  import opened NoopReports
  import opened Fleets
  import opened NodeSets

  type NoopKey = (Host, Oid)

  datatype StoredNoop = Unreadable | Readable(report: Report)
  datatype LoadResult = Loaded(report: Report) | Missing | Invalid | LoadFailed

  function LoadNoop(repo: Repo, lastApply: Oid, host: Host, commit: Oid, stored: Option<StoredNoop>): LoadResult
    requires lastApply in repo.parents
  {
    if CommitAlreadyApplied(repo, lastApply, commit) then Loaded(EMPTY_REPORT)
    else if stored.None? then Missing
    else if stored.value.Unreadable? then LoadFailed
    else
      var rprt := stored.value.report;
      if host != rprt.host then LoadFailed
      else if rprt.failed then Loaded(rprt)
      else match ParseLastApply(rprt.lastApplyVersion, repo.parents.Keys)
        case LastApplyClean(oid) => if lastApply == oid then Loaded(rprt) else Invalid
        case LastApplyDirty => LoadFailed
        case LastApplyErrored => LoadFailed
  }

  /** A report that may be subtracted: an empty substitute exactly when the node
      has the commit; otherwise taken against its last apply, unless it failed. */
  predicate Usable(repo: Repo, lastApply: Oid, commit: Oid, r: Report)
    requires lastApply in repo.parents
  {
    if CommitAlreadyApplied(repo, lastApply, commit) then r == EMPTY_REPORT
    else r.failed || r.lastApplyVersion == CleanVersion(lastApply)
  }

  /** An entry on disk that hecklerd dies of: unreadable, of another host, or taken,
      without failing, against a last apply that is no clean commit of the repository. */
  ghost predicate BadEntry(repo: Repo, host: Host, entry: StoredNoop) {
    match entry
    case Unreadable => true
    case Readable(r) => r.host != host
                        || (!r.failed && !(r.lastApplyVersion.CleanVersion? && r.lastApplyVersion.oid in repo.parents))
  }

  /** What comes out of the cache, entry by entry. A node that has the commit needs
      none; one that lacks it and has no entry, or a stale readable one of its own, is
      nooped again; only a bad entry is fatal. */
  lemma LoadedExactly(repo: Repo, lastApply: Oid, host: Host, commit: Oid, stored: Option<StoredNoop>)
    requires lastApply in repo.parents
    ensures var l := LoadNoop(repo, lastApply, host, commit, stored);
            if commit in History(repo, lastApply) then l == Loaded(Report("", UnparseableVersion, false,
                                                                          UnparseableVersion, map[], []))
            else match stored
              case None => l == Missing
              case Some(Unreadable) => l == LoadFailed && BadEntry(repo, host, Unreadable)
              case Some(Readable(r)) =>
                && (l == LoadFailed <==> BadEntry(repo, host, Readable(r)))
                && (l.Loaded? <==> r.host == host && (r.failed || r.lastApplyVersion == CleanVersion(lastApply)))
                && (l.Loaded? ==> l == Loaded(r))
                && (l == Invalid <==> r.host == host && !r.failed && r.lastApplyVersion != CleanVersion(lastApply)
                                      && exists c :: c in repo.parents && r.lastApplyVersion == CleanVersion(c))
                && l != Missing
  {
  }

  /** What comes out of the cache is usable, and a usable report of the node
      that parses goes back in and comes out again: only stale ones are retaken. */
  lemma LoadedAreUsable(repo: Repo, lastApply: Oid, host: Host, commit: Oid, stored: Option<StoredNoop>, r: Report)
    requires lastApply in repo.parents
    ensures LoadNoop(repo, lastApply, host, commit, stored) == Loaded(r) ==> Usable(repo, lastApply, commit, r)
    ensures !CommitAlreadyApplied(repo, lastApply, commit) && r.host == host && Usable(repo, lastApply, commit, r) ==>
              LoadNoop(repo, lastApply, host, commit, Some(Readable(r))) == Loaded(r)
    ensures LoadNoop(repo, lastApply, host, commit, stored).Invalid? <==>
              && !CommitAlreadyApplied(repo, lastApply, commit) && stored.Some? && stored.value.Readable?
              && stored.value.report.host == host && !stored.value.report.failed
              && ParseLastApply(stored.value.report.lastApplyVersion, repo.parents.Keys).LastApplyClean?
              && !Usable(repo, lastApply, commit, stored.value.report)
  {
  }

  /** The reports a node set holds in memory, and the noops kept on disk. */
  class NoopStore {
    var reports: map<NoopKey, Report>
    var stored: map<NoopKey, StoredNoop>

    constructor (stored: map<NoopKey, StoredNoop>)
      ensures this.stored == stored && reports == map[]
    {
      this.stored := stored;
      reports := map[];
    }
  }

  /** What the nodes run, and the reports in memory and on disk. */
  datatype View = View(versions: map<Host, ConfVersion>, reports: map<NoopKey, Report>, stored: map<NoopKey,
                       StoredNoop>)

  ghost function Snapshot(fleet: Fleet, store: NoopStore): View
    reads fleet`versions, store`reports, store`stored
  {
    View(fleet.versions, store.reports, store.stored)
  }

  function StoredAt(stored: map<NoopKey, StoredNoop>, h: Host, c: Oid): Option<StoredNoop> {
    if (h, c) in stored then Some(stored[(h, c)]) else None
  }

  ghost predicate KnownCommits(repo: Repo, lastApply: map<Host, Oid>, hosts: set<Host>) {
    forall h :: h in hosts ==> h in lastApply && lastApply[h] in repo.parents
  }

  function LoadFrom(repo: Repo, lastApply: map<Host, Oid>, stored: map<NoopKey, StoredNoop>, h: Host,
                    c: Oid): LoadResult
    requires h in lastApply && lastApply[h] in repo.parents
  {
    LoadNoop(repo, lastApply[h], h, c, StoredAt(stored, h, c))
  }

  /** Every host has a report for the commit, the one that loading it again would give. */
  ghost predicate Reported(repo: Repo, lastApply: map<Host, Oid>, reports: map<NoopKey, Report>,
                           stored: map<NoopKey, StoredNoop>, hosts: set<Host>, c: Oid)
  {
    forall h :: h in hosts ==> h in lastApply && lastApply[h] in repo.parents && (h, c) in reports
                               && LoadFrom(repo, lastApply, stored, h, c) == Loaded(reports[(h, c)])
  }

  /** A noop that can be loaded stays as it is. */
  ghost predicate StillLoads(repo: Repo, lastApply: map<Host, Oid>, stored0: map<NoopKey, StoredNoop>,
                             stored: map<NoopKey, StoredNoop>, c: Oid)
  {
    forall h :: h in lastApply && lastApply[h] in repo.parents && LoadFrom(repo, lastApply, stored0, h, c).Loaded? ==>
                  StoredAt(stored, h, c) == StoredAt(stored0, h, c)
  }

  /** Only entries for the commit were written. */
  ghost predicate SameElsewhere<V>(m0: map<NoopKey, V>, m1: map<NoopKey, V>, c: Oid) {
    forall k: NoopKey :: k.1 != c ==> (k in m0 <==> k in m1) && (k in m0 && k in m1 ==> m0[k] == m1[k])
  }

  /** Nothing on disk stops hecklerd when it loads the noops of a commit. */
  ghost predicate Loadable(repo: Repo, lastApply: map<Host, Oid>, stored: map<NoopKey, StoredNoop>, hosts: set<Host>,
                           c: Oid)
  {
    forall h :: h in hosts && h in lastApply && lastApply[h] in repo.parents ==> !BadFor(repo, lastApply, stored, h, c)
  }

  /** The node lacks the commit, and the entry it has for it is bad. */
  ghost predicate BadFor(repo: Repo, lastApply: map<Host, Oid>, stored: map<NoopKey, StoredNoop>, h: Host, c: Oid)
    requires h in lastApply && lastApply[h] in repo.parents
  {
    c !in History(repo, lastApply[h]) && (h, c) in stored && BadEntry(repo, h, stored[(h, c)])
  }

  // ---------------------------------------------------------- requesting noops

  /** Crashed stands for the fatal exits of hecklerd. */
  datatype Requested = HasReport | Requested | NoLock | LockedElsewhere | Ignored | Crashed

  /** One lock was asked for, and the answer decided what becomes of the node. */
  ghost predicate LockAsked(log0: seq<NodeAnswer>, log1: seq<NodeAnswer>, host: Host, user: User, comment: string,
                            q: Requested)
  {
    exists status :: log1 == log0 + [LockAnswer(host, user, LockReq, comment, status)]
                     && (q.Requested? <==> status == LockedByUser) && (q.NoLock? <==> status == LockUnknown)
                     && (q.LockedElsewhere? <==> status == LockedByAnother)
  }

  method RequestNoop(ns: NodeSet, store: NoopStore, fleet: Fleet, repo: Repo, host: Host, commit: Oid, lockMsg: string)
    returns (q: Requested)
    requires host in ns.lastApply && ns.lastApply[host] in repo.parents && fleet.granted <= fleet.Held()
    modifies store`reports, fleet`locks, fleet`disturbed, fleet`granted, fleet`answers
    ensures !q.Ignored?
    ensures q.Crashed? <==> BadFor(repo, ns.lastApply, store.stored, host, commit)
    ensures commit in History(repo, ns.lastApply[host]) ==>
              q.HasReport? && store.reports == old(store.reports)[(host, commit) := EMPTY_REPORT]
    ensures commit !in History(repo, ns.lastApply[host]) && (host, commit) !in store.stored ==>
              !q.Crashed? && !q.HasReport?
    ensures commit !in History(repo, ns.lastApply[host]) && (host, commit) in store.stored ==>
              match store.stored[(host, commit)]
              case Unreadable => q.Crashed?
              case Readable(r) =>
                && (q.HasReport? <==> r.host == host
                                      && (r.failed || r.lastApplyVersion == CleanVersion(ns.lastApply[host])))
                && (q.HasReport? ==> store.reports == old(store.reports)[(host, commit) := r])
                && (q.Crashed? <==>
                    r.host != host
                    || (!r.failed && forall c :: c in repo.parents ==> r.lastApplyVersion != CleanVersion(c)))
    ensures q.HasReport? || q.Crashed? ==> fleet.answers == old(fleet.answers)
    ensures !q.HasReport? && !q.Crashed? ==>
              LockAsked(old(fleet.answers), fleet.answers, host, fleet.client, lockMsg, q)
    ensures var l := LoadFrom(repo, ns.lastApply, store.stored, host, commit);
            && (q.HasReport? <==> l.Loaded?) && (q.Crashed? <==> l.LoadFailed?)
            && store.reports == if l.Loaded? then old(store.reports)[(host, commit) := l.report] else old(store.reports)
    ensures fleet.granted == (if q.Requested? then old(fleet.granted) + {host} else old(fleet.granted))
    ensures q.Requested? ==> host !in old(fleet.granted)
    ensures q.LockedElsewhere? ==> host in fleet.locks
    ensures fleet.granted <= fleet.Held()
  {
    hide LoadNoop;
    LoadedExactly(repo, ns.lastApply[host], host, commit, StoredAt(store.stored, host, commit));
    var l := LoadNoop(repo, ns.lastApply[host], host, commit, StoredAt(store.stored, host, commit));
    match l {
      case Loaded(rprt) =>
        store.reports := store.reports[(host, commit) := rprt];
        return HasReport;
      case LoadFailed =>
        return Crashed;
      case _ =>
    }
    var ls, _ := fleet.RizzoLock(host, LockReq, lockMsg);
    match ls.status {
      case LockedByAnother => return LockedElsewhere;
      case LockUnknown => return NoLock;
      case LockedByUser => return Requested;
      case Unlocked => return Ignored;
    }
  }

  /** How the nodes of a round were filed, given what became of each. */
  ghost predicate FiledAs(fate: map<Host, Requested>, all: set<Host>, rest: set<Host>, active: set<Host>,
                          noopHosts: set<Host>, failed: set<Host>, another: set<Host>)
  {
    forall h :: FiledHost(h, fate, all, rest, active, noopHosts, failed, another)
  }

  ghost predicate FiledHost(h: Host, fate: map<Host, Requested>, all: set<Host>, rest: set<Host>, active: set<Host>,
                            noopHosts: set<Host>, failed: set<Host>, another: set<Host>)
  {
    && (h in all <==> h in fate || h in rest) && !(h in fate && h in rest)
    && (h in fate ==> fate[h] != Ignored && fate[h] != Crashed)
    && (h in noopHosts <==> h in fate && fate[h] == Requested)
    && (h in failed <==> h in fate && fate[h] == NoLock)
    && (h in another <==> h in fate && fate[h] == LockedElsewhere)
    && (h in active <==> h in all && h !in failed && h !in another)
  }

  lemma FiledStep(fate: map<Host, Requested>, all: set<Host>, rest: set<Host>, active: set<Host>,
                  noopHosts: set<Host>, failed: set<Host>, another: set<Host>, h: Host, q: Requested)
    requires FiledAs(fate, all, rest, active, noopHosts, failed, another) && h in rest && !q.Ignored? && !q.Crashed?
    ensures FiledAs(fate[h := q], all, rest - {h},
                    if q.NoLock? || q.LockedElsewhere? then active - {h} else active,
                    if q.Requested? then noopHosts + {h} else noopHosts,
                    if q.NoLock? then failed + {h} else failed,
                    if q.LockedElsewhere? then another + {h} else another)
    ensures |rest - {h}| < |rest| && h in all && h !in fate
  {
    var fate2, rest2 := fate[h := q], rest - {h};
    var active2 := if q.NoLock? || q.LockedElsewhere? then active - {h} else active;
    var noopHosts2 := if q.Requested? then noopHosts + {h} else noopHosts;
    var failed2 := if q.NoLock? then failed + {h} else failed;
    var another2 := if q.LockedElsewhere? then another + {h} else another;
    forall k ensures FiledHost(k, fate2, all, rest2, active2, noopHosts2, failed2, another2) {
      assert FiledHost(k, fate, all, rest, active, noopHosts, failed, another);
    }
    assert FiledHost(h, fate, all, rest, active, noopHosts, failed, another);
  }

  /** What a round of requests knows about the reports: some were loaded, the
      nodes to noop have none that could be. */
  ghost predicate RequestsFit(repo: Repo, lastApply: map<Host, Oid>, fate: map<Host, Requested>, c: Oid,
                              reports0: map<NoopKey, Report>, reports: map<NoopKey, Report>,
                              stored: map<NoopKey, StoredNoop>)
  {
    && Reported(repo, lastApply, reports, stored, Where(fate, HasReport), c) && SameElsewhere(reports0, reports, c)
    && (forall h :: h in fate && fate[h] == Requested ==>
                      h in lastApply && lastApply[h] in repo.parents && !LoadFrom(repo, lastApply, stored, h,
                                                                                  c).Loaded?)
  }

  lemma RequestsFitStep(repo: Repo, lastApply: map<Host, Oid>, fate: map<Host, Requested>, c: Oid,
                        reports0: map<NoopKey, Report>, reports1: map<NoopKey, Report>, h: Host, q: Requested,
                        l: LoadResult, stored: map<NoopKey, StoredNoop>, reports2: map<NoopKey, Report>)
    requires RequestsFit(repo, lastApply, fate, c, reports0, reports1, stored) && h !in fate
    requires h in lastApply && lastApply[h] in repo.parents && l == LoadFrom(repo, lastApply, stored, h, c)
    requires (q.HasReport? <==> l.Loaded?)
    requires reports2 == if l.Loaded? then reports1[(h, c) := l.report] else reports1
    ensures RequestsFit(repo, lastApply, fate[h := q], c, reports0, reports2, stored)
  {
  }

  method FileRequest(ns: NodeSet, host: Host, q: Requested, noopHosts0: set<Host>, failed0: set<Host>,
                     another0: set<Host>, ghost fate: map<Host, Requested>, ghost all: set<Host>, ghost rest: set<Host>)
    returns (noopHosts: set<Host>, failed: set<Host>, another: set<Host>)
    requires FiledAs(fate, all, rest, ns.active, noopHosts0, failed0, another0)
    requires host in rest && !q.Ignored? && !q.Crashed?
    modifies ns`active
    ensures FiledAs(fate[host := q], all, rest - {host}, ns.active, noopHosts, failed, another)
    ensures noopHosts == if q.Requested? then noopHosts0 + {host} else noopHosts0
    ensures |rest - {host}| < |rest| && host in all && host !in fate
  {
    hide FiledAs;
    FiledStep(fate, all, rest, ns.active, noopHosts0, failed0, another0, host, q);
    noopHosts, failed, another := noopHosts0, failed0, another0;
    match q {
      case HasReport =>
      case Requested =>
        noopHosts := noopHosts + {host};
      case NoLock =>
        failed := failed + {host};
        ns.active := ns.active - {host};
      case LockedElsewhere =>
        another := another + {host};
        ns.active := ns.active - {host};
    }
  }

  /** The client was granted the locks of these nodes besides those it had. */
  ghost predicate GrantedMore(granted: set<Host>, g0: set<Host>, hosts: set<Host>) {
    granted == g0 + hosts && hosts !! g0
  }

  lemma GrantedOne(granted: set<Host>, g0: set<Host>, hosts: set<Host>, host: Host)
    requires GrantedMore(granted, g0, hosts)
    ensures host !in granted ==> GrantedMore(granted + {host}, g0, hosts + {host})
  {
  }

  lemma GrantedAll(granted: set<Host>, g0: set<Host>, hosts: set<Host>)
    requires GrantedMore(granted, g0, hosts)
    ensures granted == g0 + hosts && hosts !! g0
  {
  }

  lemma NotYetFiled(fate: map<Host, Requested>, all: set<Host>, rest: set<Host>, active: set<Host>,
                    noopHosts: set<Host>, failed: set<Host>, another: set<Host>, h: Host)
    requires FiledAs(fate, all, rest, active, noopHosts, failed, another) && h in rest
    ensures h !in fate
  {
    assert FiledHost(h, fate, all, rest, active, noopHosts, failed, another);
  }

  /** The request of one more node, with what it means for the round so far. */
  method RequestOne(ns: NodeSet, store: NoopStore, fleet: Fleet, repo: Repo, host: Host, commit: Oid, lockMsg: string,
                    ghost fate: map<Host, Requested>, ghost reports0: map<NoopKey, Report>,
                    ghost answers0: seq<NodeAnswer>) returns (q: Requested)
    requires host in ns.lastApply && ns.lastApply[host] in repo.parents && fleet.granted <= fleet.Held()
    requires RequestsFit(repo, ns.lastApply, fate, commit, reports0, store.reports, store.stored) && host !in fate
    requires Loadable(repo, ns.lastApply, store.stored, fate.Keys, commit)
    requires answers0 <= fleet.answers && FateTold(fate, fleet.answers, |answers0|)
    modifies store`reports, fleet`locks, fleet`disturbed, fleet`granted, fleet`answers
    ensures !q.Ignored? && (q.Crashed? <==> BadFor(repo, ns.lastApply, store.stored, host, commit))
    ensures !q.Crashed? ==>
              RequestsFit(repo, ns.lastApply, fate[host := q], commit, reports0, store.reports, store.stored)
    ensures !q.Crashed? ==> Loadable(repo, ns.lastApply, store.stored, fate[host := q].Keys, commit)
    ensures answers0 <= fleet.answers && (!q.Crashed? ==> FateTold(fate[host := q], fleet.answers, |answers0|))
    ensures fleet.granted == (if q.Requested? then old(fleet.granted) + {host} else old(fleet.granted))
    ensures q.Requested? ==> host !in old(fleet.granted)
    ensures fleet.granted <= fleet.Held()
  {
    hide *;
    ghost var reports1, answers1 := store.reports, fleet.answers;
    q := RequestNoop(ns, store, fleet, repo, host, commit, lockMsg);
    ghost var l := LoadFrom(repo, ns.lastApply, store.stored, host, commit);
    if !q.Crashed? {
      MoreLoadable(repo, ns.lastApply, store.stored, fate, host, q, commit);
      FateStep(fate, answers1, fleet.answers, |answers0|, host, q, fleet.client, lockMsg);
      RequestsFitStep(repo, ns.lastApply, fate, commit, reports0, reports1, host, q, l, store.stored, store.reports);
    }
  }

  method RequestNoops(ns: NodeSet, store: NoopStore, fleet: Fleet, repo: Repo, commit: Oid, lockMsg: string)
    returns (crashed: bool, noopHosts: set<Host>, failed: set<Host>, another: set<Host>,
             ghost fate: map<Host, Requested>)
    requires KnownCommits(repo, ns.lastApply, ns.active) && fleet.granted <= fleet.Held()
    modifies ns`active, store`reports, fleet`locks, fleet`disturbed, fleet`granted, fleet`answers
    ensures crashed <==> !Loadable(repo, ns.lastApply, store.stored, old(ns.active), commit)
    ensures old(fleet.answers) <= fleet.answers
    ensures !crashed ==> FateTold(fate, fleet.answers, |old(fleet.answers)|)
    ensures !crashed ==> FiledAs(fate, old(ns.active), {}, ns.active, noopHosts, failed, another)
    ensures !crashed ==> RequestsFit(repo, ns.lastApply, fate, commit, old(store.reports), store.reports, store.stored)
    ensures !crashed ==> fleet.granted == old(fleet.granted) + noopHosts && noopHosts !! old(fleet.granted)
    ensures fleet.granted <= fleet.Held()
  {
    hide *;
    noopHosts, failed, another, fate := {}, {}, {}, map[];
    var rest := ns.active;
    ghost var all, reports0, g0 := ns.active, store.reports, fleet.granted;
    RequestsStart(repo, ns.lastApply, commit, reports0, store.stored, all, fleet.answers, g0);
    while rest != {}
      invariant FiledAs(fate, all, rest, ns.active, noopHosts, failed, another) && rest <= all
      invariant RequestsFit(repo, ns.lastApply, fate, commit, reports0, store.reports, store.stored)
      invariant GrantedMore(fleet.granted, g0, noopHosts)
      invariant fleet.granted <= fleet.Held() && old(fleet.answers) <= fleet.answers
      invariant Loadable(repo, ns.lastApply, store.stored, fate.Keys, commit)
      invariant FateTold(fate, fleet.answers, |old(fleet.answers)|)
      decreases |rest|
    {
      var host :| host in rest;
      HostKnown(repo, ns.lastApply, all, host);
      NotYetFiled(fate, all, rest, ns.active, noopHosts, failed, another, host);
      GrantedOne(fleet.granted, g0, noopHosts, host);
      var q := RequestOne(ns, store, fleet, repo, host, commit, lockMsg, fate, reports0, old(fleet.answers));
      if q.Crashed? {
        NotLoadable(repo, ns.lastApply, store.stored, all, host, commit);
        return true, noopHosts, failed, another, fate;
      }
      noopHosts, failed, another := FileRequest(ns, host, q, noopHosts, failed, another, fate, all, rest);
      fate := fate[host := q];
      rest := rest - {host};
    }
    AllFiled(fate, all, ns.active, noopHosts, failed, another);
    GrantedAll(fleet.granted, g0, noopHosts);
    return false, noopHosts, failed, another, fate;
  }

  lemma HostKnown(repo: Repo, lastApply: map<Host, Oid>, hosts: set<Host>, h: Host)
    requires KnownCommits(repo, lastApply, hosts) && h in hosts
    ensures h in lastApply && lastApply[h] in repo.parents
  {
  }

  lemma RequestsStart(repo: Repo, lastApply: map<Host, Oid>, c: Oid, reports: map<NoopKey, Report>,
                      stored: map<NoopKey, StoredNoop>, all: set<Host>, log: seq<NodeAnswer>, granted: set<Host>)
    ensures RequestsFit(repo, lastApply, map[], c, reports, reports, stored)
    ensures FateTold(map[], log, |log|) && GrantedMore(granted, granted, {})
    ensures var fate: map<Host, Requested> := map[]; Loadable(repo, lastApply, stored, fate.Keys, c)
    ensures FiledAs(map[], all, all, all, {}, {}, {})
  {
  }

  lemma NotLoadable(repo: Repo, lastApply: map<Host, Oid>, stored: map<NoopKey, StoredNoop>, hosts: set<Host>,
                    h: Host, c: Oid)
    requires h in hosts && h in lastApply && lastApply[h] in repo.parents && BadFor(repo, lastApply, stored, h, c)
    ensures !Loadable(repo, lastApply, stored, hosts, c)
  {
  }

  lemma MoreLoadable(repo: Repo, lastApply: map<Host, Oid>, stored: map<NoopKey, StoredNoop>,
                     fate: map<Host, Requested>, h: Host, q: Requested, c: Oid)
    requires h in lastApply && lastApply[h] in repo.parents && !BadFor(repo, lastApply, stored, h, c)
    requires Loadable(repo, lastApply, stored, fate.Keys, c)
    ensures Loadable(repo, lastApply, stored, fate[h := q].Keys, c)
  {
    hide BadFor;
  }

  lemma AllFiled(fate: map<Host, Requested>, all: set<Host>, active: set<Host>, noopHosts: set<Host>,
                 failed: set<Host>, another: set<Host>)
    requires FiledAs(fate, all, {}, active, noopHosts, failed, another)
    ensures fate.Keys == all
  {
    forall h ensures h in fate <==> h in all {
      assert FiledHost(h, fate, all, {}, active, noopHosts, failed, another);
    }
  }

  /** What became of each node is what it answered when asked for its lock. */
  ghost predicate FateTold(fate: map<Host, Requested>, log: seq<NodeAnswer>, from: nat) {
    forall h :: && (Told(log, from, LockReq, h, LockedByUser) <==> h in fate && fate[h] == Requested)
                && (Told(log, from, LockReq, h, LockUnknown) <==> h in fate && fate[h] == NoLock)
                && (Told(log, from, LockReq, h, LockedByAnother) <==> h in fate && fate[h] == LockedElsewhere)
  }

  lemma FateStep(fate: map<Host, Requested>, log1: seq<NodeAnswer>, log2: seq<NodeAnswer>, from: nat, host: Host,
                 q: Requested, user: User, comment: string)
    requires FateTold(fate, log1, from) && from <= |log1| && host !in fate && !q.Ignored? && !q.Crashed?
    requires q.HasReport? ==> log2 == log1
    requires !q.HasReport? ==> LockAsked(log1, log2, host, user, comment, q)
    ensures FateTold(fate[host := q], log2, from) && log1 <= log2
  {
    if !q.HasReport? {
      var status :| log2 == log1 + [LockAnswer(host, user, LockReq, comment, status)]
                    && (q.Requested? <==> status == LockedByUser) && (q.NoLock? <==> status == LockUnknown)
                    && (q.LockedElsewhere? <==> status == LockedByAnother);
      forall h, s: LockStatus
        ensures Told(log2, from, LockReq, h, s) <==> Told(log1, from, LockReq, h, s) || (h == host && s == status)
      {
        ToldStep(log1, log2[|log1|], from, LockReq, h, s);
      }
    }
  }

  // --------------------------------------------------------- collecting noops

  datatype Collected = Filed | NoReply | BadReply

  /** The noop call of one node, by an honest Puppet, filed its report under the node and the commit. */
  ghost predicate FiledFor(e: ApplyCall, host: Host, c: Oid, r: Collected, active0: set<Host>, active: set<Host>,
                           w0: View, w: View)
  {
    match e.reply
    case ApplyError => r == NoReply && active == active0 - {host} && w.reports == w0.reports && w.stored == w0.stored
    case Done(report) =>
      var rprt := if report.failed then report.(host := host) else report;
      && r == Filed && active == active0 && rprt.host == host && (rprt.failed || rprt.lastApplyVersion == e.before)
      && w.reports == w0.reports[(host, c) := rprt] && w.stored == w0.stored[(host, c) := Readable(rprt)]
  }

  /** If the answer names the node and the commit, it is filed under them,
      whatever it says of the last apply. */
  ghost predicate FiledUnder(host: Host, c: Oid, r: Collected, w0: View, w: View) {
    && !r.BadReply? && (r.Filed? ==> (host, c) in w.reports)
    && SameElsewhere(w0.reports, w.reports, c) && SameElsewhere(w0.stored, w.stored, c)
    && w0.reports.Keys <= w.reports.Keys
  }

  ghost predicate SameVersions(v0: map<Host, ConfVersion>, v1: map<Host, ConfVersion>) {
    forall h :: VersionAt(v1, h) == VersionAt(v0, h)
  }

  method CollectNoop(ns: NodeSet, store: NoopStore, fleet: Fleet, host: Host, commit: Oid)
    returns (r: Collected, ghost e: ApplyCall)
    requires host in ns.active && fleet.granted <= fleet.Held()
    modifies ns`active, store`reports, store`stored
    modifies fleet`locks, fleet`disturbed, fleet`granted, fleet`answers, fleet`versions, fleet`log
    ensures fleet.log == old(fleet.log) + [e]
    ensures e.host == host && e.rev == commit && e.noop && e.underGrant == (host in old(fleet.granted))
    ensures e.before == VersionAt(old(Snapshot(fleet, store)).versions, host)
    ensures r.NoReply? <==> e.reply.ApplyError?
    ensures exists status :: fleet.answers == old(fleet.answers)
                                              + [LockAnswer(host, fleet.client, UnlockReq, "", status)]
    ensures Honest(e) ==> SameVersions(old(Snapshot(fleet, store)).versions, Snapshot(fleet, store).versions)
    ensures ns.active == if r.NoReply? then old(ns.active) - {host} else old(ns.active)
    ensures Honest(e) ==> FiledFor(e, host, commit, r, old(ns.active), ns.active, old(Snapshot(fleet, store)),
                                   Snapshot(fleet, store))
    ensures Named(e) ==> FiledUnder(host, commit, r, old(Snapshot(fleet, store)), Snapshot(fleet, store))
    ensures fleet.granted == old(fleet.granted) - {host} && fleet.granted <= fleet.Held()
  {
    hide LockTrace, FiledUnder, FiledFor, SameVersions, Named, Honest, SameElsewhere;
    ghost var w0 := Snapshot(fleet, store);
    var reply := fleet.PuppetApply(host, commit, true);
    e := fleet.log[|fleet.log|-1];
    VersionsKept(e, host, w0.versions, fleet.versions);
    var ls, _ := fleet.RizzoLock(host, UnlockReq, "");
    assert fleet.answers == old(fleet.answers) + [LockAnswer(host, fleet.client, UnlockReq, "", ls.status)];
    if reply.ApplyError? {
      FiledNothing(e, host, commit, ns.active, w0, Snapshot(fleet, store));
      ns.active := ns.active - {host};
      return NoReply, e;
    }
    var newRprt := reply.report;
    if newRprt.failed {
      newRprt := newRprt.(host := host);  // a failed report lacks the host
    }
    if !newRprt.configurationVersion.CleanVersion? || newRprt.host !in ns.active {
      NotAskedFor(e, newRprt, host, ns.active);
      return BadReply, e;
    }
    var key := (newRprt.host, newRprt.configurationVersion.oid);
    store.reports := store.reports[key := newRprt];
    store.stored := store.stored[key := Readable(newRprt)];
    FiledOne(e, newRprt, host, commit, ns.active, w0, Snapshot(fleet, store));
    return Filed, e;
  }

  lemma VersionsKept(e: ApplyCall, host: Host, v0: map<Host, ConfVersion>, v1: map<Host, ConfVersion>)
    requires e.noop && e.before == VersionAt(v0, host) && e.after == VersionAt(v1, host)
    requires forall h :: h != host ==> VersionAt(v1, h) == VersionAt(v0, h)
    ensures Honest(e) ==> SameVersions(v0, v1)
  {
  }

  lemma FiledNothing(e: ApplyCall, host: Host, c: Oid, active: set<Host>, w0: View, w: View)
    requires e.reply.ApplyError? && w.reports == w0.reports && w.stored == w0.stored
    ensures FiledUnder(host, c, NoReply, w0, w) && FiledFor(e, host, c, NoReply, active, active - {host}, w0, w)
  {
  }

  lemma NotAskedFor(e: ApplyCall, rprt: Report, host: Host, active: set<Host>)
    requires e.reply.Done? && e.host == host && host in active
    requires rprt == if e.reply.report.failed then e.reply.report.(host := host) else e.reply.report
    requires !rprt.configurationVersion.CleanVersion? || rprt.host !in active
    ensures !Named(e) && !Honest(e)
  {
  }

  lemma FiledOne(e: ApplyCall, rprt: Report, host: Host, c: Oid, active: set<Host>, w0: View, w: View)
    requires e.reply.Done? && e.host == host && e.rev == c && e.noop && host in active
    requires rprt == if e.reply.report.failed then e.reply.report.(host := host) else e.reply.report
    requires rprt.configurationVersion.CleanVersion?
    requires w.reports == w0.reports[(rprt.host, rprt.configurationVersion.oid) := rprt]
    requires w.stored == w0.stored[(rprt.host, rprt.configurationVersion.oid) := Readable(rprt)]
    ensures Named(e) ==> FiledUnder(host, c, Filed, w0, w)
    ensures Honest(e) ==> FiledFor(e, host, c, Filed, active, active, w0, w)
  {
  }

  /** Reports of the commit are there for these hosts, and nothing changed for other commits. */
  ghost predicate Present(hosts: set<Host>, c: Oid, w0: View, w: View) {
    && (forall h :: h in hosts ==> (h, c) in w.reports)
    && SameElsewhere(w0.reports, w.reports, c) && SameElsewhere(w0.stored, w.stored, c)
  }

  lemma PresentStep(hosts: set<Host>, c: Oid, w0: View, w1: View, host: Host, r: Collected, w2: View)
    requires Present(hosts, c, w0, w1) && FiledUnder(host, c, r, w1, w2)
    ensures Present(if r.Filed? then hosts + {host} else hosts, c, w0, w2)
  {
    SameElsewhereOn(w0.reports, w1.reports, w2.reports, c);
    SameElsewhereOn(w0.stored, w1.stored, w2.stored, c);
  }

  /** Noops are in for these hosts, and nothing else changed. */
  ghost predicate NoopsIn(repo: Repo, lastApply: map<Host, Oid>, hosts: set<Host>, c: Oid,
                          w0: View, w: View)
  {
    && SameVersions(w0.versions, w.versions) && Reported(repo, lastApply, w.reports, w.stored, hosts, c)
    && SameElsewhere(w0.reports, w.reports, c) && SameElsewhere(w0.stored, w.stored, c)
    && StillLoads(repo, lastApply, w0.stored, w.stored, c)
  }

  /** A noop filed for a node that did not have the commit loads again. */
  lemma FiledLoads(repo: Repo, lastApply: map<Host, Oid>, host: Host, c: Oid, w0: View, w1: View, w2: View,
                   e: ApplyCall,
                   active0: set<Host>, active: set<Host>)
    requires FiledFor(e, host, c, Filed, active0, active, w1, w2)
    requires host in lastApply && lastApply[host] in repo.parents
    requires !LoadFrom(repo, lastApply, w0.stored, host, c).Loaded?
    requires e.before == CleanVersion(lastApply[host])
    ensures (host, c) in w2.reports && LoadFrom(repo, lastApply, w2.stored, host, c) == Loaded(w2.reports[(host, c)])
  {
  }

  lemma FiledAmongOthers(repo: Repo, lastApply: map<Host, Oid>, hosts: set<Host>, host: Host, c: Oid,
                         w0: View, w1: View, w2: View, e: ApplyCall, r: Collected,
                         active0: set<Host>, active: set<Host>)
    requires FiledFor(e, host, c, r, active0, active, w1, w2)
    requires host in lastApply && lastApply[host] in repo.parents
    requires !LoadFrom(repo, lastApply, w0.stored, host, c).Loaded?
    requires r.Filed? ==> e.before == CleanVersion(lastApply[host])
    requires Reported(repo, lastApply, w1.reports, w1.stored, hosts, c)
    requires StillLoads(repo, lastApply, w0.stored, w1.stored, c)
    ensures Reported(repo, lastApply, w2.reports, w2.stored, if r.Filed? then hosts + {host} else hosts, c)
    ensures StillLoads(repo, lastApply, w0.stored, w2.stored, c)
  {
    hide LoadNoop;
    if r.Filed? {
      FiledLoads(repo, lastApply, host, c, w0, w1, w2, e, active0, active);
    }
    forall h | h != host || !r.Filed?
      ensures StoredAt(w2.stored, h, c) == StoredAt(w1.stored, h, c)
      ensures (h, c) in w1.reports ==> (h, c) in w2.reports && w2.reports[(h, c)] == w1.reports[(h, c)]
    {
    }
  }

  lemma SameFiled(host: Host, c: Oid, w1: View, w2: View, e: ApplyCall, r: Collected, active0: set<Host>,
                  active: set<Host>)
    requires FiledFor(e, host, c, r, active0, active, w1, w2)
    ensures SameElsewhere(w1.reports, w2.reports, c) && SameElsewhere(w1.stored, w2.stored, c)
  {
  }

  lemma SameElsewhereOn<V>(m0: map<NoopKey, V>, m1: map<NoopKey, V>, m2: map<NoopKey, V>, c: Oid)
    requires SameElsewhere(m0, m1, c) && SameElsewhere(m1, m2, c)
    ensures SameElsewhere(m0, m2, c)
  {
  }

  lemma NoopsInStep(repo: Repo, lastApply: map<Host, Oid>, all: set<Host>, hosts: set<Host>, c: Oid,
                    w0: View, w1: View, w2: View,
                    e: ApplyCall, host: Host, r: Collected, active0: set<Host>, active: set<Host>)
    requires NoopsIn(repo, lastApply, hosts, c, w0, w1)
    requires FiledFor(e, host, c, r, active0, active, w1, w2)
    requires SameVersions(w1.versions, w2.versions)
    requires KnowsLastApplies(lastApply, w0.versions, repo.parents.Keys, all) && host in all
    requires host in lastApply && lastApply[host] in repo.parents
    requires !LoadFrom(repo, lastApply, w0.stored, host, c).Loaded?
    requires e.before == VersionAt(w1.versions, host)
    ensures NoopsIn(repo, lastApply, if r.Filed? then hosts + {host} else hosts, c, w0, w2)
  {
    hide LoadFrom, Reported, StillLoads, SameElsewhere;
    SameFiled(host, c, w1, w2, e, r, active0, active);
    SameElsewhereOn(w0.reports, w1.reports, w2.reports, c);
    SameElsewhereOn(w0.stored, w1.stored, w2.stored, c);
    FiledAmongOthers(repo, lastApply, hosts, host, c, w0, w1, w2, e, r, active0, active);
  }

  /** How the nodes nooped so far were filed; `rest` still waits for its noop. */
  ghost predicate CollectedAs(all: set<Host>, noopHosts: set<Host>, rest: set<Host>, have: set<Host>, gone: set<Host>,
                              active: set<Host>, failed0: set<Host>, failed: set<Host>)
  {
    forall h ::
      && (h in active <==> h in have || h in rest) && !(h in have && h in rest)
      && (h in all <==> h in active || h in gone) && !(h in active && h in gone)
      && (h in rest ==> h in noopHosts) && (h in gone ==> h in noopHosts)
      && (h in failed <==> h in failed0 || h in gone)
  }

  lemma CollectedStep(all: set<Host>, noopHosts: set<Host>, rest: set<Host>, have: set<Host>, gone: set<Host>,
                      active: set<Host>, failed0: set<Host>, failed: set<Host>, host: Host)
    requires CollectedAs(all, noopHosts, rest, have, gone, active, failed0, failed) && host in rest
    ensures CollectedAs(all, noopHosts, rest - {host}, have + {host}, gone, active, failed0, failed)
    ensures CollectedAs(all, noopHosts, rest - {host}, have, gone + {host}, active - {host}, failed0, failed + {host})
    ensures |rest - {host}| < |rest| && host in active && host in noopHosts
  {
  }

  /** Calls since `from` were noops of the commit, under granted locks. */
  ghost predicate NoopCalls(log: seq<ApplyCall>, from: nat, c: Oid) {
    from <= |log| && forall i :: from <= i < |log| ==> log[i].noop && log[i].rev == c && log[i].underGrant
  }

  lemma NoopCallsStep(log: seq<ApplyCall>, from: nat, c: Oid, e: ApplyCall)
    requires NoopCalls(log, from, c) && e.noop && e.rev == c && e.underGrant
    ensures NoopCalls(log + [e], from, c)
    ensures HonestSince(log + [e], from) <==> HonestSince(log, from) && Honest(e)
    ensures NamedSince(log + [e], from) <==> NamedSince(log, from) && Named(e)
  {
    assert (log + [e])[|log|] == e;
    assert forall i :: 0 <= i < |log| ==> (log + [e])[i] == log[i];
  }

  lemma CollectNone(log: seq<ApplyCall>, c: Oid)
    ensures NoopCalls(log, |log|, c)
  {
  }

  /** The state in which the noops of one commit were requested. */
  datatype Start = Start(all: set<Host>, noopHosts: set<Host>, failed: set<Host>, granted: set<Host>, calls: nat,
                         view: View)
  {
    ghost predicate Fits(repo: Repo, lastApply: map<Host, Oid>, c: Oid) {
      && noopHosts !! granted
      && (forall h :: h in noopHosts ==> h in lastApply && lastApply[h] in repo.parents
                                         && !LoadFrom(repo, lastApply, view.stored, h, c).Loaded?)
    }
  }

  /** The state while they come in: `rest` still waits for its noop, `have` has
      a report, `gone` has dropped out. */
  datatype Progress = Progress(rest: set<Host>, have: set<Host>, gone: set<Host>, active: set<Host>, failed: set<Host>,
                               granted: set<Host>, log: seq<ApplyCall>, view: View)
  {
    /** The noop of a host came in, by the call e. */
    ghost function Next(host: Host, r: Collected, e: ApplyCall, view: View): Progress {
      if r.Filed? then
        Progress(rest - {host}, have + {host}, gone, active, failed, granted - {host}, log + [e], view)
      else
        Progress(rest - {host}, have, gone + {host}, active - {host}, failed + {host}, granted - {host}, log + [e],
                 view)
    }
  }

  ghost predicate Collecting(s: Start, repo: Repo, lastApply: map<Host, Oid>, c: Oid, p: Progress) {
    && s.Fits(repo, lastApply, c)
    && CollectedAs(s.all, s.noopHosts, p.rest, p.have, p.gone, p.active, s.failed, p.failed)
    && p.granted == s.granted + p.rest && NoopCalls(p.log, s.calls, c)
    && (NamedSince(p.log, s.calls) ==> Present(p.have, c, s.view, p.view))
    && (HonestSince(p.log, s.calls) && KnowsLastApplies(lastApply, s.view.versions, repo.parents.Keys, s.all) ==>
          NoopsIn(repo, lastApply, p.have, c, s.view, p.view))
  }

  lemma CollectStart(s: Start, repo: Repo, lastApply: map<Host, Oid>, fate: map<Host, Requested>, c: Oid,
                     w: View, log: seq<ApplyCall>, all: set<Host>, another: set<Host>)
    requires w.versions == s.view.versions && w.stored == s.view.stored
    requires RequestsFit(repo, lastApply, fate, c, s.view.reports, w.reports, s.view.stored)
    requires FiledAs(fate, all, {}, s.all, s.noopHosts, s.failed, another)
    requires s.noopHosts !! s.granted && |log| == s.calls
    ensures Collecting(s, repo, lastApply, c, Progress(s.noopHosts, Where(fate, HasReport), {}, s.all, s.failed,
                                                       s.granted + s.noopHosts, log, w))
  {
    hide LoadFrom;
    forall h ensures (h in s.all <==> h in Where(fate, HasReport) || h in s.noopHosts)
                     && !(h in Where(fate, HasReport) && h in s.noopHosts)
                     && (h in s.noopHosts ==> h in fate && fate[h] == Requested) {
      assert FiledHost(h, fate, all, {}, s.all, s.noopHosts, s.failed, another);
    }
    assert CollectedAs(s.all, s.noopHosts, s.noopHosts, Where(fate, HasReport), {}, s.all, s.failed, s.failed);
    assert NoopsIn(repo, lastApply, Where(fate, HasReport), c, s.view, w);
  }

  lemma CollectingStep(s: Start, repo: Repo, lastApply: map<Host, Oid>, c: Oid, p: Progress,
                       host: Host, r: Collected, e: ApplyCall, active: set<Host>, w: View)
    requires Collecting(s, repo, lastApply, c, p) && host in p.rest
    requires e.host == host && e.rev == c && e.noop && e.underGrant == (host in p.granted)
    requires e.before == VersionAt(p.view.versions, host)
    requires active == if r.NoReply? then p.active - {host} else p.active
    requires Named(e) ==> FiledUnder(host, c, r, p.view, w)
    requires Honest(e) ==>
              SameVersions(p.view.versions, w.versions) && FiledFor(e, host, c, r, p.active, active, p.view, w)
    ensures if r.BadReply? then !NamedSince(p.log + [e], s.calls)
            else Collecting(s, repo, lastApply, c, p.Next(host, r, e, w))
    ensures NoopCalls(p.log + [e], s.calls, c) && |p.rest - {host}| < |p.rest|
  {
    hide CollectedAs, NoopsIn, NoopCalls, HonestSince, NamedSince, FiledFor, FiledUnder, Present, Named, Honest;
    hide LoadFrom, KnowsLastApplies, SameVersions, Start.Fits;
    RestFits(s, repo, lastApply, c, p, host);
    CollectedStep(s.all, s.noopHosts, p.rest, p.have, p.gone, p.active, s.failed, p.failed, host);
    GrantedStep(p.granted, s.granted, p.rest, host);
    NoopCallsStep(p.log, s.calls, c, e);
    if NamedSince(p.log + [e], s.calls) {
      AnswersName(host, c, r, p.view, w);
      PresentStep(p.have, c, s.view, p.view, host, r, w);
    }
    if HonestSince(p.log + [e], s.calls) && KnowsLastApplies(lastApply, s.view.versions, repo.parents.Keys, s.all) {
      FiledWell(e, host, c, r, p.active, active, p.view, w);
      NoopsInStep(repo, lastApply, s.all, p.have, c, s.view, p.view, w, e, host, r, p.active, active);
    }
  }

  lemma RestFits(s: Start, repo: Repo, lastApply: map<Host, Oid>, c: Oid, p: Progress, host: Host)
    requires s.Fits(repo, lastApply, c) && host in p.rest
    requires CollectedAs(s.all, s.noopHosts, p.rest, p.have, p.gone, p.active, s.failed, p.failed)
    ensures host in s.noopHosts && host !in s.granted && host in s.all
    ensures host in lastApply && lastApply[host] in repo.parents
    ensures !LoadFrom(repo, lastApply, s.view.stored, host, c).Loaded?
  {
  }

  lemma GrantedStep(granted: set<Host>, base: set<Host>, rest: set<Host>, host: Host)
    requires granted == base + rest && host in rest && host !in base
    ensures granted - {host} == base + (rest - {host})
  {
  }

  lemma AnswersName(host: Host, c: Oid, r: Collected, w0: View, w: View)
    requires FiledUnder(host, c, r, w0, w)
    ensures !r.BadReply?
  {
  }

  lemma FiledWell(e: ApplyCall, host: Host, c: Oid, r: Collected, active0: set<Host>, active: set<Host>,
                  w0: View, w: View)
    requires FiledFor(e, host, c, r, active0, active, w0, w)
    ensures !r.BadReply?
  {
  }

  lemma CollectedInside(s: Start, repo: Repo, lastApply: map<Host, Oid>, c: Oid, p: Progress)
    requires Collecting(s, repo, lastApply, c, p)
    ensures p.rest <= p.active
    ensures p.rest == {} ==> p.gone <= s.all && p.active == s.all - p.gone == p.have && p.failed == s.failed + p.gone
                             && p.granted == s.granted
    ensures NoopCalls(p.log, s.calls, c)
    ensures NamedSince(p.log, s.calls) ==> Present(p.have, c, s.view, p.view)
    ensures HonestSince(p.log, s.calls) && KnowsLastApplies(lastApply, s.view.versions, repo.parents.Keys, s.all) ==>
              NoopsIn(repo, lastApply, p.have, c, s.view, p.view)
  {
  }

  /** A call since `from` to the node was not answered. */
  ghost predicate Unanswered(log: seq<ApplyCall>, from: nat, h: Host) {
    exists i :: from <= i < |log| && log[i].host == h && log[i].reply.ApplyError?
  }

  /** The nodes that dropped out are those whose noop call was not answered. */
  ghost predicate GoneAs(gone: set<Host>, log: seq<ApplyCall>, from: nat) {
    forall h :: h in gone <==> Unanswered(log, from, h)
  }

  lemma GoneStep(gone: set<Host>, log: seq<ApplyCall>, from: nat, e: ApplyCall)
    requires GoneAs(gone, log, from) && from <= |log|
    ensures GoneAs(if e.reply.ApplyError? then gone + {e.host} else gone, log + [e], from)
  {
    var more := log + [e];
    assert more[|log|] == e && forall i :: 0 <= i < |log| ==> more[i] == log[i];
    forall h ensures Unanswered(more, from, h) <==>
                     Unanswered(log, from, h) || (h == e.host && e.reply.ApplyError?) {
      if Unanswered(log, from, h) {
        var i :| from <= i < |log| && log[i].host == h && log[i].reply.ApplyError?;
        assert more[i].host == h && more[i].reply.ApplyError?;
      }
    }
  }

  /** Only unlock requests were answered since. */
  ghost predicate OnlyUnlocks(log0: seq<NodeAnswer>, log1: seq<NodeAnswer>) {
    log0 <= log1 && forall i :: |log0| <= i < |log1| ==> log1[i].LockAnswer? && log1[i].kind == UnlockReq
  }

  lemma UnlocksStep(log0: seq<NodeAnswer>, log1: seq<NodeAnswer>, log2: seq<NodeAnswer>, host: Host, user: User)
    requires OnlyUnlocks(log0, log1)
    requires exists status :: log2 == log1 + [LockAnswer(host, user, UnlockReq, "", status)]
    ensures OnlyUnlocks(log0, log2)
  {
  }

  /** Unlocking changes nothing about who was granted a lock. */
  lemma StillTold(fate: map<Host, Requested>, log1: seq<NodeAnswer>, log2: seq<NodeAnswer>, from: nat)
    requires FateTold(fate, log1, from) && OnlyUnlocks(log1, log2) && from <= |log1|
    ensures FateTold(fate, log2, from)
  {
    forall h, s: LockStatus ensures Told(log2, from, LockReq, h, s) <==> Told(log1, from, LockReq, h, s) {
      if Told(log1, from, LockReq, h, s) {
        var i :| from <= i < |log1| && log1[i].LockAnswer?
                 && log1[i].host == h && log1[i].kind == LockReq && log1[i].status == s;
        assert log2[i] == log1[i];
      }
    }
  }

  /** Takes the noops of the nodes just locked, unlocking each node when its noop is in. */
  method CollectNoops(ns: NodeSet, store: NoopStore, fleet: Fleet, repo: Repo, commit: Oid, noopHosts: set<Host>,
                      failed0: set<Host>, ghost s: Start, ghost p0: Progress)
    returns (crashed: bool, failed: set<Host>, ghost gone: set<Host>)
    requires fleet.granted <= fleet.Held() && |fleet.log| == s.calls
    requires p0.rest == noopHosts && p0.active == ns.active && p0.failed == failed0 && p0.granted == fleet.granted
    requires p0.log == fleet.log && p0.view == Snapshot(fleet, store) && Collecting(s, repo, ns.lastApply, commit, p0)
    requires p0.gone == {}
    modifies ns`active, store`reports, store`stored
    modifies fleet`locks, fleet`disturbed, fleet`granted, fleet`answers, fleet`versions, fleet`log
    ensures old(fleet.log) <= fleet.log && NoopCalls(fleet.log, s.calls, commit)
    ensures crashed ==> !NamedSince(fleet.log, s.calls)
    ensures !crashed ==> fleet.granted == s.granted && fleet.granted <= fleet.Held()
    ensures !crashed ==> gone <= s.all && ns.active == s.all - gone && failed == s.failed + gone
    ensures OnlyUnlocks(old(fleet.answers), fleet.answers)
    ensures !crashed ==> GoneAs(gone, fleet.log, s.calls)
    ensures !crashed && NamedSince(fleet.log, s.calls) ==> Present(ns.active, commit, s.view, Snapshot(fleet, store))
    ensures !crashed && HonestSince(fleet.log, s.calls)
            && KnowsLastApplies(ns.lastApply, s.view.versions, repo.parents.Keys, s.all) ==>
              NoopsIn(repo, ns.lastApply, ns.active, commit, s.view, Snapshot(fleet, store))
  {
    hide *;
    failed := failed0;
    var rest := noopHosts;
    ghost var p, answers0 := p0, fleet.answers;
    CollectedInside(s, repo, ns.lastApply, commit, p);
    NoneGone(p.log, answers0);
    while rest != {}
      invariant p.rest == rest && p.active == ns.active && p.failed == failed && p.granted == fleet.granted
      invariant p.log == fleet.log && p.view == Snapshot(fleet, store) && rest <= ns.active
      invariant fleet.granted <= fleet.Held() && old(fleet.log) <= fleet.log
      invariant Collecting(s, repo, ns.lastApply, commit, p)
      invariant OnlyUnlocks(answers0, fleet.answers) && GoneAs(p.gone, p.log, s.calls) && s.calls <= |p.log|
      decreases |rest|
    {
      var host :| host in rest;
      var r;
      ghost var e;
      ghost var answers1 := fleet.answers;
      r, e := CollectNoop(ns, store, fleet, host, commit);
      UnlocksStep(answers0, answers1, fleet.answers, host, fleet.client);
      GoneStep(p.gone, p.log, s.calls, e);
      CollectingStep(s, repo, ns.lastApply, commit, p, host, r, e, ns.active, Snapshot(fleet, store));
      if r.BadReply? {
        return true, failed, p.gone;
      }
      ProgressIs(p, host, r, e, Snapshot(fleet, store));
      p := p.Next(host, r, e, Snapshot(fleet, store));
      rest := rest - {host};
      if r.NoReply? {
        failed := failed + {host};
      }
      CollectedInside(s, repo, ns.lastApply, commit, p);
    }
    CollectedInside(s, repo, ns.lastApply, commit, p);
    return false, failed, p.gone;
  }

  lemma NoneGone(log: seq<ApplyCall>, answers: seq<NodeAnswer>)
    ensures GoneAs({}, log, |log|) && OnlyUnlocks(answers, answers)
  {
  }

  lemma ProgressIs(p: Progress, host: Host, r: Collected, e: ApplyCall, view: View)
    ensures var q := p.Next(host, r, e, view);
            && q.rest == p.rest - {host} && q.granted == p.granted - {host} && q.log == p.log + [e] && q.view == view
            && q.active == (if r.Filed? then p.active else p.active - {host})
            && q.failed == (if r.Filed? then p.failed else p.failed + {host})
            && q.gone == (if r.Filed? then p.gone else p.gone + {host})
  {
  }

  /** What stops hecklerd: a cached noop it cannot use, an answer for a node or
      a commit it did not ask about, or a report that is not there. */
  datatype Cause = BadFile | BadAnswer | NoReport

  datatype NoopResult = NoopsDone | TooManyErrors | Crash(cause: Cause)

  lemma SnapshotIs(fleet: Fleet, store: NoopStore)
    ensures Snapshot(fleet, store) == View(fleet.versions, store.reports, store.stored)
  {
  }

  lemma RoundFiled(fate: map<Host, Requested>, all: set<Host>, active1: set<Host>, noopHosts: set<Host>,
                   failed1: set<Host>, another: set<Host>, gone: set<Host>)
    requires FiledAs(fate, all, {}, active1, noopHosts, failed1, another) && gone <= active1
    ensures Dealt(all, active1 - gone, failed1 + gone, another) && active1 <= all
  {
    forall h ensures (h in all <==> h in active1 || h in failed1 || h in another)
                     && !(h in active1 && h in failed1) && !(h in active1 && h in another)
                     && !(h in failed1 && h in another)
    {
      assert FiledHost(h, fate, all, {}, active1, noopHosts, failed1, another);
    }
  }

  lemma KnowsFewer(lastApply: map<Host, Oid>, versions: map<Host, ConfVersion>, commits: set<Oid>,
                   all: set<Host>, hosts: set<Host>)
    requires hosts <= all
    ensures KnowsLastApplies(lastApply, versions, commits, all) ==>
              KnowsLastApplies(lastApply, versions, commits, hosts)
  {
  }

  lemma NoEntries(repo: Repo, lastApply: map<Host, Oid>, stored: map<NoopKey, StoredNoop>, hosts: set<Host>, c: Oid)
    ensures (forall h :: h in hosts ==> (h, c) !in stored) ==> Loadable(repo, lastApply, stored, hosts, c)
  {
  }

  /** Who dropped out of a round is told by the answers. */
  lemma RoundTold(fate: map<Host, Requested>, all: set<Host>, active1: set<Host>, noopHosts: set<Host>,
                  failed1: set<Host>, another: set<Host>, gone: set<Host>, answers: seq<NodeAnswer>, from: nat,
                  log: seq<ApplyCall>, start: nat)
    requires FiledAs(fate, all, {}, active1, noopHosts, failed1, another)
    requires FateTold(fate, answers, from) && GoneAs(gone, log, start)
    ensures forall h :: h in another <==> Told(answers, from, LockReq, h, LockedByAnother)
    ensures forall h :: h in failed1 + gone <==>
                        Told(answers, from, LockReq, h, LockUnknown) || Unanswered(log, start, h)
  {
    hide Told, Unanswered;
    forall h ensures (h in another <==> Told(answers, from, LockReq, h, LockedByAnother))
                     && (h in failed1 <==> Told(answers, from, LockReq, h, LockUnknown)) {
      assert FiledHost(h, fate, all, {}, active1, noopHosts, failed1, another);
    }
  }

  /** Noops a commit on every active node; nodes that cannot be locked or nooped
      are dropped. Whatever happens short of a crash, no lock is kept. */
  method NoopNodeSet(ns: NodeSet, store: NoopStore, fleet: Fleet, repo: Repo, commit: Oid, lockMsg: string)
    returns (res: NoopResult, ghost failed: set<Host>, ghost another: set<Host>)
    requires fleet.granted <= fleet.Held()
    requires KnownCommits(repo, ns.lastApply, ns.active)
    modifies ns`active, ns`errored, ns`lockedByAnother, store`reports, store`stored
    modifies fleet`locks, fleet`disturbed, fleet`granted, fleet`answers, fleet`versions, fleet`log
    ensures old(fleet.log) <= fleet.log && NoopCalls(fleet.log, |old(fleet.log)|, commit)
    ensures res.Crash? ==> res.cause in {BadFile, BadAnswer}
    ensures res == Crash(BadFile) <==> !Loadable(repo, ns.lastApply, old(store.stored), old(ns.active), commit)
    ensures (forall h :: h in old(ns.active) ==> (h, commit) !in old(store.stored)) ==> res != Crash(BadFile)
    ensures res == Crash(BadAnswer) ==> !NamedSince(fleet.log, |old(fleet.log)|)
    ensures !res.Crash? ==> fleet.granted == old(fleet.granted) && fleet.granted <= fleet.Held()
    ensures !res.Crash? ==> Dealt(old(ns.active), ns.active, failed, another)
                            && ns.errored == old(ns.errored) + failed
                            && ns.lockedByAnother == old(ns.lockedByAnother) + another
                            && (res.NoopsDone? <==> !ns.ThresholdExceeded())
    ensures !res.Crash? ==> forall h :: h in another <==>
              Told(fleet.answers, |old(fleet.answers)|, LockReq, h, LockedByAnother)
    ensures !res.Crash? ==> forall h :: h in failed <==>
              Told(fleet.answers, |old(fleet.answers)|, LockReq, h, LockUnknown)
              || Unanswered(fleet.log, |old(fleet.log)|, h)
    ensures !res.Crash? && NamedSince(fleet.log, |old(fleet.log)|) ==>
              Present(ns.active, commit, old(Snapshot(fleet, store)), Snapshot(fleet, store))
    ensures !res.Crash? && HonestSince(fleet.log, |old(fleet.log)|)
            && KnowsLastApplies(ns.lastApply, old(fleet.versions), repo.parents.Keys, old(ns.active)) ==>
              NoopsIn(repo, ns.lastApply, ns.active, commit, old(Snapshot(fleet, store)), Snapshot(fleet, store))
  {
    hide *;
    ghost var all, g0, w0, log0 := ns.active, fleet.granted, Snapshot(fleet, store), fleet.log;
    ghost var answers0 := fleet.answers;
    SnapshotIs(fleet, store);
    ghost var fate, gone;
    CollectNone(log0, commit);
    var crashed, noopHosts, errNoop, anotherNoop;
    crashed, noopHosts, errNoop, anotherNoop, fate := RequestNoops(ns, store, fleet, repo, commit, lockMsg);
    failed, another := errNoop, anotherNoop;
    ghost var answers1 := fleet.answers;
    NoEntries(repo, ns.lastApply, store.stored, all, commit);
    if crashed {
      return Crash(BadFile), failed, another;
    }
    ghost var active1 := ns.active;
    ghost var s := Start(active1, noopHosts, errNoop, g0, |log0|, w0);
    ghost var p := Progress(noopHosts, Where(fate, HasReport), {}, active1, errNoop, fleet.granted, log0,
                            Snapshot(fleet, store));
    SnapshotIs(fleet, store);
    CollectStart(s, repo, ns.lastApply, fate, commit, Snapshot(fleet, store), log0, all, anotherNoop);
    crashed, errNoop, gone := CollectNoops(ns, store, fleet, repo, commit, noopHosts, errNoop, s, p);
    if crashed {
      return Crash(BadAnswer), failed, another;
    }
    RoundFiled(fate, all, active1, noopHosts, failed, another, gone);
    StillTold(fate, answers1, fleet.answers, |answers0|);
    RoundTold(fate, all, active1, noopHosts, failed, another, gone, fleet.answers, |answers0|, fleet.log, |log0|);
    KnowsFewer(ns.lastApply, w0.versions, repo.parents.Keys, all, active1);
    failed := errNoop;
    ns.errored := ns.errored + errNoop;
    ns.lockedByAnother := ns.lockedByAnother + anotherNoop;
    return if ns.ThresholdExceeded() then TooManyErrors else NoopsDone, failed, another;
  }
}
