/** The report on one commit: noop it and its parents on every node, subtract
    the parents, and group what is left. */
module GroupReports {
  import opened Wrappers
  import opened CommitGraph
  import opened NoopReports
  import opened Fleets
  import opened NodeSets
  import opened NoopRuns
  import Grouping

  ghost predicate InLineages(repo: Repo, lastApply: map<Host, Oid>, hosts: set<Host>, c: Oid)
    requires c in repo.parents
  {
    forall h :: h in hosts && h in lastApply && lastApply[h] != ZERO_OID ==> CommitInNodeLineage(repo, c, lastApply[h])
  }

  method CommitInAllNodeLineages(repo: Repo, lastApply: map<Host, Oid>, hosts: set<Host>, commit: Oid) returns (r: bool)
    requires commit in repo.parents && KnownCommits(repo, lastApply, hosts) && ZERO_OID !in repo.parents
    ensures r <==> InLineages(repo, lastApply, hosts, commit)
    ensures r <==> forall h :: h in hosts ==>
              commit in History(repo, lastApply[h]) || lastApply[h] in History(repo, commit)
  {
    var rest := hosts;
    while rest != {}
      invariant rest <= hosts && InLineages(repo, lastApply, hosts - rest, commit)
      decreases |rest|
    {
      var host :| host in rest;
      if !CommitInNodeLineage(repo, commit, lastApply[host]) {
        return false;
      }
      rest := rest - {host};
    }
    assert hosts - rest == hosts;
    return true;
  }

  ghost predicate AllReported(reports: map<NoopKey, Report>, h: Host, ps: seq<Oid>) {
    forall i :: 0 <= i < |ps| ==> (h, ps[i]) in reports
  }

  function ReportsOf(reports: map<NoopKey, Report>, h: Host, ps: seq<Oid>): (r: seq<Report>)
    requires AllReported(reports, h, ps)
    ensures |r| == |ps| && forall i :: 0 <= i < |ps| ==> r[i] == reports[(h, ps[i])]
  {
    seq(|ps|, i requires 0 <= i < |ps| => reports[(h, ps[i])])
  }

  /** The reports of the parents, and whether one of them failed; a missing one is fatal. */
  method CommitParentReports(parents: seq<Oid>, reports: map<NoopKey, Report>, host: Host)
    returns (missing: bool, parentEvalErrors: bool, parentReports: seq<Report>)
    ensures missing <==> !AllReported(reports, host, parents)
    ensures !missing ==> parentReports == ReportsOf(reports, host, parents)
    ensures !missing ==> (parentEvalErrors <==> exists i :: 0 <= i < |parents| && reports[(host, parents[i])].failed)
  {
    parentReports, parentEvalErrors := [], false;
    for i := 0 to |parents|
      invariant |parentReports| == i
      invariant forall j :: 0 <= j < i ==>
                (host, parents[j]) in reports && parentReports[j] == reports[(host, parents[j])]
      invariant parentEvalErrors <==> exists j :: 0 <= j < i && reports[(host, parents[j])].failed
    {
      if (host, parents[i]) !in reports {
        return true, parentEvalErrors, parentReports;
      }
      var parentReport := reports[(host, parents[i])];
      parentReports := parentReports + [parentReport];
      if parentReport.failed {
        parentEvalErrors := true;
      }
    }
    return false, parentEvalErrors, parentReports;
  }

  // ------------------------------------------------------ what has to be nooped

  /** An empty report stands for a parent that must not be subtracted. */
  ghost predicate Substituted(reports: map<NoopKey, Report>, hosts: set<Host>, p: Oid) {
    forall h :: h in hosts ==> (h, p) in reports && reports[(h, p)] == EMPTY_REPORT
  }

  method Substitute(store: NoopStore, hosts: set<Host>, p: Oid)
    modifies store`reports
    ensures Substituted(store.reports, hosts, p) && SameElsewhere(old(store.reports), store.reports, p)
  {
    var rest := hosts;
    while rest != {}
      invariant rest <= hosts && Substituted(store.reports, hosts - rest, p)
      invariant SameElsewhere(old(store.reports), store.reports, p)
      decreases |rest|
    {
      var host :| host in rest;
      store.reports := store.reports[(host, p) := EMPTY_REPORT];
      rest := rest - {host};
    }
    assert hosts - rest == hosts;
  }

  /** Whether a parent is nooped and subtracted. */
  ghost predicate IsNooped(repo: Repo, lastApply: map<Host, Oid>, hosts: set<Host>, deltaNoop: bool, p: Oid)
    requires p in repo.parents
  {
    deltaNoop && InLineages(repo, lastApply, hosts, p)
  }

  /** The first parents were sorted out: to be nooped, or replaced by empty reports. */
  ghost predicate SortedOut(repo: Repo, lastApply: map<Host, Oid>, hosts: set<Host>, deltaNoop: bool, parents: seq<Oid>,
                            ids: seq<Oid>, reports: map<NoopKey, Report>)
  {
    forall i :: 0 <= i < |parents| && parents[i] in repo.parents ==>
                  if IsNooped(repo, lastApply, hosts, deltaNoop, parents[i]) then parents[i] in ids
                  else parents[i] !in ids && Substituted(reports, hosts, parents[i])
  }

  /** The commit, and of its parents only those to be nooped. */
  ghost predicate OnlyNooped(repo: Repo, lastApply: map<Host, Oid>, hosts: set<Host>, deltaNoop: bool, commit: Oid,
                             parents: seq<Oid>, ids: seq<Oid>)
  {
    && |ids| > 0 && ids[0] == commit
    && (forall i :: 0 < i < |ids| ==> ids[i] in repo.parents && commit in repo.parents && ids[i] in repo.parents[commit]
                                      && ids[i] in parents && IsNooped(repo, lastApply, hosts, deltaNoop, ids[i]))
    && (Distinct(parents) ==> Distinct(ids))
  }

  lemma SortStep(repo: Repo, lastApply: map<Host, Oid>, hosts: set<Host>, deltaNoop: bool, commit: Oid,
                 parents: seq<Oid>,
                 ids: seq<Oid>, reports1: map<NoopKey, Report>, p: Oid, reports2: map<NoopKey, Report>)
    requires commit in repo.parents && p in repo.parents[commit]
    requires OnlyNooped(repo, lastApply, hosts, deltaNoop, commit, parents, ids)
    requires SortedOut(repo, lastApply, hosts, deltaNoop, parents, ids, reports1)
    ensures p in repo.parents
    ensures IsNooped(repo, lastApply, hosts, deltaNoop, p) ==>
              && OnlyNooped(repo, lastApply, hosts, deltaNoop, commit, parents + [p], ids + [p])
              && SortedOut(repo, lastApply, hosts, deltaNoop, parents + [p], ids + [p], reports1)
    ensures !IsNooped(repo, lastApply, hosts, deltaNoop, p)
            && Substituted(reports2, hosts, p) && SameElsewhere(reports1, reports2, p) ==>
              OnlyNooped(repo, lastApply, hosts, deltaNoop, commit, parents + [p], ids)
              && SortedOut(repo, lastApply, hosts, deltaNoop, parents + [p], ids, reports2)
  {
    hide InLineages, CommitInNodeLineage;
    var all := parents + [p];
    assert forall c :: c in parents ==> c in all;
    DistinctStep(parents, p);
    DistinctStep(ids, p);
    if IsNooped(repo, lastApply, hosts, deltaNoop, p) {
      forall i | 0 <= i < |all| && all[i] in repo.parents
        ensures if IsNooped(repo, lastApply, hosts, deltaNoop, all[i]) then all[i] in ids + [p]
                else all[i] !in ids + [p] && Substituted(reports1, hosts, all[i])
      {
        if i < |parents| { assert all[i] == parents[i]; }
      }
    } else {
      assert p !in ids;
      forall i | 0 <= i < |all| && all[i] in repo.parents && Substituted(reports2, hosts, p)
                 && SameElsewhere(reports1, reports2, p)
        ensures if IsNooped(repo, lastApply, hosts, deltaNoop, all[i]) then all[i] in ids
                else all[i] !in ids && Substituted(reports2, hosts, all[i])
      {
        if i < |parents| { assert all[i] == parents[i]; }
      }
    }
  }

  /** The commits to noop: the commit, and its parents in every lineage. */
  method CommitsToNoop(ns: NodeSet, store: NoopStore, repo: Repo, commit: Oid, deltaNoop: bool) returns (ids: seq<Oid>)
    requires commit in repo.parents && KnownCommits(repo, ns.lastApply, ns.active) && ZERO_OID !in repo.parents
    modifies store`reports
    ensures OnlyNooped(repo, ns.lastApply, ns.active, deltaNoop, commit, repo.parents[commit], ids)
    ensures SortedOut(repo, ns.lastApply, ns.active, deltaNoop, repo.parents[commit], ids, store.reports)
  {
    hide SortedOut, OnlyNooped, InLineages, SameElsewhere, Substituted;
    ids := [commit];
    var parents := repo.parents[commit];
    SortNone(repo, ns.lastApply, ns.active, deltaNoop, commit, store.reports);
    for i := 0 to |parents|
      invariant OnlyNooped(repo, ns.lastApply, ns.active, deltaNoop, commit, parents[..i], ids)
      invariant SortedOut(repo, ns.lastApply, ns.active, deltaNoop, parents[..i], ids, store.reports)
    {
      ghost var reports1 := store.reports;
      assert parents[i] in parents && parents[..i+1] == parents[..i] + [parents[i]];
      SortStep(repo, ns.lastApply, ns.active, deltaNoop, commit, parents[..i], ids, reports1, parents[i], reports1);
      var inLineages := CommitInAllNodeLineages(repo, ns.lastApply, ns.active, parents[i]);
      if deltaNoop && inLineages {
        ids := ids + [parents[i]];
      } else {
        Substitute(store, ns.active, parents[i]);
        SortStep(repo, ns.lastApply, ns.active, deltaNoop, commit, parents[..i], ids, reports1, parents[i],
                 store.reports);
      }
    }
    assert parents[..|parents|] == parents;
  }

  /** Which parents are nooped, in terms of histories. */
  lemma NoopedByLineage(repo: Repo, lastApply: map<Host, Oid>, hosts: set<Host>, deltaNoop: bool, commit: Oid,
                        ids: seq<Oid>, reports: map<NoopKey, Report>)
    requires commit in repo.parents && KnownCommits(repo, lastApply, hosts) && ZERO_OID !in repo.parents
    requires OnlyNooped(repo, lastApply, hosts, deltaNoop, commit, repo.parents[commit], ids)
    requires SortedOut(repo, lastApply, hosts, deltaNoop, repo.parents[commit], ids, reports)
    ensures forall c :: c in ids <==>
              c == commit
              || (c in repo.parents[commit] && deltaNoop
                  && forall h :: h in hosts ==> c in History(repo, lastApply[h]) || lastApply[h] in History(repo, c))
    ensures forall p, h :: p in repo.parents[commit] && p !in ids && h in hosts ==>
                             (h, p) in reports && reports[(h, p)] == EMPTY_REPORT
  {
    hide CommitInNodeLineage, InLineages, History;
    forall c ensures c in ids <==> c == commit || (c in repo.parents[commit]
                                                   && IsNooped(repo, lastApply, hosts, deltaNoop, c)) {
      if c in ids && c != commit {
        var i :| 0 <= i < |ids| && ids[i] == c;
      }
      if c in repo.parents[commit] {
        var i :| 0 <= i < |repo.parents[commit]| && repo.parents[commit][i] == c;
      }
    }
    forall c | c in repo.parents[commit]
      ensures InLineages(repo, lastApply, hosts, c)
          <==> forall h :: h in hosts ==> c in History(repo, lastApply[h]) || lastApply[h] in History(repo, c)
    {
      LineagesSpelled(repo, lastApply, hosts, c);
    }
    forall p, h | p in repo.parents[commit] && p !in ids && h in hosts
      ensures (h, p) in reports && reports[(h, p)] == EMPTY_REPORT
    {
      var i :| 0 <= i < |repo.parents[commit]| && repo.parents[commit][i] == p;
      assert Substituted(reports, hosts, p);
    }
  }

  lemma LineagesSpelled(repo: Repo, lastApply: map<Host, Oid>, hosts: set<Host>, c: Oid)
    requires c in repo.parents && KnownCommits(repo, lastApply, hosts) && ZERO_OID !in repo.parents
    ensures InLineages(repo, lastApply, hosts, c)
        <==> forall h :: h in hosts ==> c in History(repo, lastApply[h]) || lastApply[h] in History(repo, c)
  {
    hide History;
  }

  lemma SortNone(repo: Repo, lastApply: map<Host, Oid>, hosts: set<Host>, deltaNoop: bool, commit: Oid,
                 reports: map<NoopKey, Report>)
    ensures OnlyNooped(repo, lastApply, hosts, deltaNoop, commit, [], [commit])
    ensures SortedOut(repo, lastApply, hosts, deltaNoop, [], [commit], reports)
  {
  }

  // ----------------------------------------------------------- nooping them all

  ghost predicate SameOff<V>(m0: map<NoopKey, V>, m1: map<NoopKey, V>, ids: seq<Oid>) {
    forall k: NoopKey :: k.1 !in ids ==> (k in m0 <==> k in m1) && (k in m0 && k in m1 ==> m0[k] == m1[k])
  }

  /** Noops of some of the commits, under granted locks. */
  ghost predicate NoopsOf(log: seq<ApplyCall>, from: nat, ids: seq<Oid>) {
    from <= |log| && forall i :: from <= i < |log| ==> log[i].noop && log[i].rev in ids && log[i].underGrant
  }

  /** The noops of these commits are in. */
  ghost predicate RoundsIn(repo: Repo, lastApply: map<Host, Oid>, hosts: set<Host>, ids: seq<Oid>,
                           w0: View, w: View)
  {
    && SameVersions(w0.versions, w.versions) && SameOff(w0.reports, w.reports, ids) && SameOff(w0.stored, w.stored, ids)
    && forall i :: 0 <= i < |ids| ==> Reported(repo, lastApply, w.reports, w.stored, hosts, ids[i])
                                      && StillLoads(repo, lastApply, w0.stored, w.stored, ids[i])
  }

  /** The same of reports alone: they are there for these commits, and nothing
      changed for the others. */
  ghost predicate RoundsPresent(hosts: set<Host>, ids: seq<Oid>, w0: View, w: View) {
    && SameOff(w0.reports, w.reports, ids) && SameOff(w0.stored, w.stored, ids)
    && forall i, h :: 0 <= i < |ids| && h in hosts ==> (h, ids[i]) in w.reports
  }

  lemma RoundsPresentStep(hosts1: set<Host>, ids: seq<Oid>, w0: View, w1: View, w2: View, id: Oid, hosts2: set<Host>)
    requires RoundsPresent(hosts1, ids, w0, w1) && Present(hosts2, id, w1, w2) && hosts2 <= hosts1
    ensures RoundsPresent(hosts2, ids + [id], w0, w2)
  {
    var all := ids + [id];
    assert id in all && forall c :: c in ids ==> c in all;
    forall i, h | 0 <= i < |all| && h in hosts2 ensures (h, all[i]) in w2.reports {
      if all[i] != id {
        var k: NoopKey := (h, ids[i]);
        assert k in w1.reports && k.1 != id;
      }
    }
  }

  lemma RoundsInStep(repo: Repo, lastApply: map<Host, Oid>, hosts1: set<Host>, ids: seq<Oid>,
                     w0: View, w1: View, w2: View,
                     id: Oid, hosts2: set<Host>)
    requires RoundsIn(repo, lastApply, hosts1, ids, w0, w1)
    requires NoopsIn(repo, lastApply, hosts2, id, w1, w2) && hosts2 <= hosts1
    ensures RoundsIn(repo, lastApply, hosts2, ids + [id], w0, w2)
  {
    hide Reported, StillLoads;
    var all := ids + [id];
    assert id in all && forall c :: c in ids ==> c in all;
    forall i | 0 <= i < |all|
      ensures Reported(repo, lastApply, w2.reports, w2.stored, hosts2, all[i])
      ensures StillLoads(repo, lastApply, w0.stored, w2.stored, all[i])
    {
      if all[i] == id {
        LoadsThrough(repo, lastApply, w0.stored, w1.stored, w2.stored, ids, id);
      } else {
        assert all[i] == ids[i];
        ReportedElsewhere(repo, lastApply, hosts1, hosts2, w1.reports, w2.reports, w0.stored, w1.stored, w2.stored,
                          ids[i], id);
      }
    }
  }

  /** Nooping one commit leaves the noops of another as they are. */
  lemma ReportedElsewhere(repo: Repo, lastApply: map<Host, Oid>, hosts1: set<Host>, hosts2: set<Host>,
                          reports1: map<NoopKey, Report>, reports2: map<NoopKey, Report>,
                          stored0: map<NoopKey, StoredNoop>, stored1: map<NoopKey, StoredNoop>,
                          stored2: map<NoopKey, StoredNoop>, c: Oid, id: Oid)
    requires c != id && hosts2 <= hosts1 && Reported(repo, lastApply, reports1, stored1, hosts1, c)
    requires StillLoads(repo, lastApply, stored0, stored1, c)
    requires SameElsewhere(reports1, reports2, id) && SameElsewhere(stored1, stored2, id)
    ensures Reported(repo, lastApply, reports2, stored2, hosts2, c) && StillLoads(repo, lastApply, stored0, stored2, c)
  {
    hide LoadNoop;
    forall h ensures StoredAt(stored2, h, c) == StoredAt(stored1, h, c)
             ensures (h, c) in reports1 ==> (h, c) in reports2 && reports2[(h, c)] == reports1[(h, c)] {
      var k: NoopKey := (h, c);
      assert k.1 != id;
    }
  }

  lemma LoadsThrough(repo: Repo, lastApply: map<Host, Oid>, stored0: map<NoopKey, StoredNoop>,
                     stored1: map<NoopKey, StoredNoop>, stored2: map<NoopKey, StoredNoop>, ids: seq<Oid>, c: Oid)
    requires if c in ids then StillLoads(repo, lastApply, stored0, stored1, c) else SameOff(stored0, stored1, ids)
    requires StillLoads(repo, lastApply, stored1, stored2, c)
    ensures StillLoads(repo, lastApply, stored0, stored2, c)
  {
    hide LoadNoop;
    if c !in ids {
      forall h ensures StoredAt(stored1, h, c) == StoredAt(stored0, h, c) {
        var k: NoopKey := (h, c);
        assert k.1 !in ids;
      }
    }
  }

  lemma NoopsOfStep(log0: seq<ApplyCall>, from: nat, ids: seq<Oid>, log: seq<ApplyCall>, id: Oid)
    requires NoopsOf(log0, from, ids) && log0 <= log && NoopCalls(log, |log0|, id)
    ensures NoopsOf(log, from, ids + [id])
    ensures HonestSince(log, from) ==> HonestSince(log0, from) && HonestSince(log, |log0|)
    ensures NamedSince(log, from) ==> NamedSince(log0, from) && NamedSince(log, |log0|)
  {
  }

  ghost predicate AllLoadable(repo: Repo, lastApply: map<Host, Oid>, stored: map<NoopKey, StoredNoop>, hosts: set<Host>,
                              ids: seq<Oid>)
  {
    Distinct(ids) && forall i :: 0 <= i < |ids| ==> Loadable(repo, lastApply, stored, hosts, ids[i])
  }

  /** The noops of several commits, as far as they are in. Reports are there when
      Puppet named nodes and commits truly from call `from` on; they are current
      when it was honest and the last applies were known. */
  ghost predicate Rounds(repo: Repo, lastApply: map<Host, Oid>, all: set<Host>, active: set<Host>, ids: seq<Oid>,
                         log: seq<ApplyCall>, from: nat, w0: View, w: View)
  {
    && active <= all && NoopsOf(log, from, ids) && KnownCommits(repo, lastApply, all)
    && (NamedSince(log, from) ==> RoundsPresent(active, ids, w0, w))
    && (HonestSince(log, from) && KnowsLastApplies(lastApply, w0.versions, repo.parents.Keys, all) ==>
          RoundsIn(repo, lastApply, active, ids, w0, w))
  }

  lemma RoundsStart(repo: Repo, lastApply: map<Host, Oid>, all: set<Host>, log: seq<ApplyCall>, w: View)
    requires KnownCommits(repo, lastApply, all)
    ensures Rounds(repo, lastApply, all, all, [], log, |log|, w, w)
    ensures Dealt(all, all, {}, {})
  {
  }

  lemma KnownFewer(repo: Repo, lastApply: map<Host, Oid>, all: set<Host>, hosts: set<Host>)
    requires KnownCommits(repo, lastApply, all) && hosts <= all
    ensures KnownCommits(repo, lastApply, hosts)
  {
  }

  lemma StillKnown(lastApply: map<Host, Oid>, v0: map<Host, ConfVersion>, v: map<Host, ConfVersion>, commits: set<Oid>,
                   all: set<Host>, hosts: set<Host>)
    requires KnowsLastApplies(lastApply, v0, commits, all) && SameVersions(v0, v) && hosts <= all
    ensures KnowsLastApplies(lastApply, v, commits, hosts)
  {
  }

  lemma RoundsStep(repo: Repo, lastApply: map<Host, Oid>, all: set<Host>, active1: set<Host>, ids: seq<Oid>,
                   log1: seq<ApplyCall>, from: nat,
                   w0: View, w1: View, w2: View,
                   id: Oid, log2: seq<ApplyCall>, active2: set<Host>)
    requires Rounds(repo, lastApply, all, active1, ids, log1, from, w0, w1)
    requires log1 <= log2 && NoopCalls(log2, |log1|, id) && active2 <= active1
    requires NamedSince(log2, |log1|) ==> Present(active2, id, w1, w2)
    requires HonestSince(log2, |log1|) && KnowsLastApplies(lastApply, w1.versions, repo.parents.Keys, active1) ==>
               NoopsIn(repo, lastApply, active2, id, w1, w2)
    ensures Rounds(repo, lastApply, all, active2, ids + [id], log2, from, w0, w2)
  {
    hide RoundsIn, NoopsIn, NoopsOf, NoopCalls, HonestSince, NamedSince, RoundsPresent, Present;
    hide KnowsLastApplies, KnownCommits;
    NoopsOfStep(log1, from, ids, log2, id);
    if NamedSince(log2, from) {
      RoundsPresentStep(active1, ids, w0, w1, w2, id, active2);
    }
    if HonestSince(log2, from) && KnowsLastApplies(lastApply, w0.versions, repo.parents.Keys, all) {
      RoundsInVersions(repo, lastApply, active1, ids, w0, w1);
      StillKnown(lastApply, w0.versions, w1.versions, repo.parents.Keys, all, active1);
      RoundsInStep(repo, lastApply, active1, ids, w0, w1, w2, id, active2);
    }
  }

  lemma RoundsInVersions(repo: Repo, lastApply: map<Host, Oid>, hosts: set<Host>, ids: seq<Oid>,
                         w0: View, w: View)
    requires RoundsIn(repo, lastApply, hosts, ids, w0, w)
    ensures SameVersions(w0.versions, w.versions) && SameOff(w0.stored, w.stored, ids)
  {
  }

  lemma DroppedMore(all: set<Host>, active1: set<Host>, failed: set<Host>, another: set<Host>,
                    active2: set<Host>, f: set<Host>, a: set<Host>)
    requires Dealt(all, active1, failed, another) && Dealt(active1, active2, f, a)
    ensures Dealt(all, active2, failed + f, another + a) && active2 <= active1
  {
  }

  /** A file that cannot be used was there from the start. */
  lemma BadFileBefore(repo: Repo, lastApply: map<Host, Oid>, all: set<Host>, active: set<Host>, ids: seq<Oid>, i: nat,
                      log1: seq<ApplyCall>, from: nat, w0: View, w1: View)
    requires i < |ids| && Rounds(repo, lastApply, all, active, ids[..i], log1, from, w0, w1)
    requires !Loadable(repo, lastApply, w1.stored, active, ids[i])
    ensures !(NamedSince(log1, from) && AllLoadable(repo, lastApply, w0.stored, all, ids))
  {
    hide RoundsIn, Loadable;
    if NamedSince(log1, from) && AllLoadable(repo, lastApply, w0.stored, all, ids) {
      LoadableOff(repo, lastApply, w0.stored, w1.stored, ids[..i], all, active, ids[i]);
    }
  }

  lemma LoadableOff(repo: Repo, lastApply: map<Host, Oid>, stored0: map<NoopKey, StoredNoop>,
                    stored1: map<NoopKey, StoredNoop>, ids: seq<Oid>, all: set<Host>, active: set<Host>, c: Oid)
    requires SameOff(stored0, stored1, ids) && c !in ids && active <= all && Loadable(repo, lastApply, stored0, all, c)
    ensures Loadable(repo, lastApply, stored1, active, c)
  {
    hide LoadNoop;
    forall h | h in active ensures StoredAt(stored1, h, c) == StoredAt(stored0, h, c) {
      var k: NoopKey := (h, c);
      assert k.1 !in ids;
    }
  }

  lemma NoopsOfOne(log1: seq<ApplyCall>, from: nat, ids: seq<Oid>, i: nat, log2: seq<ApplyCall>)
    requires i < |ids| && NoopsOf(log1, from, ids[..i]) && log1 <= log2 && NoopCalls(log2, |log1|, ids[i])
    ensures NoopsOf(log2, from, ids)
    ensures NamedSince(log2, from) ==> NamedSince(log1, from) && NamedSince(log2, |log1|)
  {
  }

  lemma RoundsNoops(repo: Repo, lastApply: map<Host, Oid>, all: set<Host>, active: set<Host>, ids: seq<Oid>,
                    log: seq<ApplyCall>, from: nat, w0: View, w: View)
    requires Rounds(repo, lastApply, all, active, ids, log, from, w0, w)
    ensures NoopsOf(log, from, ids)
  {
  }

  /** Noops the commits one after the other, on the nodes that are still there. */
  method NoopAll(ns: NodeSet, store: NoopStore, fleet: Fleet, repo: Repo, ids: seq<Oid>, lockMsg: string)
    returns (res: NoopResult, ghost failed: set<Host>, ghost another: set<Host>, ghost done: nat)
    requires fleet.granted <= fleet.Held() && KnownCommits(repo, ns.lastApply, ns.active)
    modifies ns`active, ns`errored, ns`lockedByAnother, store`reports, store`stored
    modifies fleet`locks, fleet`disturbed, fleet`granted, fleet`answers, fleet`versions, fleet`log
    ensures old(fleet.log) <= fleet.log && NoopsOf(fleet.log, |old(fleet.log)|, ids) && done <= |ids|
    ensures res.Crash? ==>
              && res.cause in {BadFile, BadAnswer}
              && !(NamedSince(fleet.log, |old(fleet.log)|)
                   && AllLoadable(repo, ns.lastApply, old(store.stored), old(ns.active), ids))
    ensures res == Crash(BadAnswer) ==> !NamedSince(fleet.log, |old(fleet.log)|)
    ensures res.TooManyErrors? ==> ns.ThresholdExceeded()
    ensures !res.Crash? ==> fleet.granted == old(fleet.granted) && fleet.granted <= fleet.Held()
    ensures !res.Crash? ==> Dealt(old(ns.active), ns.active, failed, another)
                            && ns.errored == old(ns.errored) + failed
                            && ns.lockedByAnother == old(ns.lockedByAnother) + another
    ensures !res.Crash? ==>
              Rounds(repo, ns.lastApply, old(ns.active), ns.active, ids[..done], fleet.log, |old(fleet.log)|,
                     old(Snapshot(fleet, store)), Snapshot(fleet, store))
    ensures res.NoopsDone? ==> done == |ids|
  {
    hide *;
    ghost var all, errored0, another0, w0, start :=
      ns.active, ns.errored, ns.lockedByAnother, Snapshot(fleet, store), |fleet.log|;
    failed, another, done := {}, {}, 0;
    SnapshotIs(fleet, store);
    RoundsStart(repo, ns.lastApply, all, fleet.log, w0);
    for i := 0 to |ids|
      invariant old(fleet.log) <= fleet.log && ns.active <= all && done == i
      invariant fleet.granted == old(fleet.granted) && fleet.granted <= fleet.Held()
      invariant Dealt(all, ns.active, failed, another)
      invariant ns.errored == errored0 + failed && ns.lockedByAnother == another0 + another
      invariant Rounds(repo, ns.lastApply, all, ns.active, ids[..i], fleet.log, start, w0,
                       Snapshot(fleet, store))
    {
      ghost var active1, w1, log1 := ns.active, Snapshot(fleet, store), fleet.log;
      SnapshotIs(fleet, store);
      KnownFewer(repo, ns.lastApply, all, active1);
      var res1;
      ghost var f1, a1;
      res1, f1, a1 := NoopNodeSet(ns, store, fleet, repo, ids[i], lockMsg);
      assert ids[..i+1] == ids[..i] + [ids[i]];
      if res1.Crash? {
        RoundsNoops(repo, ns.lastApply, all, active1, ids[..i], log1, start, w0, w1);
        NoopsOfOne(log1, start, ids, i, fleet.log);
        if res1.cause.BadFile? {
          BadFileBefore(repo, ns.lastApply, all, active1, ids, i, log1, start, w0, w1);
        }
        return res1, failed, another, done;
      }
      DroppedMore(all, active1, failed, another, ns.active, f1, a1);
      failed, another := failed + f1, another + a1;
      RoundsStep(repo, ns.lastApply, all, active1, ids[..i], log1, start, w0, w1, Snapshot(fleet, store),
                 ids[i], fleet.log, ns.active);
      done := i + 1;
      if res1.TooManyErrors? {
        RoundsCalls(repo, ns.lastApply, all, ns.active, ids, i+1, fleet.log, start, w0, Snapshot(fleet, store));
        return TooManyErrors, failed, another, done;
      }
    }
    assert ids[..|ids|] == ids;
    RoundsCalls(repo, ns.lastApply, all, ns.active, ids, |ids|, fleet.log, start, w0, Snapshot(fleet, store));
    return NoopsDone, failed, another, done;
  }

  lemma RoundsCalls(repo: Repo, lastApply: map<Host, Oid>, all: set<Host>, active: set<Host>, ids: seq<Oid>, i: nat,
                    log: seq<ApplyCall>, from: nat, w0: View, w: View)
    requires i <= |ids| && Rounds(repo, lastApply, all, active, ids[..i], log, from, w0, w)
    ensures NoopsOf(log, from, ids)
  {
  }

  // ------------------------------------------------------------------- deltas

  /** What becomes of a node when its delta is made. */
  datatype Made = Made | EvalError | ParentEvalError | MissingReport | BadTitle

  /** A node's delta is its report less those of the parents, as far as none of them failed. */
  ghost predicate MadeFrom(m: Made, delta: map<Title, DeltaResource>, reports: map<NoopKey, Report>, host: Host,
                           commit: Oid, parents: seq<Oid>, ignored: IgnoreRule)
  {
    match m
    case EvalError => (host, commit) in reports && reports[(host, commit)].failed
    case ParentEvalError => (host, commit) in reports && !reports[(host, commit)].failed
                            && AllReported(reports, host, parents)
                            && exists i :: 0 <= i < |parents| && reports[(host, parents[i])].failed
    case MissingReport => (host, commit) !in reports || !AllReported(reports, host, parents)
    case BadTitle => (host, commit) in reports
                     && exists t :: t in reports[(host, commit)].resources && ignored(t).Failed?
    case Made => && (host, commit) in reports && AllReported(reports, host, parents)
                 && !reports[(host, commit)].failed
                 && (forall i :: 0 <= i < |parents| ==> !reports[(host, parents[i])].failed)
                 && delta == Subtract(reports[(host, commit)], ReportsOf(reports, host, parents), ignored)
  }

  method MakeDelta(reports: map<NoopKey, Report>, host: Host, commit: Oid, parents: seq<Oid>, ignored: IgnoreRule)
    returns (m: Made, delta: map<Title, DeltaResource>)
    ensures MadeFrom(m, delta, reports, host, commit, parents, ignored)
  {
    hide Subtract;
    delta := map[];
    if (host, commit) !in reports {
      return MissingReport, delta;
    }
    if reports[(host, commit)].failed {
      return EvalError, delta;
    }
    var missing, parentEvalErrors, parentReports := CommitParentReports(parents, reports, host);
    if missing {
      return MissingReport, delta;
    }
    if parentEvalErrors {
      return ParentEvalError, delta;
    }
    var d := SubtractNoops(reports[(host, commit)], parentReports, ignored);
    if d.Failed? {
      return BadTitle, delta;
    }
    return Made, d.value;
  }

  /** The nodes whose delta was made so far, and those that left with a failed noop. */
  ghost predicate DeltasAre(all: set<Host>, rest: set<Host>, active: set<Host>, evalErrors: set<Host>,
                            parentErrors: set<Host>, deltas: Grouping.Deltas, reports: map<NoopKey, Report>,
                            commit: Oid, parents: seq<Oid>, ignored: IgnoreRule)
  {
    forall h :: DeltaHost(h, all, rest, active, evalErrors, parentErrors, deltas, reports, commit, parents, ignored)
  }

  ghost predicate DeltaHost(h: Host, all: set<Host>, rest: set<Host>, active: set<Host>, evalErrors: set<Host>,
                            parentErrors: set<Host>, deltas: Grouping.Deltas, reports: map<NoopKey, Report>,
                            commit: Oid, parents: seq<Oid>, ignored: IgnoreRule)
  {
    && (h in all <==> h in active || h in evalErrors || h in parentErrors)
    && !(h in active && h in evalErrors) && !(h in active && h in parentErrors)
    && !(h in evalErrors && h in parentErrors)
    && (h in rest ==> h in active) && (h in deltas <==> h in active && h !in rest)
    && (h in evalErrors ==> MadeFrom(EvalError, map[], reports, h, commit, parents, ignored))
    && (h in parentErrors ==> MadeFrom(ParentEvalError, map[], reports, h, commit, parents, ignored))
    && (h in deltas ==> MadeFrom(Made, deltas[h], reports, h, commit, parents, ignored))
  }

  lemma DeltasStep(all: set<Host>, rest: set<Host>, active: set<Host>, evalErrors: set<Host>, parentErrors: set<Host>,
                   deltas: Grouping.Deltas, reports: map<NoopKey, Report>, commit: Oid, parents: seq<Oid>,
                   ignored: IgnoreRule, host: Host, m: Made, delta: map<Title, DeltaResource>)
    requires DeltasAre(all, rest, active, evalErrors, parentErrors, deltas, reports, commit, parents, ignored)
    requires host in rest && MadeFrom(m, delta, reports, host, commit, parents, ignored)
    ensures m == Made ==> DeltasAre(all, rest - {host}, active, evalErrors, parentErrors, deltas[host := delta],
                                    reports, commit, parents, ignored)
    ensures m == EvalError ==> DeltasAre(all, rest - {host}, active - {host}, evalErrors + {host}, parentErrors, deltas,
                                         reports, commit, parents, ignored)
    ensures m == ParentEvalError ==> DeltasAre(all, rest - {host}, active - {host}, evalErrors, parentErrors + {host},
                                               deltas, reports, commit, parents, ignored)
    ensures |rest - {host}| < |rest|
  {
    var rest2, deltas2 := rest - {host}, if m.Made? then deltas[host := delta] else deltas;
    var active2 := if m.Made? then active else active - {host};
    var evalErrors2 := if m.EvalError? then evalErrors + {host} else evalErrors;
    var parentErrors2 := if m.ParentEvalError? then parentErrors + {host} else parentErrors;
    if !m.Made? {
      MadeWithout(m, delta, reports, host, commit, parents, ignored);
    }
    forall k | m.Made? || m.EvalError? || m.ParentEvalError?
      ensures DeltaHost(k, all, rest2, active2, evalErrors2, parentErrors2, deltas2, reports, commit, parents, ignored)
    {
      assert DeltaHost(k, all, rest, active, evalErrors, parentErrors, deltas, reports, commit, parents, ignored);
    }
  }

  method MakeDeltas(ns: NodeSet, reports: map<NoopKey, Report>, commit: Oid, parents: seq<Oid>, ignored: IgnoreRule)
    returns (m: Made, evalErrors: set<Host>, parentErrors: set<Host>, deltas: Grouping.Deltas, ghost at: Host)
    modifies ns`active
    ensures m in {Made, MissingReport, BadTitle}
    ensures m.Made? ==> DeltasAre(old(ns.active), {}, ns.active, evalErrors, parentErrors, deltas,
                                  reports, commit, parents, ignored)
    ensures !m.Made? ==> at in old(ns.active) && MadeFrom(m, map[], reports, at, commit, parents, ignored)
  {
    hide MadeFrom, DeltasAre;
    evalErrors, parentErrors, deltas, at := {}, {}, map[], "";
    var rest := ns.active;
    ghost var all := ns.active;
    DeltasStart(all, reports, commit, parents, ignored);
    while rest != {}
      invariant DeltasAre(all, rest, ns.active, evalErrors, parentErrors, deltas, reports, commit, parents, ignored)
      invariant rest <= all
      decreases |rest|
    {
      var host :| host in rest;
      var m1, delta := MakeDelta(reports, host, commit, parents, ignored);
      DeltasStep(all, rest, ns.active, evalErrors, parentErrors, deltas, reports, commit, parents, ignored, host, m1,
                 delta);
      rest := rest - {host};
      match m1 {
        case Made =>
          deltas := deltas[host := delta];
        case EvalError =>
          evalErrors := evalErrors + {host};
          ns.active := ns.active - {host};
        case ParentEvalError =>
          parentErrors := parentErrors + {host};
          ns.active := ns.active - {host};
        case _ =>
          MadeWithout(m1, delta, reports, host, commit, parents, ignored);
          return m1, evalErrors, parentErrors, deltas, host;
      }
    }
    return Made, evalErrors, parentErrors, deltas, at;
  }

  lemma DeltasStart(all: set<Host>, reports: map<NoopKey, Report>, commit: Oid, parents: seq<Oid>, ignored: IgnoreRule)
    ensures DeltasAre(all, all, all, {}, {}, map[], reports, commit, parents, ignored)
  {
  }

  lemma MadeWithout(m: Made, delta: map<Title, DeltaResource>, reports: map<NoopKey, Report>, host: Host,
                    commit: Oid, parents: seq<Oid>, ignored: IgnoreRule)
    requires MadeFrom(m, delta, reports, host, commit, parents, ignored) && !m.Made?
    ensures MadeFrom(m, map[], reports, host, commit, parents, ignored)
  {
  }

  // ------------------------------------------------------------- the whole report

  datatype GroupedReport = GroupedReport(resources: seq<Grouping.GroupedResource>, evalErrors: set<Host>,
                                         parentErrors: set<Host>, errored: set<Host>, beyondRev: set<Host>,
                                         lockedByAnother: set<Host>)

  datatype Outcome = Died(cause: Cause) | Abandoned | NotInAllLineages | Grouped(report: GroupedReport)

  /** Deltas carry the title they are filed under. */
  lemma DeltaTitles(all: set<Host>, active: set<Host>, evalErrors: set<Host>, parentErrors: set<Host>,
                    deltas: Grouping.Deltas, reports: map<NoopKey, Report>, commit: Oid, parents: seq<Oid>,
                    ignored: IgnoreRule)
    requires DeltasAre(all, {}, active, evalErrors, parentErrors, deltas, reports, commit, parents, ignored)
    ensures Grouping.TitlesMatch(deltas) && deltas.Keys == active && active <= all
  {
    forall h ensures (h in deltas <==> h in active) && (h in active ==> h in all)
                     && (h in deltas ==> MadeFrom(Made, deltas[h], reports, h, commit, parents, ignored))
    {
      assert DeltaHost(h, all, {}, active, evalErrors, parentErrors, deltas, reports, commit, parents, ignored);
    }
  }

  /** The report of the node for the commit is a substitute for a commit it has,
      was taken against its last apply, or failed; and the cache holds it. */
  ghost predicate Current(repo: Repo, lastApply: map<Host, Oid>, w: View, h: Host, c: Oid)
    requires h in lastApply && lastApply[h] in repo.parents
  {
    && (h, c) in w.reports && Usable(repo, lastApply[h], c, w.reports[(h, c)])
    && LoadFrom(repo, lastApply, w.stored, h, c) == Loaded(w.reports[(h, c)])
  }

  lemma ReportedCurrent(repo: Repo, lastApply: map<Host, Oid>, w: View, hosts: set<Host>, c: Oid, h: Host)
    requires Reported(repo, lastApply, w.reports, w.stored, hosts, c) && h in hosts
    ensures h in lastApply && lastApply[h] in repo.parents && Current(repo, lastApply, w, h, c)
  {
    LoadedAreUsable(repo, lastApply[h], h, c, StoredAt(w.stored, h, c), w.reports[(h, c)]);
  }

  /** The report a parent's changes were subtracted with: a current one, or an
      empty substitute for a parent that is not nooped. */
  ghost predicate ParentUsed(repo: Repo, lastApply: map<Host, Oid>, hosts: set<Host>, deltaNoop: bool, w: View,
                             h: Host, p: Oid)
    requires h in lastApply && lastApply[h] in repo.parents
  {
    && p in repo.parents && (h, p) in w.reports
    && if IsNooped(repo, lastApply, hosts, deltaNoop, p) then Current(repo, lastApply, w, h, p)
       else w.reports[(h, p)] == EMPTY_REPORT
  }

  ghost predicate AllUsed(repo: Repo, lastApply: map<Host, Oid>, hosts: set<Host>, deltaNoop: bool, w: View,
                          h: Host, ps: seq<Oid>)
    requires h in lastApply && lastApply[h] in repo.parents
  {
    forall i :: 0 <= i < |ps| ==> ParentUsed(repo, lastApply, hosts, deltaNoop, w, h, ps[i])
  }

  /** No missing report: when Puppet names nodes and commits truly, every node
      that was nooped has the reports its delta needs. */
  lemma NothingMissing(repo: Repo, lastApply: map<Host, Oid>, hosts0: set<Host>, hosts: set<Host>, deltaNoop: bool,
                       commit: Oid, ids: seq<Oid>, w0: View, w: View, h: Host)
    requires commit in repo.parents && OnlyNooped(repo, lastApply, hosts0, deltaNoop, commit, repo.parents[commit], ids)
    requires SortedOut(repo, lastApply, hosts0, deltaNoop, repo.parents[commit], ids, w0.reports)
    requires RoundsPresent(hosts, ids, w0, w) && h in hosts && hosts <= hosts0
    ensures (h, commit) in w.reports && AllReported(w.reports, h, repo.parents[commit])
  {
    hide InLineages;
    var parents := repo.parents[commit];
    assert (h, ids[0]) in w.reports;
    forall i | 0 <= i < |parents| ensures (h, parents[i]) in w.reports {
      assert parents[i] in parents;
      if IsNooped(repo, lastApply, hosts0, deltaNoop, parents[i]) {
        var j :| 0 <= j < |ids| && ids[j] == parents[i];
      } else {
        var k: NoopKey := (h, parents[i]);
        assert k in w0.reports && k.1 !in ids;
      }
    }
  }

  /** And when it is honest, none of these reports is stale. */
  lemma ReportsCurrent(repo: Repo, lastApply: map<Host, Oid>, hosts0: set<Host>, hosts: set<Host>, deltaNoop: bool,
                       commit: Oid, ids: seq<Oid>, w0: View, w: View, h: Host)
    requires commit in repo.parents && OnlyNooped(repo, lastApply, hosts0, deltaNoop, commit, repo.parents[commit], ids)
    requires SortedOut(repo, lastApply, hosts0, deltaNoop, repo.parents[commit], ids, w0.reports)
    requires RoundsIn(repo, lastApply, hosts, ids, w0, w)
    requires h in hosts && hosts <= hosts0
    ensures h in lastApply && lastApply[h] in repo.parents
    ensures Current(repo, lastApply, w, h, commit)
    ensures AllReported(w.reports, h, repo.parents[commit])
    ensures AllUsed(repo, lastApply, hosts0, deltaNoop, w, h, repo.parents[commit])
  {
    hide InLineages, Current;
    var parents := repo.parents[commit];
    ReportedCurrent(repo, lastApply, w, hosts, ids[0], h);
    forall i | 0 <= i < |parents|
      ensures (h, parents[i]) in w.reports && ParentUsed(repo, lastApply, hosts0, deltaNoop, w, h, parents[i])
    {
      assert parents[i] in parents;
      if IsNooped(repo, lastApply, hosts0, deltaNoop, parents[i]) {
        var j :| 0 <= j < |ids| && ids[j] == parents[i];
        ReportedCurrent(repo, lastApply, w, hosts, ids[j], h);
      } else {
        var k: NoopKey := (h, parents[i]);
        assert k in w0.reports && w0.reports[k] == EMPTY_REPORT && k.1 !in ids;
      }
    }
  }

  /** Noops that can be loaded are never replaced. */
  ghost predicate CacheKept(repo: Repo, lastApply: map<Host, Oid>, stored0: map<NoopKey, StoredNoop>,
                            stored: map<NoopKey, StoredNoop>)
  {
    forall c :: StillLoads(repo, lastApply, stored0, stored, c)
  }

  lemma RoundsKeepCache(repo: Repo, lastApply: map<Host, Oid>, hosts: set<Host>, ids: seq<Oid>, w0: View, w: View)
    requires RoundsIn(repo, lastApply, hosts, ids, w0, w)
    ensures CacheKept(repo, lastApply, w0.stored, w.stored)
  {
    hide LoadFrom;
    forall c ensures StillLoads(repo, lastApply, w0.stored, w.stored, c) {
      if c !in ids {
        forall h ensures StoredAt(w.stored, h, c) == StoredAt(w0.stored, h, c) {
          var k: NoopKey := (h, c);
          assert k.1 !in ids;
        }
      }
    }
  }

  lemma CacheKeptOn(repo: Repo, lastApply: map<Host, Oid>, stored0: map<NoopKey, StoredNoop>,
                    stored1: map<NoopKey, StoredNoop>, stored2: map<NoopKey, StoredNoop>)
    requires CacheKept(repo, lastApply, stored0, stored1) && CacheKept(repo, lastApply, stored1, stored2)
    ensures CacheKept(repo, lastApply, stored0, stored2)
  {
    hide LoadNoop;
    forall c ensures StillLoads(repo, lastApply, stored0, stored2, c) {
      assert StillLoads(repo, lastApply, stored0, stored1, c) && StillLoads(repo, lastApply, stored1, stored2, c);
    }
  }

  /** What the delta of a node that remains is. */
  ghost predicate DeltaRight(repo: Repo, lastApply: map<Host, Oid>, hosts: set<Host>, deltaNoop: bool, commit: Oid,
                             w: View, ignored: IgnoreRule, h: Host, delta: map<Title, DeltaResource>)
    requires commit in repo.parents
  {
    && h in hosts && h in lastApply && lastApply[h] in repo.parents
    && Current(repo, lastApply, w, h, commit)
    && AllReported(w.reports, h, repo.parents[commit])
    && AllUsed(repo, lastApply, hosts, deltaNoop, w, h, repo.parents[commit])
    && delta == Subtract(w.reports[(h, commit)], ReportsOf(w.reports, h, repo.parents[commit]), ignored)
  }

  ghost predicate DeltasRight(repo: Repo, lastApply: map<Host, Oid>, hosts: set<Host>, deltaNoop: bool, commit: Oid,
                              w: View, ignored: IgnoreRule, deltas: Grouping.Deltas)
    requires commit in repo.parents
  {
    forall h :: h in deltas ==> DeltaRight(repo, lastApply, hosts, deltaNoop, commit, w, ignored, h, deltas[h])
  }

  lemma DeltasAreRight(repo: Repo, lastApply: map<Host, Oid>, hosts0: set<Host>, hosts: set<Host>, deltaNoop: bool,
                       commit: Oid, ids: seq<Oid>, w0: View, w: View, ignored: IgnoreRule,
                       active: set<Host>, evalErrors: set<Host>, parentErrors: set<Host>, deltas: Grouping.Deltas)
    requires commit in repo.parents && OnlyNooped(repo, lastApply, hosts0, deltaNoop, commit, repo.parents[commit], ids)
    requires KnownCommits(repo, lastApply, hosts0) && ZERO_OID !in repo.parents
    requires SortedOut(repo, lastApply, hosts0, deltaNoop, repo.parents[commit], ids, w0.reports)
    requires RoundsIn(repo, lastApply, hosts, ids, w0, w) && hosts <= hosts0
    requires DeltasAre(hosts, {}, active, evalErrors, parentErrors, deltas, w.reports, commit, repo.parents[commit],
                       ignored)
    ensures DeltasRight(repo, lastApply, hosts0, deltaNoop, commit, w, ignored, deltas)
  {
    hide Subtract, RoundsIn, SortedOut, OnlyNooped, Current, AllUsed;
    forall h | h in deltas
      ensures DeltaRight(repo, lastApply, hosts0, deltaNoop, commit, w, ignored, h, deltas[h])
    {
      assert DeltaHost(h, hosts, {}, active, evalErrors, parentErrors, deltas, w.reports, commit, repo.parents[commit],
                       ignored);
      ReportsCurrent(repo, lastApply, hosts0, hosts, deltaNoop, commit, ids, w0, w, h);
    }
  }

  /** The cached noops of the commit and its parents can be read. */
  ghost predicate FamilyLoadable(repo: Repo, lastApply: map<Host, Oid>, hosts: set<Host>, commit: Oid,
                                 stored: map<NoopKey, StoredNoop>)
    requires commit in repo.parents
  {
    && Loadable(repo, lastApply, stored, hosts, commit)
    && forall p :: p in repo.parents[commit] ==> Loadable(repo, lastApply, stored, hosts, p)
  }

  /** Nodes answer honestly, report their last apply, and the noops on disk can be read. */
  ghost predicate AllWell(repo: Repo, lastApply: map<Host, Oid>, hosts: set<Host>, commit: Oid, log: seq<ApplyCall>,
                          from: nat, versions: map<Host, ConfVersion>, stored: map<NoopKey, StoredNoop>)
    requires commit in repo.parents
  {
    && HonestSince(log, from) && KnowsLastApplies(lastApply, versions, repo.parents.Keys, hosts)
    && Distinct(repo.parents[commit]) && FamilyLoadable(repo, lastApply, hosts, commit, stored)
  }

  lemma IdsLoadable(repo: Repo, lastApply: map<Host, Oid>, hosts: set<Host>, deltaNoop: bool, commit: Oid,
                    ids: seq<Oid>,
                    stored: map<NoopKey, StoredNoop>)
    requires commit in repo.parents && OnlyNooped(repo, lastApply, hosts, deltaNoop, commit, repo.parents[commit], ids)
    requires Distinct(repo.parents[commit]) && FamilyLoadable(repo, lastApply, hosts, commit, stored)
    ensures AllLoadable(repo, lastApply, stored, hosts, ids)
  {
    hide Loadable, IsNooped;
  }

  lemma NeverMissing(repo: Repo, lastApply: map<Host, Oid>, hosts0: set<Host>, hosts: set<Host>, deltaNoop: bool,
                     commit: Oid, ids: seq<Oid>, w0: View, w: View, log: seq<ApplyCall>, from: nat, h: Host,
                     ignored: IgnoreRule)
    requires commit in repo.parents && OnlyNooped(repo, lastApply, hosts0, deltaNoop, commit, repo.parents[commit], ids)
    requires SortedOut(repo, lastApply, hosts0, deltaNoop, repo.parents[commit], ids, w0.reports)
    requires Rounds(repo, lastApply, hosts0, hosts, ids, log, from, w0, w)
    requires h in hosts && MadeFrom(MissingReport, map[], w.reports, h, commit, repo.parents[commit], ignored)
    ensures !NamedSince(log, from)
  {
    hide OnlyNooped, SortedOut, RoundsPresent, RoundsIn, NamedSince;
    if NamedSince(log, from) {
      NothingMissing(repo, lastApply, hosts0, hosts, deltaNoop, commit, ids, w0, w, h);
    }
  }

  lemma WellRight(repo: Repo, lastApply: map<Host, Oid>, hosts0: set<Host>, hosts: set<Host>, deltaNoop: bool,
                  commit: Oid, ids: seq<Oid>, w0: View, w: View,
                  log: seq<ApplyCall>, from: nat, ignored: IgnoreRule,
                  active: set<Host>, evalErrors: set<Host>, parentErrors: set<Host>, deltas: Grouping.Deltas)
    requires commit in repo.parents && OnlyNooped(repo, lastApply, hosts0, deltaNoop, commit, repo.parents[commit], ids)
    requires ZERO_OID !in repo.parents
    requires SortedOut(repo, lastApply, hosts0, deltaNoop, repo.parents[commit], ids, w0.reports)
    requires Rounds(repo, lastApply, hosts0, hosts, ids, log, from, w0, w)
    requires DeltasAre(hosts, {}, active, evalErrors, parentErrors, deltas, w.reports, commit, repo.parents[commit],
                       ignored)
    ensures AllWell(repo, lastApply, hosts0, commit, log, from, w0.versions, w0.stored) ==>
              DeltasRight(repo, lastApply, hosts0, deltaNoop, commit, w, ignored, deltas)
  {
    hide OnlyNooped, SortedOut, RoundsIn, HonestSince, KnowsLastApplies, Loadable, DeltasAre, DeltasRight;
    hide KnownCommits;
    if AllWell(repo, lastApply, hosts0, commit, log, from, w0.versions, w0.stored) {
      DeltasAreRight(repo, lastApply, hosts0, hosts, deltaNoop, commit, ids, w0, w,
                     ignored, active, evalErrors, parentErrors, deltas);
    }
  }

  lemma WellKept(repo: Repo, lastApply: map<Host, Oid>, hosts0: set<Host>, hosts: set<Host>, commit: Oid, ids: seq<Oid>,
                 w0: View, w: View, log: seq<ApplyCall>, from: nat)
    requires commit in repo.parents && Rounds(repo, lastApply, hosts0, hosts, ids, log, from, w0, w)
    ensures AllWell(repo, lastApply, hosts0, commit, log, from, w0.versions, w0.stored) ==>
              CacheKept(repo, lastApply, w0.stored, w.stored)
  {
    hide RoundsIn, CacheKept, HonestSince, KnowsLastApplies, Loadable;
    if AllWell(repo, lastApply, hosts0, commit, log, from, w0.versions, w0.stored) {
      RoundsKeepCache(repo, lastApply, hosts, ids, w0, w);
    }
  }

  lemma SameCacheKept(repo: Repo, lastApply: map<Host, Oid>, stored: map<NoopKey, StoredNoop>)
    ensures CacheKept(repo, lastApply, stored, stored)
  {
    hide LoadFrom;
  }

  lemma NoopsOfFamily(repo: Repo, lastApply: map<Host, Oid>, hosts: set<Host>, deltaNoop: bool, commit: Oid,
                      ids: seq<Oid>,
                      log: seq<ApplyCall>, from: nat)
    requires commit in repo.parents && OnlyNooped(repo, lastApply, hosts, deltaNoop, commit, repo.parents[commit], ids)
    requires NoopsOf(log, from, ids)
    ensures NoopsOf(log, from, [commit] + repo.parents[commit])
  {
  }

  lemma RemainingKnown(repo: Repo, lastApply: map<Host, Oid>, all: set<Host>, hosts: set<Host>, failed: set<Host>,
                       another: set<Host>, active: set<Host>)
    requires KnownCommits(repo, lastApply, all) && Dealt(all, hosts, failed, another) && active <= hosts
    ensures forall h :: h in active ==> h in lastApply && lastApply[h] in repo.parents
  {
  }

  /** The grouped report of a commit, from noops to groups. */
  method GroupReportNodeSet(ns: NodeSet, store: NoopStore, fleet: Fleet, repo: Repo, commit: Oid, deltaNoop: bool,
                            ignored: IgnoreRule, decode: Grouping.Decoder, lockMsg: string)
    returns (out: Outcome, ghost deltas: Grouping.Deltas, ghost hosts: set<Host>, ghost failed: set<Host>,
             ghost another: set<Host>)
    requires commit in repo.parents && ZERO_OID !in repo.parents
    requires KnownCommits(repo, ns.lastApply, ns.active) && fleet.granted <= fleet.Held()
    modifies ns`active, ns`errored, ns`lockedByAnother, store`reports, store`stored
    modifies fleet`locks, fleet`disturbed, fleet`granted, fleet`answers, fleet`versions, fleet`log
    ensures old(fleet.log) <= fleet.log && NoopsOf(fleet.log, |old(fleet.log)|, [commit] + repo.parents[commit])
    ensures out.NotInAllLineages? <==> deltaNoop && !InLineages(repo, ns.lastApply, old(ns.active), commit)
    ensures out.NotInAllLineages? ==> fleet.log == old(fleet.log)
    ensures out.Abandoned? ==> ns.ThresholdExceeded() || exists t :: ignored(t).Failed?
    ensures !out.Died? ==> fleet.granted == old(fleet.granted) && fleet.granted <= fleet.Held()
    ensures out.Died? ==>
              !(NamedSince(fleet.log, |old(fleet.log)|) && Distinct(repo.parents[commit])
                && FamilyLoadable(repo, ns.lastApply, old(ns.active), commit, old(store.stored)))
    ensures out.Died? && !out.cause.BadFile? ==> !NamedSince(fleet.log, |old(fleet.log)|)
    ensures out.Grouped? ==>
              && Dealt(old(ns.active), hosts, failed, another)
              && DeltasAre(hosts, {}, ns.active, out.report.evalErrors, out.report.parentErrors, deltas, store.reports,
                           commit, repo.parents[commit], ignored)
              && Grouping.IsPartition(deltas, out.report.resources)
              && Grouping.Rendered(deltas, out.report.resources, decode) && Grouping.TitlesMatch(deltas)
    ensures out.Grouped? ==>
              && out.report.errored == ns.errored == old(ns.errored) + failed
              && out.report.lockedByAnother == ns.lockedByAnother == old(ns.lockedByAnother) + another
              && out.report.beyondRev <= ns.active
              && forall h :: h in ns.active && h in ns.lastApply && ns.lastApply[h] in repo.parents ==>
                               (h in out.report.beyondRev <==> commit in History(repo, ns.lastApply[h]))
    ensures out.Grouped? ==>
              || DeltasRight(repo, ns.lastApply, old(ns.active), deltaNoop, commit, Snapshot(fleet, store), ignored,
                             deltas)
              || !AllWell(repo, ns.lastApply, old(ns.active), commit, fleet.log, |old(fleet.log)|, old(fleet.versions),
                          old(store.stored))
    ensures !out.Died? ==>
              || CacheKept(repo, ns.lastApply, old(store.stored), store.stored)
              || !AllWell(repo, ns.lastApply, old(ns.active), commit, fleet.log, |old(fleet.log)|, old(fleet.versions),
                          old(store.stored))
  {
    hide *;
    deltas, hosts, failed, another := map[], ns.active, {}, {};
    ghost var start, all, v0, s0 := |fleet.log|, ns.active, fleet.versions, store.stored;
    SameCacheKept(repo, ns.lastApply, s0);
    var parents := repo.parents[commit];
    NoopsNone(fleet.log, [commit] + parents);
    var inLineages := CommitInAllNodeLineages(repo, ns.lastApply, ns.active, commit);
    if deltaNoop && !inLineages {
      return NotInAllLineages, deltas, hosts, failed, another;
    }
    var ids := CommitsToNoop(ns, store, repo, commit, deltaNoop);
    ghost var w0 := Snapshot(fleet, store);
    SnapshotIs(fleet, store);
    var res;
    ghost var done;
    res, failed, another, done := NoopAll(ns, store, fleet, repo, ids, lockMsg);
    SnapshotIs(fleet, store);
    NoopsOfFamily(repo, ns.lastApply, all, deltaNoop, commit, ids, fleet.log, start);
    hosts := ns.active;
    if res.Crash? {
      if Distinct(parents) && FamilyLoadable(repo, ns.lastApply, all, commit, s0) {
        IdsLoadable(repo, ns.lastApply, all, deltaNoop, commit, ids, s0);
      }
      return Died(res.cause), deltas, hosts, failed, another;
    }
    WellKept(repo, ns.lastApply, all, hosts, commit, ids[..done], w0, Snapshot(fleet, store), fleet.log, start);
    if res.TooManyErrors? {
      return Abandoned, deltas, hosts, failed, another;
    }
    assert ids[..|ids|] == ids;
    ghost var at;
    var m, evalErrors, parentErrors, made;
    m, evalErrors, parentErrors, made, at := MakeDeltas(ns, store.reports, commit, parents, ignored);
    if m.MissingReport? {
      NeverMissing(repo, ns.lastApply, all, hosts, deltaNoop, commit, ids, w0, Snapshot(fleet, store), fleet.log, start,
                   at, ignored);
      return Died(NoReport), deltas, hosts, failed, another;
    }
    if m.BadTitle? {
      BadTitleRule(store.reports, at, commit, parents, ignored);
      return Abandoned, deltas, hosts, failed, another;
    }
    deltas := made;
    WellRight(repo, ns.lastApply, all, hosts, deltaNoop, commit, ids, w0, Snapshot(fleet, store), fleet.log, start,
              ignored,
              ns.active, evalErrors, parentErrors, deltas);
    DeltaTitles(hosts, ns.active, evalErrors, parentErrors, made, store.reports, commit, parents, ignored);
    var grouping := new Grouping.DeltaStore(made, decode);
    var resources := grouping.GroupAll();
    RemainingKnown(repo, ns.lastApply, all, hosts, failed, another, ns.active);
    var beyondRev, _ := BeyondRevNodes(repo, ns.lastApply, ns.active, commit);
    out := Grouped(GroupedReport(resources, evalErrors, parentErrors, ns.errored, beyondRev, ns.lockedByAnother));
    return out, deltas, hosts, failed, another;
  }

  lemma BadTitleRule(reports: map<NoopKey, Report>, host: Host, commit: Oid, parents: seq<Oid>, ignored: IgnoreRule)
    requires MadeFrom(BadTitle, map[], reports, host, commit, parents, ignored)
    ensures exists t :: ignored(t).Failed?
  {
  }

  lemma NoopsNone(log: seq<ApplyCall>, ids: seq<Oid>)
    ensures NoopsOf(log, |log|, ids)
  {
  }
}
