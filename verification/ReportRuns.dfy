/** The noop loop, run after run: a grouped report is made of each new commit and
    kept on disk. Every change of a pending commit is in some delta that was
    reported; the report prints it as far as grouped deltas agree. */
module ReportRuns {
  import opened Wrappers
  import opened CommitGraph
  import opened NoopReports
  import opened Fleets
  import opened NodeSets
  import opened NoopRuns
  import opened DeltaCoverage
  import opened GroupReports
  import Grouping
  import ApplyRun

  /** The titles to ignore, and base64. */
  datatype Rules = Rules(ignored: IgnoreRule, decode: Grouping.Decoder)

  /** The nodes of a run, with what they last applied. */
  datatype Site = Site(repo: Repo, lastApply: map<Host, Oid>, rules: Rules)
  {
    ghost predicate Valid() {
      KnownCommits(repo, lastApply, lastApply.Keys) && ZERO_OID !in repo.parents
    }

    /** One of the nodes, as the theory of delta coverage sees it, its noops
        being those in the cache. */
    ghost function SettingOf(stored: map<NoopKey, StoredNoop>, h: Host): Setting
      requires Valid() && h in lastApply
    {
      Setting(repo, lastApply, h,
              (c: Oid) => match LoadFrom(repo, lastApply, stored, h, c)
                case Loaded(report) => report
                case _ => EMPTY_REPORT,
              rules.ignored)
    }

    ghost predicate Kept(stored0: map<NoopKey, StoredNoop>, stored: map<NoopKey, StoredNoop>) {
      CacheKept(repo, lastApply, stored0, stored)
    }

    lemma StillCurrent(w: View, final: map<NoopKey, StoredNoop>, h: Host, c: Oid)
      requires Valid() && h in lastApply
      requires Kept(w.stored, final) && Current(repo, lastApply, w, h, c)
      ensures LoadFrom(repo, lastApply, final, h, c) == Loaded(w.reports[(h, c)])
    {
      hide LoadNoop;
      assert StillLoads(repo, lastApply, w.stored, final, c);
    }

    /** A commit has one noop per node: two runs that had a current report of it,
        as its own or as that of a parent, had the same. */
    lemma OneNoop(w1: View, w2: View, h: Host, c: Oid)
      requires Valid() && h in lastApply
      requires Current(repo, lastApply, w1, h, c) && Current(repo, lastApply, w2, h, c) && Kept(w1.stored, w2.stored)
      ensures w1.reports[(h, c)] == w2.reports[(h, c)]
    {
      StillCurrent(w1, w2.stored, h, c);
    }

    lemma SameLineages(stored: map<NoopKey, StoredNoop>, h: Host, p: Oid)
      requires Valid() && h in lastApply && p in repo.parents
      ensures SettingOf(stored, h).Valid()
      ensures SettingOf(stored, h).InAllLineages(p) <==> InLineages(repo, lastApply, lastApply.Keys, p)
    {
      hide CommitInNodeLineage, LoadFrom;
    }

    /** What a parent's changes were subtracted with is what coverage subtracts. */
    lemma ParentAsSpecified(w: View, final: map<NoopKey, StoredNoop>, h: Host, p: Oid)
      requires Valid() && h in lastApply && Kept(w.stored, final)
      requires ParentUsed(repo, lastApply, lastApply.Keys, true, w, h, p)
      ensures SettingOf(final, h).Valid() && SettingOf(final, h).ParentReport(p) == w.reports[(h, p)]
    {
      hide CommitInNodeLineage, InLineages, CacheKept, Setting.InAllLineages, LoadNoop;
      SameLineages(final, h, p);
      if IsNooped(repo, lastApply, lastApply.Keys, true, p) {
        StillCurrent(w, final, h, p);
      }
    }

    /** The delta a run made is the one delta coverage is about, then and
        whenever the cache has grown. */
    lemma DeltaAsSpecified(w: View, final: map<NoopKey, StoredNoop>, h: Host, commit: Oid, delta: map<Title,
                           DeltaResource>)
      requires Valid() && h in lastApply && commit in repo.parents && Kept(w.stored, final)
      requires DeltaRight(repo, lastApply, lastApply.Keys, true, commit, w, rules.ignored, h, delta)
      ensures SettingOf(final, h).Valid() && delta == SettingOf(final, h).Delta(commit)
    {
      hide Subtract, CacheKept, Setting.ParentReport, ParentUsed, LoadFrom;
      var s := SettingOf(final, h);
      var parents := repo.parents[commit];
      SameLineages(final, h, commit);
      StillCurrent(w, final, h, commit);
      forall i | 0 <= i < |parents| ensures s.Priors(commit)[i] == w.reports[(h, parents[i])] {
        assert ParentUsed(repo, lastApply, lastApply.Keys, true, w, h, parents[i]);
        ParentAsSpecified(w, final, h, parents[i]);
      }
      assert s.Priors(commit) == ReportsOf(w.reports, h, parents);
    }
  }

  // ------------------------------------------------------------ runs, one by one

  /** What is kept of a commit: its report, or that it lies outside the lineage of some node. */
  datatype Filing = OutsideLineages | Changes(report: GroupedReport)

  /** A run that did not stop hecklerd: the cache before it, the reports and the
      cache it left, and its result. `well` says that nodes and files were sound. */
  datatype Run = Run(site: Site, commit: Oid, well: bool, before: map<NoopKey, StoredNoop>, after: View,
                     deltas: Grouping.Deltas, result: Option<Filing>)
  {
    ghost predicate Right() {
      && site.Valid() && commit in site.repo.parents
      && (well ==> site.Kept(before, after.stored))
      && (result.Some? ==> (result.value.OutsideLineages?
                            <==> !InLineages(site.repo, site.lastApply, site.lastApply.Keys, commit)))
      && (result.Some? && result.value.Changes? ==> Made(result.value.report.resources))
      && (result.Some? && result.value.Changes? && well ==>
            DeltasRight(site.repo, site.lastApply, site.lastApply.Keys, true, commit, after, site.rules.ignored,
                        deltas))
    }

    /** The resources were made of the deltas of the run. */
    ghost predicate Made(resources: seq<Grouping.GroupedResource>) {
      && Grouping.TitlesMatch(deltas) && Grouping.IsPartition(deltas, resources)
      && Grouping.Rendered(deltas, resources, site.rules.decode)
    }

    /** The run made this report of the commit, and the node was not dropped from it. */
    ghost predicate Covers(c: Oid, f: Filing, h: Host) {
      commit == c && result == Some(f) && f.Changes? && h in deltas
    }
  }

  /** Runs that follow each other, up to the present cache. */
  ghost predicate Chained(runs: seq<Run>, stored: map<NoopKey, StoredNoop>) {
    && (forall i :: 0 <= i < |runs| ==> runs[i].Right())
    && (forall i :: 0 < i < |runs| ==> runs[i].before == runs[i-1].after.stored)
    && (runs != [] ==> runs[|runs|-1].after.stored == stored)
  }

  /** Since some run nodes and last applies were the same, and all went well. */
  ghost predicate Steady(runs: seq<Run>, from: nat, site: Site) {
    forall i :: from <= i < |runs| ==> runs[i].site == site && runs[i].well
  }

  /** A noop that a run could load is still in the cache. */
  lemma {:induction false} KeptSince(runs: seq<Run>, stored: map<NoopKey, StoredNoop>, from: nat, site: Site, i: nat)
    requires Chained(runs, stored) && Steady(runs, from, site) && from <= i < |runs|
    ensures site.Kept(runs[i].after.stored, stored)
    decreases |runs|
  {
    hide CacheKept, Run.Right;
    var last := |runs| - 1;
    if i == last {
      SameCacheKept(site.repo, site.lastApply, stored);
    } else {
      KeptSince(runs[..last], runs[last].before, from, site, i);
      WellRun(runs[last]);
      CacheKeptOn(site.repo, site.lastApply, runs[i].after.stored, runs[last].before, stored);
    }
  }

  lemma WellRun(run: Run)
    requires run.Right() && run.well
    ensures run.site.Kept(run.before, run.after.stored)
  {
  }

  // ----------------------------------------------------------------- what is kept

  datatype OnDisk = Damaged | Intact(filing: Filing)

  /** Every report on disk was made by one of the runs. */
  ghost predicate Explained(filed: map<Oid, OnDisk>, runs: seq<Run>) {
    forall c :: c in filed && filed[c].Intact? ==>
                  exists i :: 0 <= i < |runs| && runs[i].commit == c && runs[i].result == Some(filed[c].filing)
  }

  /** Some run since `from` made the report on disk of the commit, with the node. */
  ghost predicate OnFile(filed: map<Oid, OnDisk>, runs: seq<Run>, from: nat, h: Host, c: Oid) {
    c in filed && filed[c].Intact?
    && exists i :: from <= i < |runs| && runs[i].Covers(c, filed[c].filing, h)
  }

  /** So it is for every pending commit in the history of the commit. */
  ghost predicate AllOnFile(filed: map<Oid, OnDisk>, runs: seq<Run>, from: nat, site: Site,
                              stored: map<NoopKey, StoredNoop>, h: Host, c: Oid)
    requires site.Valid() && h in site.lastApply && c in site.repo.parents
  {
    forall d :: d in History(site.repo, c) && site.SettingOf(stored, h).Valid() && site.SettingOf(stored,
                                                                                                  h).Pending(d) ==>
                  OnFile(filed, runs, from, h, d)
  }

  /** A resource of the report lists the node under the title, and no other does. */
  ghost predicate ListedOnce(f: Filing, h: Host, t: Title, g: nat) {
    && f.Changes? && g < |f.report.resources| && Grouping.Holds(f.report.resources[g], h, t)
    && forall k :: 0 <= k < |f.report.resources| && Grouping.Holds(f.report.resources[k], h, t) ==> k == g
  }

  lemma PlacedOnce(run: Run, f: Filing, h: Host, t: Title) returns (g: nat, k: Host)
    requires f.Changes? && run.Made(f.report.resources) && Grouping.At(run.deltas, h, t)
    ensures ListedOnce(f, h, t, g) && ShownFrom(run, f, t, g, k)
    ensures Grouping.Agree(run.deltas, run.site.rules.decode) ==>
              Grouping.ShowsAll(f.report.resources[g], run.deltas[h][t], run.site.rules.decode)
  {
    hide Grouping.IsPartition, Grouping.ShowsAll, Grouping.Agree, Grouping.Render;
    var resources := f.report.resources;
    g := Grouping.GroupOf(run.deltas, resources, h, t);
    forall j | 0 <= j < |resources| && Grouping.Holds(resources[j], h, t) ensures j == g {
      Grouping.OneGroup(run.deltas, resources, g, j, h, t);
    }
    assert Grouping.HasTarget(resources[g], run.deltas, run.site.rules.decode);
    k :| Grouping.MadeFrom(resources[g], run.deltas, k, run.site.rules.decode);
    Grouping.Members(run.deltas, resources, g, h);
    Grouping.Members(run.deltas, resources, g, k);
    if Grouping.Agree(run.deltas, run.site.rules.decode) {
      Grouping.AgreeShown(run.deltas, resources, run.site.rules.decode);
      assert Grouping.ShowsAll(resources[g], run.deltas[h][t], run.site.rules.decode) by {
        hide Grouping.Rendered;
      }
    }
  }

  /** The resource prints the delta of one of its nodes, of the same key. */
  ghost predicate ShownFrom(run: Run, f: Filing, t: Title, g: nat, k: Host) {
    && f.Changes? && g < |f.report.resources| && f.report.resources[g].title == t
    && Grouping.MadeFrom(f.report.resources[g], run.deltas, k, run.site.rules.decode)
  }

  /** A node that was dropped from the run is listed by no resource of its report. */
  lemma DroppedUnlisted(run: Run, f: Filing, h: Host)
    requires run.Right() && run.result == Some(f) && f.Changes? && h !in run.deltas
    ensures forall g :: 0 <= g < |f.report.resources| ==> h !in f.report.resources[g].hosts
  {
    hide Grouping.IsPartition;
    forall g | 0 <= g < |f.report.resources| ensures h !in f.report.resources[g].hosts {
      Grouping.Members(run.deltas, f.report.resources, g, h);
    }
  }

  /** A run that covered the node made, for it, the delta of the setting. */
  lemma RunDelta(runs: seq<Run>, stored: map<NoopKey, StoredNoop>, from: nat, site: Site, i: nat, c: Oid, f: Filing,
                 h: Host)
    requires Chained(runs, stored) && Steady(runs, from, site) && from <= i < |runs| && runs[i].Covers(c, f, h)
    ensures site.Valid() && h in site.lastApply && c in site.repo.parents
    ensures site.SettingOf(stored, h).Valid() && runs[i].deltas[h] == site.SettingOf(stored, h).Delta(c)
    ensures runs[i].Made(f.report.resources)
    ensures site.SettingOf(stored, h).InAllLineages(c)
  {
    hide CacheKept, Current, AllUsed, Subtract, LoadFrom, Run.Made, InLineages, Setting.InAllLineages;
    assert runs[i].Right();
    assert DeltaRight(site.repo, site.lastApply, site.lastApply.Keys, true, c, runs[i].after, site.rules.ignored, h,
                      runs[i].deltas[h]);
    KeptSince(runs, stored, from, site, i);
    site.DeltaAsSpecified(runs[i].after, stored, h, c, runs[i].deltas[h]);
    site.SameLineages(stored, h, c);
  }

  /** The noop of a commit, whenever it is loaded again, is the report its run used. */
  lemma RunReport(runs: seq<Run>, stored: map<NoopKey, StoredNoop>, from: nat, site: Site, i: nat, c: Oid, f: Filing,
                  h: Host)
    requires Chained(runs, stored) && Steady(runs, from, site) && from <= i < |runs| && runs[i].Covers(c, f, h)
    ensures site.Valid() && h in site.lastApply && (h, c) in runs[i].after.reports
    ensures site.SettingOf(stored, h).noopOf(c) == runs[i].after.reports[(h, c)]
  {
    hide CacheKept, AllUsed, Subtract, LoadFrom, Run.Made;
    assert runs[i].Right();
    assert DeltaRight(site.repo, site.lastApply, site.lastApply.Keys, true, c, runs[i].after, site.rules.ignored, h,
                      runs[i].deltas[h]);
    KeptSince(runs, stored, from, site, i);
    site.StillCurrent(runs[i].after, stored, h, c);
  }

  /** No change slips through the reports: every event in the noop of a pending
      commit, its resource not ignored, is in the delta of the commit or an
      ancestor of it, and exactly one resource of that report lists the node. The
      resource prints the delta of its node k, and so the event when grouped
      deltas agree. */
  lemma EveryChangeReported(filed: map<Oid, OnDisk>, runs: seq<Run>, stored: map<NoopKey, StoredNoop>, from: nat,
                            site: Site, h: Host, c: Oid, t: Title, e: Event)
    returns (origin: Oid, i: nat, g: nat, k: Host)
    requires Chained(runs, stored) && Steady(runs, from, site)
    requires site.Valid() && h in site.lastApply && site.SettingOf(stored, h).Valid()
    requires site.SettingOf(stored, h).Pending(c) && AllOnFile(filed, runs, from, site, stored, h, c)
    requires site.SettingOf(stored, h).HasEvent(c, t, e) && site.rules.ignored(t) == Answer(false)
    ensures c in site.repo.parents && origin in History(site.repo, c) && site.SettingOf(stored, h).Pending(origin)
    ensures ReportedIn(filed, runs, from, site, h, origin, t, Grouping.OfEvent(e), i, g, k)
  {
    hide CacheKept, LoadFrom, Subtract, Run.Right, ReportedIn;
    hide Setting.EventTrail, Setting.HasEvent, Setting.InAllLineages;
    var s := site.SettingOf(stored, h);
    origin := s.EventsCovered(c, t, e);
    assert OnFile(filed, runs, from, h, origin);
    i, g, k := InReport(filed, runs, stored, from, site, h, origin, t, Grouping.OfEvent(e));
  }

  /** The same for logs, when new logs name listed resources. */
  lemma EveryLogReported(filed: map<Oid, OnDisk>, runs: seq<Run>, stored: map<NoopKey, StoredNoop>, from: nat,
                         site: Site, h: Host, c: Oid, l: Log)
    returns (origin: Oid, i: nat, g: nat, k: Host)
    requires Chained(runs, stored) && Steady(runs, from, site)
    requires site.Valid() && h in site.lastApply && site.SettingOf(stored, h).Valid()
    requires site.SettingOf(stored, h).PendingLog(c, l) && AllOnFile(filed, runs, from, site, stored, h, c)
    requires site.SettingOf(stored, h).NewLogsListed(c)
    ensures c in site.repo.parents && origin in History(site.repo, c) && site.SettingOf(stored, h).Pending(origin)
    ensures ReportedIn(filed, runs, from, site, h, origin, l.source, Grouping.OfLog(l), i, g, k)
  {
    hide CacheKept, LoadFrom, Subtract, Run.Right, ReportedIn;
    hide Setting.LogTrail, Setting.NewLogsListed, Setting.InAllLineages;
    var s := site.SettingOf(stored, h);
    origin := s.LogCoverage(c, l);
    assert OnFile(filed, runs, from, h, origin);
    i, g, k := InReport(filed, runs, stored, from, site, h, origin, l.source, Grouping.OfLog(l));
  }

  /** Run i made the report on disk of the commit; its delta for the node has the
      change; exactly resource g of the report lists the node under the title, and
      prints what node k has there. */
  ghost predicate ReportedIn(filed: map<Oid, OnDisk>, runs: seq<Run>, from: nat, site: Site, h: Host, c: Oid, t: Title,
                             x: Grouping.Change, i: nat, g: nat, k: Host)
  {
    && c in filed && filed[c].Intact? && from <= i < |runs| && runs[i].Covers(c, filed[c].filing, h)
    && t in runs[i].deltas[h] && Grouping.Has(runs[i].deltas[h][t], x)
    && ListedOnce(filed[c].filing, h, t, g) && ShownFrom(runs[i], filed[c].filing, t, g, k)
    && (Grouping.Agree(runs[i].deltas, site.rules.decode) ==>
          Grouping.Shows(filed[c].filing.report.resources[g], x, site.rules.decode))
  }

  /** A change of the delta of a commit is in the report that covers the node. */
  lemma InReport(filed: map<Oid, OnDisk>, runs: seq<Run>, stored: map<NoopKey, StoredNoop>, from: nat, site: Site,
                 h: Host,
                 c: Oid, t: Title, x: Grouping.Change) returns (i: nat, g: nat, k: Host)
    requires Chained(runs, stored) && Steady(runs, from, site) && OnFile(filed, runs, from, h, c)
    requires site.Valid() && h in site.lastApply && c in site.repo.parents && site.SettingOf(stored, h).Valid()
    requires t in site.SettingOf(stored, h).Delta(c) && Grouping.Has(site.SettingOf(stored, h).Delta(c)[t], x)
    ensures ReportedIn(filed, runs, from, site, h, c, t, x, i, g, k)
  {
    hide CacheKept, LoadFrom, Subtract, Run.Right, Run.Made, ShownFrom, Grouping.Agree, Grouping.Has, Grouping.Shows;
    i :| from <= i < |runs| && runs[i].Covers(c, filed[c].filing, h);
    RunDelta(runs, stored, from, site, i, c, filed[c].filing, h);
    g, k := PlacedOnce(runs[i], filed[c].filing, h, t);
  }

  // --------------------------------------------------------------- the noop loop

  /** The grouped reports on disk. */
  class ReportStore {
    var filed: map<Oid, OnDisk>
    /** Every run that did not stop hecklerd, in order. */
    ghost var runs: seq<Run>

    constructor ()
      ensures filed == map[] && runs == []
    {
      filed, runs := map[], [];
    }

    ghost predicate Valid(stored: map<NoopKey, StoredNoop>)
      reads this
    {
      Chained(runs, stored) && Explained(filed, runs)
    }
  }

  /** Calls since `from` were noops under granted locks. */
  ghost predicate OnlyNoops(log: seq<ApplyCall>, from: nat) {
    from <= |log| && forall i :: from <= i < |log| ==> log[i].noop && log[i].underGrant
  }

  /** Nodes answered the truth, parents are listed once, and cached noops can be read. */
  ghost predicate AllSound(run: Run, log: seq<ApplyCall>, from: nat)
    requires run.commit in run.site.repo.parents
  {
    && HonestSince(log, from) && Distinct(run.site.repo.parents[run.commit])
    && FamilyLoadable(run.site.repo, run.site.lastApply, run.site.lastApply.Keys, run.commit, run.before)
  }

  /** What a report run adds to the record. */
  ghost predicate RanFor(run: Run, commit: Oid, repo: Repo, rules: Rules, log: seq<ApplyCall>, from: nat,
                         versions: map<Host, ConfVersion>)
  {
    && run.commit == commit && run.site.repo == repo && run.site.rules == rules && commit in repo.parents
    && KnowsLastApplies(run.site.lastApply, versions, repo.parents.Keys, run.site.lastApply.Keys)
    && (run.well <==> AllSound(run, log, from))
  }

  datatype Step = Stopped | GaveUp | NextCommit

  ghost function FilingOf(out: Outcome): Option<Filing> {
    match out
    case Grouped(report) => Some(Changes(report))
    case NotInAllLineages => Some(OutsideLineages)
    case _ => None
  }

  /** Nooping a commit on all nodes, freshly dialled and asked for their last applies. */
  method RunReports(store: NoopStore, fleet: Fleet, repo: Repo, commit: Oid, cfg: ApplyRun.Config, rules: Rules)
    returns (s: Step, filing: Option<Filing>, ghost run: Run)
    requires commit in repo.parents && ZERO_OID !in repo.parents && fleet.granted <= fleet.Held()
    modifies store`reports, store`stored
    modifies fleet`locks, fleet`disturbed, fleet`granted, fleet`answers, fleet`versions, fleet`log
    ensures old(fleet.log) <= fleet.log && OnlyNoops(fleet.log, |old(fleet.log)|)
    ensures !s.Stopped? ==> fleet.granted == old(fleet.granted) && fleet.granted <= fleet.Held()
    ensures s.GaveUp? ==> store.stored == old(store.stored)
    ensures s.NextCommit? ==>
              && run.Right() && run.before == old(store.stored) && run.after.stored == store.stored
              && run.result == filing
              && RanFor(run, commit, repo, rules, fleet.log, |old(fleet.log)|, old(fleet.versions))
  {
    hide AllWell, DeltasAre, DeltasRight, CacheKept, Grouping.IsPartition, Grouping.Rendered, Dealt, KnowsLastApplies;
    hide HonestSince, NamedSince, NoopsOf, AskedOutcome, InLineages, RanFor, OnlyNoops, KnownCommits, Run.Right, Dialed;
    filing := None;
    run := Run(Site(repo, map[], rules), commit, false, store.stored, Snapshot(fleet, store), map[], None);
    var perNoop := new NodeSet(cfg.thresholds);
    var nodesToDial: Reply<seq<Host>>, dialFails: nat -> bool := *, *;
    NoNoops(fleet.log);
    var ok := DialNodeSet(perNoop, nodesToDial, dialFails);
    if !ok {
      return GaveUp, filing, run;
    }
    ghost var a, said, told;
    ok, a, said, told := LastApplyNodeSet(perNoop, fleet, repo.parents.Keys);
    if !ok {
      return GaveUp, filing, run;
    }
    store.reports := map[];
    ghost var before, log0, v0, site := store.stored, fleet.log, fleet.versions, Site(repo, perNoop.lastApply, rules);
    assert perNoop.lastApply.Keys == perNoop.active;
    NowKnown(repo, perNoop.lastApply, v0, perNoop.active);
    var out;
    ghost var deltas, hosts, failed, another;
    out, deltas, hosts, failed, another :=
      GroupReportNodeSet(perNoop, store, fleet, repo, commit, true, rules.ignored, rules.decode, cfg.lockMessage);
    FamilyNoops(fleet.log, |log0|, [commit] + repo.parents[commit]);
    if out.Died? {
      return Stopped, filing, run;
    }
    ghost var well := AllWell(repo, site.lastApply, site.lastApply.Keys, commit, fleet.log, |log0|, v0, before);
    run := Run(site, commit, well, before, Snapshot(fleet, store), deltas, FilingOf(out));
    SnapshotIs(fleet, store);
    RunIsRight(run, out, fleet.log, |log0|, v0);
    match out {
      case Grouped(report) => filing := Some(Changes(report));
      case NotInAllLineages => filing := Some(OutsideLineages);
      case Abandoned =>
    }
    return NextCommit, filing, run;
  }

  /** The body of the loop for a commit without a report on disk. */
  method ReportCommit(reports: ReportStore, store: NoopStore, fleet: Fleet, repo: Repo, commit: Oid,
                      cfg: ApplyRun.Config, rules: Rules) returns (s: Step)
    requires commit in repo.parents && ZERO_OID !in repo.parents && commit !in reports.filed
    requires fleet.granted <= fleet.Held() && reports.Valid(store.stored)
    modifies reports, store`reports, store`stored
    modifies fleet`locks, fleet`disturbed, fleet`granted, fleet`answers, fleet`versions, fleet`log
    ensures old(fleet.log) <= fleet.log && OnlyNoops(fleet.log, |old(fleet.log)|)
    ensures !s.Stopped? ==> reports.Valid(store.stored)
    ensures !s.Stopped? ==> fleet.granted == old(fleet.granted) && fleet.granted <= fleet.Held()
    ensures !s.NextCommit? ==> reports.runs == old(reports.runs) && reports.filed == old(reports.filed)
    ensures s.NextCommit? ==>
              && |reports.runs| == |old(reports.runs)| + 1 && old(reports.runs) <= reports.runs
              && RanFor(reports.runs[|old(reports.runs)|], commit, repo, rules, fleet.log, |old(fleet.log)|,
                        old(fleet.versions))
    ensures s.NextCommit? && reports.filed != old(reports.filed) ==>
              && reports.runs[|old(reports.runs)|].result.Some?
              && reports.filed == old(reports.filed)[commit := Intact(reports.runs[|old(reports.runs)|].result.value)]
  {
    hide Chained, Explained, RanFor, OnlyNoops, Run.Right;
    var filing;
    ghost var run;
    s, filing, run := RunReports(store, fleet, repo, commit, cfg, rules);
    if !s.NextCommit? {
      return;
    }
    RanForCommit(run, commit, repo, rules, fleet.log, |old(fleet.log)|, old(fleet.versions));
    ChainStep(reports.runs, run.before, run);
    ExplainedStep(reports.filed, reports.runs, run);
    reports.runs := reports.runs + [run];
    var created: bool := *;  // the issue on GitHub
    if filing.Some? && created {
      reports.filed := reports.filed[commit := Intact(filing.value)];
    }
  }

  lemma RanForCommit(run: Run, commit: Oid, repo: Repo, rules: Rules, log: seq<ApplyCall>, from: nat,
                     versions: map<Host, ConfVersion>)
    requires RanFor(run, commit, repo, rules, log, from, versions)
    ensures run.commit == commit
  {
  }

  lemma RunIsRight(run: Run, out: Outcome, log: seq<ApplyCall>, from: nat, v0: map<Host, ConfVersion>)
    requires run.site.Valid() && run.commit in run.site.repo.parents && run.result == FilingOf(out)
    requires KnowsLastApplies(run.site.lastApply, v0, run.site.repo.parents.Keys, run.site.lastApply.Keys)
    requires run.well == AllWell(run.site.repo, run.site.lastApply, run.site.lastApply.Keys, run.commit, log, from, v0,
                                 run.before)
    requires run.well ==> CacheKept(run.site.repo, run.site.lastApply, run.before, run.after.stored)
    requires out.NotInAllLineages?
        <==> !InLineages(run.site.repo, run.site.lastApply, run.site.lastApply.Keys, run.commit)
    requires out.Grouped? ==> run.Made(out.report.resources)
    requires out.Grouped? && run.well ==>
               DeltasRight(run.site.repo, run.site.lastApply, run.site.lastApply.Keys, true, run.commit, run.after,
                           run.site.rules.ignored, run.deltas)
    ensures run.Right()
    ensures RanFor(run, run.commit, run.site.repo, run.site.rules, log, from, v0)
  {
    hide CacheKept, InLineages, Run.Made, DeltasRight, HonestSince, KnowsLastApplies;
    hide FamilyLoadable, KnownCommits;
  }

  lemma ChainStep(runs: seq<Run>, stored: map<NoopKey, StoredNoop>, run: Run)
    requires Chained(runs, stored) && run.Right() && run.before == stored
    ensures Chained(runs + [run], run.after.stored)
  {
    hide Run.Right;
  }

  lemma ExplainedStep(filed: map<Oid, OnDisk>, runs: seq<Run>, run: Run)
    requires Explained(filed, runs)
    ensures Explained(filed, runs + [run])
    ensures run.result.Some? ==> Explained(filed[run.commit := Intact(run.result.value)], runs + [run])
  {
    var all := runs + [run];
    assert all[|runs|] == run && forall i :: 0 <= i < |runs| ==> all[i] == runs[i];
    forall c | c in filed && filed[c].Intact?
      ensures exists i :: 0 <= i < |all| && all[i].commit == c && all[i].result == Some(filed[c].filing)
    {
      var i :| 0 <= i < |runs| && runs[i].commit == c && runs[i].result == Some(filed[c].filing);
      assert all[i] == runs[i];
    }
  }

  lemma NoNoops(log: seq<ApplyCall>)
    ensures OnlyNoops(log, |log|)
  {
  }

  lemma NowKnown(repo: Repo, lastApply: map<Host, Oid>, versions: map<Host, ConfVersion>, hosts: set<Host>)
    requires KnowsLastApplies(lastApply, versions, repo.parents.Keys, hosts)
    ensures KnownCommits(repo, lastApply, hosts)
  {
  }

  lemma FamilyNoops(log: seq<ApplyCall>, from: nat, ids: seq<Oid>)
    requires NoopsOf(log, from, ids)
    ensures OnlyNoops(log, from)
  {
  }

  /** A run of this round of the loop: for a commit that had no report when the
      round began, and sound if all of the round was. */
  ghost predicate NewRun(run: Run, repo: Repo, rules: Rules, range: set<Oid>, filed0: map<Oid, OnDisk>,
                         log: seq<ApplyCall>, from: nat)
  {
    && run.site.repo == repo && run.site.rules == rules
    && run.commit in repo.parents && run.commit in range && run.commit !in filed0
    && (AllSound(run, log, from) ==> run.well)
  }

  /** The runs of the round so far, when these commits have been looked at. */
  ghost predicate Rounded(runs0: seq<Run>, runs: seq<Run>, filed0: map<Oid, OnDisk>, filed: map<Oid, OnDisk>,
                          repo: Repo, rules: Rules, seen: set<Oid>, log: seq<ApplyCall>, from: nat)
  {
    && runs0 <= runs && OnlyNoops(log, from)
    && (forall c :: c in filed0 ==> c in filed && filed[c] == filed0[c])
    && (forall c :: c in filed ==> c in filed0 || c in seen)
    && (forall i :: |runs0| <= i < |runs| ==> NewRun(runs[i], repo, rules, seen, filed0, log, from))
    && (forall i, j :: |runs0| <= i < j < |runs| ==> runs[i].commit != runs[j].commit)
    && (forall c :: c in seen ==> c in filed || exists i :: |runs0| <= i < |runs| && runs[i].commit == c)
  }

  lemma RoundStart(runs: seq<Run>, filed: map<Oid, OnDisk>, repo: Repo, rules: Rules, log: seq<ApplyCall>)
    ensures Rounded(runs, runs, filed, filed, repo, rules, {}, log, |log|)
  {
  }

  lemma RoundSkip(runs0: seq<Run>, runs: seq<Run>, filed0: map<Oid, OnDisk>, filed: map<Oid, OnDisk>,
                  repo: Repo, rules: Rules, seen: set<Oid>, log: seq<ApplyCall>, from: nat, c: Oid)
    requires Rounded(runs0, runs, filed0, filed, repo, rules, seen, log, from) && c in filed
    ensures Rounded(runs0, runs, filed0, filed, repo, rules, seen + {c}, log, from)
  {
    hide AllSound;
  }

  lemma SoundBefore(run: Run, log1: seq<ApplyCall>, log2: seq<ApplyCall>, from: nat, since: nat)
    requires log1 <= log2 && from <= since && run.commit in run.site.repo.parents && AllSound(run, log2, from)
    ensures AllSound(run, log1, since)
  {
    hide FamilyLoadable;
  }

  /** More calls and commits leave the runs there are as they are. */
  lemma StillNewRun(run: Run, repo: Repo, rules: Rules, seen: set<Oid>, filed0: map<Oid, OnDisk>,
                    log1: seq<ApplyCall>, from: nat, log2: seq<ApplyCall>, more: set<Oid>)
    requires NewRun(run, repo, rules, seen, filed0, log1, from) && log1 <= log2 && seen <= more
    ensures NewRun(run, repo, rules, more, filed0, log2, from)
  {
    hide AllSound;
    if AllSound(run, log2, from) {
      SoundBefore(run, log1, log2, from, from);
    }
  }

  lemma RoundOn(runs0: seq<Run>, runs: seq<Run>, filed0: map<Oid, OnDisk>, filed: map<Oid, OnDisk>,
                repo: Repo, rules: Rules, seen: set<Oid>, log1: seq<ApplyCall>, from: nat, log2: seq<ApplyCall>)
    requires Rounded(runs0, runs, filed0, filed, repo, rules, seen, log1, from)
    requires log1 <= log2 && OnlyNoops(log2, |log1|)
    ensures Rounded(runs0, runs, filed0, filed, repo, rules, seen, log2, from)
  {
    hide NewRun;
    forall i | |runs0| <= i < |runs| ensures NewRun(runs[i], repo, rules, seen, filed0, log2, from) {
      StillNewRun(runs[i], repo, rules, seen, filed0, log1, from, log2, seen);
    }
  }

  lemma RanNewly(run: Run, c: Oid, repo: Repo, rules: Rules, filed0: map<Oid, OnDisk>, seen: set<Oid>,
                 log1: seq<ApplyCall>, from: nat, log2: seq<ApplyCall>, versions: map<Host, ConfVersion>)
    requires RanFor(run, c, repo, rules, log2, |log1|, versions) && from <= |log1| && c in seen && c !in filed0
    ensures NewRun(run, repo, rules, seen, filed0, log2, from) && run.commit == c
  {
    hide FamilyLoadable, KnowsLastApplies;
  }

  lemma RoundStep(runs0: seq<Run>, runs1: seq<Run>, filed0: map<Oid, OnDisk>, filed1: map<Oid, OnDisk>,
                  repo: Repo, rules: Rules, seen: set<Oid>, log1: seq<ApplyCall>, from: nat,
                  c: Oid, run: Run, filed2: map<Oid, OnDisk>, log2: seq<ApplyCall>, versions: map<Host, ConfVersion>)
    requires Rounded(runs0, runs1, filed0, filed1, repo, rules, seen, log1, from) && c !in seen && c !in filed1
    requires log1 <= log2 && OnlyNoops(log2, |log1|)
    requires RanFor(run, c, repo, rules, log2, |log1|, versions)
    requires filed2 == filed1 || (run.result.Some? && filed2 == filed1[c := Intact(run.result.value)])
    ensures Rounded(runs0, runs1 + [run], filed0, filed2, repo, rules, seen + {c}, log2, from)
  {
    hide NewRun, RanFor;
    var runs2, seen2 := runs1 + [run], seen + {c};
    RanNewly(run, c, repo, rules, filed0, seen2, log1, from, log2, versions);
    assert runs2[|runs1|] == run && forall i :: 0 <= i < |runs1| ==> runs2[i] == runs1[i];
    forall i | |runs0| <= i < |runs1|
      ensures NewRun(runs1[i], repo, rules, seen2, filed0, log2, from) && runs1[i].commit != c
    {
      SeenRun(runs1[i], repo, rules, seen, filed0, log1, from);
      StillNewRun(runs1[i], repo, rules, seen, filed0, log1, from, log2, seen2);
    }
    forall d | d in seen2 && d !in filed2 ensures exists i :: |runs0| <= i < |runs2| && runs2[i].commit == d {
      if d != c {
        var i :| |runs0| <= i < |runs1| && runs1[i].commit == d;
        assert runs2[i].commit == d;
      }
    }
  }

  lemma SeenRun(run: Run, repo: Repo, rules: Rules, seen: set<Oid>, filed0: map<Oid, OnDisk>,
                log: seq<ApplyCall>, from: nat)
    requires NewRun(run, repo, rules, seen, filed0, log, from)
    ensures run.commit in seen
  {
  }

  datatype NoopEnd = FatalEnd | EarlyEnd | AllVisited

  /** The loop over the commits, in any order. */
  method ReportCommits(reports: ReportStore, store: NoopStore, fleet: Fleet, repo: Repo, commits: set<Oid>,
                       cfg: ApplyRun.Config, rules: Rules)
    returns (end: NoopEnd, ghost seen: set<Oid>)
    requires commits <= repo.parents.Keys && ZERO_OID !in repo.parents
    requires fleet.granted <= fleet.Held() && reports.Valid(store.stored)
    modifies reports, store`reports, store`stored
    modifies fleet`locks, fleet`disturbed, fleet`granted, fleet`answers, fleet`versions, fleet`log
    ensures old(fleet.log) <= fleet.log && seen <= commits
    ensures !end.FatalEnd? ==> reports.Valid(store.stored)
    ensures !end.FatalEnd? ==> fleet.granted == old(fleet.granted) && fleet.granted <= fleet.Held()
    ensures !end.FatalEnd? ==>
              Rounded(old(reports.runs), reports.runs, old(reports.filed), reports.filed, repo, rules, seen,
                      fleet.log, |old(fleet.log)|)
    ensures end.AllVisited? ==> seen == commits
  {
    hide *;
    ghost var runs0, filed0, start := reports.runs, reports.filed, |fleet.log|;
    RoundStart(runs0, filed0, repo, rules, fleet.log);
    seen := {};
    var rest := commits;
    while rest != {}
      invariant rest <= commits && seen == commits - rest && old(fleet.log) <= fleet.log
      invariant reports.Valid(store.stored)
      invariant fleet.granted == old(fleet.granted) && fleet.granted <= fleet.Held()
      invariant Rounded(runs0, reports.runs, filed0, reports.filed, repo, rules, seen, fleet.log, start)
      decreases |rest|
    {
      var gi :| gi in rest;
      ghost var runs1, filed1, log1, v1 := reports.runs, reports.filed, fleet.log, fleet.versions;
      if gi in reports.filed {
        if reports.filed[gi].Damaged? {
          return FatalEnd, seen;
        }
        RoundSkip(runs0, runs1, filed0, filed1, repo, rules, seen, log1, start, gi);
      } else {
        var s := ReportCommit(reports, store, fleet, repo, gi, cfg, rules);
        if s.Stopped? {
          return FatalEnd, seen;
        }
        if s.GaveUp? {
          RoundOn(runs0, runs1, filed0, filed1, repo, rules, seen, log1, start, fleet.log);
          return EarlyEnd, seen;
        }
        assert reports.runs == runs1 + [reports.runs[|runs1|]];
        RoundStep(runs0, runs1, filed0, filed1, repo, rules, seen, log1, start, gi, reports.runs[|runs1|],
                  reports.filed, fleet.log, v1);
      }
      rest, seen := rest - {gi}, seen + {gi};
    }
    return AllVisited, seen;
  }

  /** One round of the noop loop, in the mutex: every commit between the common
      tag of the nodes and the branch that has no report on disk is nooped once.
      A report on disk stays as it is, and is explained by the run that made it. */
  method Noop(reports: ReportStore, store: NoopStore, fleet: Fleet, repo: Repo, tags: ApplyRun.Tags, branch: Oid,
              cfg: ApplyRun.Config, rules: Rules)
    returns (end: NoopEnd, ghost seen: set<Oid>, ghost common: Tag)
    requires tags.Valid(repo, cfg.envPrefix) && branch in repo.parents && ZERO_OID !in repo.parents
    requires fleet.granted <= fleet.Held() && reports.Valid(store.stored)
    modifies reports, store`reports, store`stored
    modifies fleet`locks, fleet`disturbed, fleet`granted, fleet`answers, fleet`versions, fleet`log
    ensures old(fleet.log) <= fleet.log
    ensures !end.FatalEnd? ==> reports.Valid(store.stored)
    ensures !end.FatalEnd? ==> fleet.granted == old(fleet.granted) && fleet.granted <= fleet.Held()
    ensures !end.FatalEnd? ==>
              Rounded(old(reports.runs), reports.runs, old(reports.filed), reports.filed, repo, rules, seen,
                      fleet.log, |old(fleet.log)|)
    ensures seen != {} ==> common in tags.commits && tags.commits[common] in repo.parents
                           && seen <= Range(repo, tags.commits[common], branch)
    ensures end.AllVisited? ==> common in tags.commits && tags.commits[common] in repo.parents
                                && seen == Range(repo, tags.commits[common], branch)
  {
    hide Rounded, Chained, Explained, AskedOutcome, ApplyRun.CleanAt;
    RoundStart(reports.runs, reports.filed, repo, rules, fleet.log);
    seen, common := {}, "";
    var ns := new NodeSet(cfg.thresholds);
    var nodesToDial: Reply<seq<Host>>, dialFails: nat -> bool := *, *;
    var ok := DialNodeSet(ns, nodesToDial, dialFails);
    if !ok {
      return EarlyEnd, seen, common;
    }
    var commonTag;
    ghost var at, lastApply, a;
    commonTag, at, lastApply, a := ApplyRun.CommonTagNodeSet(ns, fleet, repo, tags, cfg.envPrefix);
    if commonTag.Failed? {
      return EarlyEnd, seen, common;
    }
    if commonTag.value !in tags.commits {
      return FatalEnd, seen, common;
    }
    common := commonTag.value;
    var _, commits := CommitLogIdList(repo, tags.commits[commonTag.value], branch);
    end, seen := ReportCommits(reports, store, fleet, repo, commits.Keys, cfg, rules);
  }
}
